/**
  The request middleware: it cuts a page path out of the absolute request
  URL and decides between letting the request through and redirecting it.
  The token check (`jwtVerify` with the server's secret key) is the
  parameter `verify`; `token` is the value of the `token` cookie when the
  request carries one.
 */
module Middleware {
  import opened Common

  // ---------------------------------------------------------------------------
  // `String.prototype.split('/')`

  /** The pieces between slashes, empty pieces kept: "a//b/" splits into "a", "", "b", "". */
  function Split(s: string): (parts: seq<string>)
    ensures |parts| >= 1
    ensures forall i :: 0 <= i < |parts| ==> '/' !in parts[i]
    decreases |s|
  {
    if s == [] then [""]
    else
      var rest := Split(s[1..]);
      if s[0] == '/' then [""] + rest
      else [[s[0]] + rest[0]] + rest[1..]
  }

  /** `parts.join('/')`. */
  function Join(parts: seq<string>): string
    requires |parts| >= 1
    decreases |parts|
  {
    if |parts| == 1 then parts[0] else parts[0] + "/" + Join(parts[1..])
  }

  /** Joining the pieces back gives the string that was split. */
  lemma {:induction false} JoinSplit(s: string)
    ensures Join(Split(s)) == s
    decreases |s|
  {
    if s != [] {
      var rest := Split(s[1..]);
      JoinSplit(s[1..]);
      if s[0] == '/' {
        assert Split(s) == [""] + rest;
        assert Split(s)[1..] == rest;
        assert s == [s[0]] + s[1..];
      } else {
        var parts := Split(s);
        assert parts == [[s[0]] + rest[0]] + rest[1..];
        if |rest| == 1 {
          assert s == [s[0]] + s[1..];
        } else {
          assert parts[1..] == rest[1..];
          assert Join(rest) == rest[0] + "/" + Join(rest[1..]);
          assert s == [s[0]] + s[1..];
        }
      }
    }
  }

  /** Splitting a join of slash-free pieces gives the pieces back. */
  lemma {:induction false} SplitJoin(parts: seq<string>)
    requires |parts| >= 1
    requires forall i :: 0 <= i < |parts| ==> '/' !in parts[i]
    ensures Split(Join(parts)) == parts
    decreases |parts|
  {
    if |parts| == 1 {
      SplitPiece(parts[0], []);
    } else {
      var tail := parts[1..];
      assert forall i :: 0 <= i < |tail| ==> tail[i] == parts[i + 1];
      SplitJoin(tail);
      SplitPiece(parts[0], tail);
      assert [parts[0]] + tail == parts;
    }
  }

  /** A slash-free piece in front of a slash and a join: the piece, then the join's pieces. */
  lemma {:induction false} SplitPiece(piece: string, tail: seq<string>)
    requires '/' !in piece
    requires |tail| >= 1 ==> Split(Join(tail)) == tail
    ensures |tail| == 0 ==> Split(piece) == [piece]
    ensures |tail| >= 1 ==> Split(piece + "/" + Join(tail)) == [piece] + tail
    decreases |piece|
  {
    if piece == [] {
      if |tail| >= 1 {
        assert piece + "/" + Join(tail) == "/" + Join(tail);
        assert ("/" + Join(tail))[1..] == Join(tail);
      }
    } else {
      assert '/' !in piece[1..];
      SplitPiece(piece[1..], tail);
      if |tail| >= 1 {
        var s := piece + "/" + Join(tail);
        assert s[0] == piece[0];
        assert s[1..] == piece[1..] + "/" + Join(tail);
        var rest := Split(s[1..]);
        assert rest == [piece[1..]] + tail;
        assert rest[0] == piece[1..] && rest[1..] == tail;
        assert [s[0]] + rest[0] == piece;
        assert Split(s) == [[s[0]] + rest[0]] + rest[1..];
      } else {
        assert piece == [piece[0]] + piece[1..];
      }
    }
  }

  // ---------------------------------------------------------------------------
  // The decision

  /** The pages anyone may see; '' is the root page. */
  const AllowedPaths: seq<string> := [
    "",
    "/app/home",
    "/app/livepoker",
    "/app/baccarat",
    "/app/soccer",
    "/app/tennis",
    "/app/tips",
    "/app/cricket",
    "/app/virtualsports"
  ]

  const HomePath := "/app/home"
  const RootPath := "/"

  /**
    The path the middleware checks. An absolute URL splits as scheme, '',
    host, then the path's segments: with exactly two segments the path is
    '/<first>/<second>'; otherwise it is the bare first segment, or ''.
   */
  function ExtractPath(url: string): (path: string)
    ensures |Split(url)| == 5 <==> |path| > 0 && path[0] == '/'
    ensures |Split(url)| == 5 ==> path == "/" + Split(url)[3] + "/" + Split(url)[4]
    ensures |Split(url)| != 5 ==> '/' !in path && (|Split(url)| > 3 ==> path == Split(url)[3])
    ensures |Split(url)| <= 3 ==> path == ""
  {
    var parts := Split(url);
    if |parts| == 5 then "/" + parts[3] + "/" + parts[4]
    else if |parts| > 3 then parts[3]
    else ""
  }

  datatype Decision = Next | Redirect(target: string)

  /** A token is there and verifies. */
  predicate Verified(token: Option<string>, verify: string -> bool) {
    token.Some? && verify(token.value)
  }

  /** The decision for an extracted path, in the order the middleware takes its branches. */
  function Decide(path: string, token: Option<string>, verify: string -> bool): (d: Decision)
    // a signed-in visitor on the root page is sent home, and only then
    ensures d == Redirect(HomePath) <==> path == "" && Verified(token, verify)
    // a protected page without a valid token goes back to the root
    ensures d == Redirect(RootPath) <==> path !in AllowedPaths && !Verified(token, verify)
    ensures d == Next <==>
      || (path in AllowedPaths && !(path == "" && Verified(token, verify)))
      || (path !in AllowedPaths && Verified(token, verify))
  {
    if path == "" && Verified(token, verify) then Redirect(HomePath)
    else if path !in AllowedPaths then
      if token.None? then Redirect(RootPath)
      else if verify(token.value) then
        if path == "" then Redirect(HomePath) else Next
      else Redirect(RootPath)
    else Next
  }

  /**
    The `matcher` of the middleware's config, `['/app/:path*', '/']`: the
    middleware runs only for the root and for '/app' with any segments
    below it. The URL's pathname is what follows the host.
   */
  predicate Matched(url: string) {
    var parts := Split(url);
    || |parts| <= 3
    || (|parts| == 4 && parts[3] == "")
    || parts[3] == "app"
  }

  /** A request: the decision for a matched URL, pass-through for any other. */
  function Handle(url: string, token: Option<string>, verify: string -> bool): (d: Decision)
    // an unmatched request is never redirected, whatever its token
    ensures !Matched(url) ==> d == Next
    ensures Matched(url) ==> d == Decide(ExtractPath(url), token, verify)
  {
    if Matched(url) then Decide(ExtractPath(url), token, verify) else Next
  }

  // ---------------------------------------------------------------------------
  // What the decision means for concrete URLs

  /** An absolute URL: scheme, an empty piece for '//', the host, then the path's segments. */
  function Url(scheme: string, host: string, segments: seq<string>): string {
    Join([scheme, "", host] + segments)
  }

  predicate SlashFree(pieces: seq<string>) {
    forall i :: 0 <= i < |pieces| ==> '/' !in pieces[i]
  }

  lemma UrlParts(scheme: string, host: string, segments: seq<string>)
    requires SlashFree([scheme, "", host] + segments)
    ensures Split(Url(scheme, host, segments)) == [scheme, "", host] + segments
  {
    SplitJoin([scheme, "", host] + segments);
  }

  /**
    The matcher's reach on a URL: the root, with or without its trailing
    slash, and '/app' with any segments below it; no other path.
   */
  lemma MatcherScope(scheme: string, host: string, segments: seq<string>)
    requires SlashFree([scheme, "", host] + segments)
    ensures Matched(Url(scheme, host, segments)) <==> segments == [] || segments == [""] || segments[0] == "app"
  {
    UrlParts(scheme, host, segments);
  }

  /** A two-segment page is checked as '/<first>/<second>'. */
  lemma TwoSegmentPath(scheme: string, host: string, first: string, second: string)
    requires SlashFree([scheme, "", host, first, second])
    ensures ExtractPath(Url(scheme, host, [first, second])) == "/" + first + "/" + second
  {
    assert [scheme, "", host] + [first, second] == [scheme, "", host, first, second];
    UrlParts(scheme, host, [first, second]);
  }

  /** The site root, with or without the trailing slash, is the path ''. */
  lemma RootIsEmptyPath(scheme: string, host: string)
    requires SlashFree([scheme, "", host])
    ensures ExtractPath(Url(scheme, host, [""])) == ""
    ensures ExtractPath(Url(scheme, host, [])) == ""
  {
    assert [scheme, "", host] + [""] == [scheme, "", host, ""];
    UrlParts(scheme, host, [""]);
    assert [scheme, "", host] + [] == [scheme, "", host];
    UrlParts(scheme, host, []);
  }

  /**
    A trailing slash changes the piece count: '/app/home/' is checked as
    'app', which is not an allowed page, so without a valid token it
    redirects to the root while '/app/home' goes through.
   */
  lemma TrailingSlashIsProtected(scheme: string, host: string, verify: string -> bool)
    requires SlashFree([scheme, "", host])
    ensures Handle(Url(scheme, host, ["app", "home"]), None, verify) == Next
    ensures Handle(Url(scheme, host, ["app", "home", ""]), None, verify) == Redirect(RootPath)
  {
    TwoSegmentPath(scheme, host, "app", "home");
    assert "/" + "app" + "/" + "home" == AllowedPaths[1];
    var parts := [scheme, "", host] + ["app", "home", ""];
    assert parts == [scheme, "", host, "app", "home", ""];
    UrlParts(scheme, host, ["app", "home", ""]);
    assert ExtractPath(Url(scheme, host, ["app", "home", ""])) == parts[3] == "app";
    assert "app" !in AllowedPaths;
  }

  /** A signed-in visitor at the root is sent home; an anonymous one sees the root page. */
  lemma RootDecisions(scheme: string, host: string, t: string, verify: string -> bool)
    requires SlashFree([scheme, "", host])
    ensures verify(t) ==> Handle(Url(scheme, host, []), Some(t), verify) == Redirect(HomePath)
    ensures !verify(t) ==> Handle(Url(scheme, host, []), Some(t), verify) == Next
    ensures Handle(Url(scheme, host, []), None, verify) == Next
  {
    RootIsEmptyPath(scheme, host);
    assert [scheme, "", host] + [] == [scheme, "", host];
    UrlParts(scheme, host, []);
  }

  /**
    A two-segment page off the list needs a token that verifies when it
    lies under '/app'; a page anywhere else is outside the matcher and
    passes whatever the token.
   */
  lemma ProtectedPage(scheme: string, host: string, first: string, second: string, token: Option<string>, verify: string -> bool)
    requires SlashFree([scheme, "", host, first, second])
    requires "/" + first + "/" + second !in AllowedPaths
    ensures Handle(Url(scheme, host, [first, second]), token, verify) ==
      if first != "app" || Verified(token, verify) then Next else Redirect(RootPath)
  {
    TwoSegmentPath(scheme, host, first, second);
    assert [scheme, "", host] + [first, second] == [scheme, "", host, first, second];
    UrlParts(scheme, host, [first, second]);
  }

  /** Outside the matcher nothing is checked: '/api/checkout' without a token goes through. */
  lemma UnmatchedPassesThrough(scheme: string, host: string, verify: string -> bool)
    requires SlashFree([scheme, "", host])
    ensures Handle(Url(scheme, host, ["api", "checkout"]), None, verify) == Next
  {
    assert [scheme, "", host] + ["api", "checkout"] == [scheme, "", host, "api", "checkout"];
    UrlParts(scheme, host, ["api", "checkout"]);
  }
}
