/**
  The ingestion orchestrator behind POST /ingest_product: up to
  `retry_attempts` attempts against the pricing API with a doubling delay
  between them, degrading to the fallback catalog when the last attempt
  fails. The network is replaced by `outcomeAt(k)`, what attempt `k`
  delivers; the product store (CSV file) and the id-counter file are an
  in-memory `Store`; sleeps are recorded rather than performed.
 */
module Ingest {
  import opened Common
  import Signals
  import Settings
  import Pricing

  /**
    A search result's `min_price`: absent (read as 0), a finite number, or
    something `float()` rejects or a non-finite value, which `int()` then
    rejects before the row is written.
   */
  datatype PriceField = Absent | Number(value: real) | Malformed

  /** One entry of `search_results`; an empty `id` stands for a missing or falsy id. */
  datatype SearchItem = SearchItem(
    name: Option<string>,
    minPrice: PriceField,
    imgUrl: Option<string>,
    url: Option<string>,
    id: string
  )

  /** Every way an attempt can fail before any row is written; all are handled alike. */
  datatype Failure = RequestRejected | NoJobId | PollTimedOut | NoResults | NetworkError | UnexpectedError

  /** What one attempt delivers: a failure, or the first result's `search_results`. */
  datatype Attempt = Failed(failure: Failure) | Delivered(items: seq<SearchItem>)

  datatype RowId = ApiId(key: string) | LocalId(n: int)

  /** A row's product link: the API's, or the generated `https://example.com/product/{id}`. */
  datatype Link = Given(href: string) | ProductPage(id: int)

  /** One row of the product store, in the CSV's column order (the timestamp is not modelled). */
  datatype Row = Row(
    category: string,
    disc: int,
    id: RowId,
    name: string,
    competitorPrice: real,
    ourPrice: real,
    inventory: int,
    demandScore: real,
    imgUrl: string,
    url: Link
  )

  /** The product store's rows and the persisted id counter (initially 1). */
  datatype Store = Store(rows: seq<Row>, nextId: int)

  const InitialStore := Store([], 1)

  /** get_next_id: hands out the counter's value and advances it. */
  function GetNextId(s: Store): (r: (int, Store))
    ensures r.0 == s.nextId && r.1.nextId == s.nextId + 1
    ensures r.1.rows == s.rows
  {
    (s.nextId, s.(nextId := s.nextId + 1))
  }

  /** Locally numbered rows carry increasing ids, all below the counter. */
  ghost predicate WellNumbered(s: Store) {
    && (forall i :: 0 <= i < |s.rows| && s.rows[i].id.LocalId? ==> s.rows[i].id.n < s.nextId)
    && (forall i, j :: 0 <= i < j < |s.rows| && s.rows[i].id.LocalId? && s.rows[j].id.LocalId? ==>
          s.rows[i].id.n < s.rows[j].id.n)
  }

  /** What every freshly ingested row looks like. */
  ghost predicate FreshRow(r: Row, productName: string) {
    && r.category == productName
    && r.ourPrice == r.competitorPrice
    && r.disc >= 0
    && 1 <= r.inventory <= 500
    && 0.1 <= r.demandScore <= 3.0
  }

  /** `before` is extended, never rewritten: rows are only appended. */
  ghost predicate Extends(after: Store, before: Store) {
    && |before.rows| <= |after.rows|
    && (forall i :: 0 <= i < |before.rows| ==> after.rows[i] == before.rows[i])
    && before.nextId <= after.nextId
  }

  ghost predicate AllFresh(s: Store, from: nat, productName: string) {
    forall i :: from <= i < |s.rows| ==> FreshRow(s.rows[i], productName)
  }

  lemma AppendNumbered(s: Store, row: Row)
    requires WellNumbered(s)
    requires row.id.LocalId? ==> row.id.n == s.nextId
    ensures WellNumbered(Store(s.rows + [row], s.nextId + (if row.id.LocalId? then 1 else 0)))
  {
  }

  // ---------------------------------------------------------------------------
  // Fallback data

  datatype CatalogEntry = CatalogEntry(name: string, price: int, imgUrl: string)

  /** A capitalised known category selects the same table entry. */
  lemma CatalogIgnoresCase()
    ensures Catalog("Phone") == FallbackProducts["phone"]
  {
    var l := AsciiLower("Phone");
    assert l[0] == 'p' && l[1..] == "hone";
    assert l == "phone";
  }

  /** A name outside the table gets the placeholders. */
  lemma CatalogPlaceholderExample()
    ensures Catalog("tablet") == Placeholders("tablet")
  {
    var l := AsciiLower("tablet");
    assert l[0] == 't' && l[1..] == "ablet";
    assert l == "tablet";
    FallbackProductsWellFormed();
    assert l !in FallbackProducts;
  }

  /** The sample products of the five known categories, keyed by lower-cased name. */
  const FallbackProducts: map<string, seq<CatalogEntry>> := map[
    "phone" := [
      CatalogEntry("Sample iPhone 14", 52000, "https://example.com/iphone.jpg"),
      CatalogEntry("Sample Samsung Galaxy", 25000, "https://example.com/samsung.jpg"),
      CatalogEntry("Sample OnePlus", 35000, "https://example.com/oneplus.jpg")],
    "laptop" := [
      CatalogEntry("Sample MacBook Pro", 120000, "https://example.com/macbook.jpg"),
      CatalogEntry("Sample Dell XPS", 80000, "https://example.com/dell.jpg"),
      CatalogEntry("Sample HP Pavilion", 45000, "https://example.com/hp.jpg")],
    "headphones" := [
      CatalogEntry("Sample Sony WH-1000XM4", 25000, "https://example.com/sony.jpg"),
      CatalogEntry("Sample Bose QuietComfort", 28000, "https://example.com/bose.jpg"),
      CatalogEntry("Sample Apple AirPods", 18000, "https://example.com/airpods.jpg")],
    "speakers" := [
      CatalogEntry("Sample JBL Charge", 8000, "https://example.com/jbl.jpg"),
      CatalogEntry("Sample Bose SoundLink", 12000, "https://example.com/bosespeaker.jpg"),
      CatalogEntry("Sample Sony SRS", 6000, "https://example.com/sonyspeaker.jpg")],
    "smart watches" := [
      CatalogEntry("Sample Apple Watch", 35000, "https://example.com/applewatch.jpg"),
      CatalogEntry("Sample Samsung Galaxy Watch", 25000, "https://example.com/samsungwatch.jpg"),
      CatalogEntry("Sample Fitbit Versa", 15000, "https://example.com/fitbit.jpg")]
  ]

  /** Every known category offers three products, each with a positive price. */
  lemma FallbackProductsWellFormed()
    ensures FallbackProducts.Keys == {"phone", "laptop", "headphones", "speakers", "smart watches"}
    ensures forall key :: key in FallbackProducts ==>
      |FallbackProducts[key]| == 3 && forall i :: 0 <= i < 3 ==> FallbackProducts[key][i].price > 0
  {
  }

  /** The three placeholders offered for a name outside the table; they carry the name as given. */
  function Placeholders(productName: string): (c: seq<CatalogEntry>)
    ensures |c| == 3
    ensures forall i :: 0 <= i < 3 ==>
      && c[i].name == "Sample " + productName + " Product " + ["123"[i]]
      && c[i].imgUrl == "https://example.com/product" + ["123"[i]] + ".jpg"
    ensures c[0].price == 20000 && c[1].price == 15000 && c[2].price == 30000
  {
    [CatalogEntry("Sample " + productName + " Product 1", 20000, "https://example.com/product1.jpg"),
     CatalogEntry("Sample " + productName + " Product 2", 15000, "https://example.com/product2.jpg"),
     CatalogEntry("Sample " + productName + " Product 3", 30000, "https://example.com/product3.jpg")]
  }

  /** `fallback_products.get(product_name.lower(), placeholders)`. */
  function Catalog(productName: string): (c: seq<CatalogEntry>)
    ensures AsciiLower(productName) in FallbackProducts ==> c == FallbackProducts[AsciiLower(productName)]
    ensures AsciiLower(productName) !in FallbackProducts ==> c == Placeholders(productName)
    ensures |c| == 3
    ensures forall i :: 0 <= i < |c| ==> c[i].price > 0
  {
    FallbackProductsWellFormed();
    var key := AsciiLower(productName);
    if key in FallbackProducts then FallbackProducts[key] else Placeholders(productName)
  }

  function FallbackRow(productName: string, idx: nat, e: CatalogEntry, id: int, env: Signals.Env): Row {
    var price := e.price as real;
    Row(productName, idx, LocalId(id), e.name, price, price,
        Signals.InventoryFor(price, productName, env),
        Signals.DemandFor(price, productName, idx, env),
        e.imgUrl, ProductPage(id))
  }

  /** Appends the catalog entries from `idx` on, each with a fresh counter id. */
  function AppendFallback(productName: string, entries: seq<CatalogEntry>, idx: nat, s: Store, env: Signals.Env): (r: Store)
    requires idx <= |entries|
    requires forall i :: 0 <= i < |entries| ==> entries[i].price > 0
    decreases |entries| - idx
    ensures Extends(r, s)
    ensures |r.rows| == |s.rows| + |entries| - idx
    ensures r.nextId == s.nextId + |entries| - idx
    ensures forall i :: |s.rows| <= i < |r.rows| ==>
      var k := idx + i - |s.rows|;
      && FreshRow(r.rows[i], productName)
      && r.rows[i].disc == k
      && r.rows[i].id == LocalId(s.nextId + i - |s.rows|)
      && r.rows[i].name == entries[k].name
      && r.rows[i].competitorPrice == entries[k].price as real > 0.0
      && r.rows[i].imgUrl == entries[k].imgUrl
      && r.rows[i].url == ProductPage(s.nextId + i - |s.rows|)
    ensures WellNumbered(s) ==> WellNumbered(r)
  {
    if idx == |entries| then s
    else
      var (id, s1) := GetNextId(s);
      var row := FallbackRow(productName, idx, entries[idx], id, env);
      var s2 := s1.(rows := s1.rows + [row]);
      assert WellNumbered(s) ==> WellNumbered(s2) by {
        if WellNumbered(s) { AppendNumbered(s, row); }
      }
      AppendFallback(productName, entries, idx + 1, s2, env)
  }

  datatype Source = Api | Fallback

  /** The success-shaped body every ingestion returns. */
  datatype Response = Response(status: string, productsAdded: nat, source: Source, message: Option<string>)

  const FallbackMessage := "Used fallback data due to API unavailability"

  datatype Generated = Generated(response: Response, store: Store)

  /** The body generate_fallback_data returns: one product per catalog entry. */
  function FallbackResponse(productName: string): (r: Response)
    ensures r == Response("success", 3, Fallback, Some(FallbackMessage))
  {
    Response("success", |Catalog(productName)|, Fallback, Some(FallbackMessage))
  }

  /** The last three rows are the fallback catalog's, in order, numbered up to the counter. */
  ghost predicate FallbackTail(t: Store, productName: string) {
    |t.rows| >= 3 && forall i :: 0 <= i < 3 ==> CatalogRowAt(t, productName, i)
  }

  /** The `i`-th of the last three rows is catalog entry `i`, under counter id `nextId - 3 + i`. */
  ghost predicate CatalogRowAt(t: Store, productName: string, i: nat)
    requires 3 <= |t.rows| && i < 3
  {
    var row := t.rows[|t.rows| - 3 + i];
    var e := Catalog(productName)[i];
    && FreshRow(row, productName)
    && row.disc == i
    && row.name == e.name
    && row.competitorPrice == e.price as real
    && row.imgUrl == e.imgUrl
    && row.id == LocalId(t.nextId - 3 + i)
    && row.url == ProductPage(t.nextId - 3 + i)
  }

  /** generate_fallback_data: three catalog rows, numbered from the counter. Never fails. */
  function GenerateFallback(productName: string, s: Store, env: Signals.Env): (g: Generated)
    ensures g.response == Response("success", 3, Fallback, Some(FallbackMessage))
    ensures Extends(g.store, s)
    ensures |g.store.rows| == |s.rows| + 3 && g.store.nextId == s.nextId + 3
    ensures forall i :: |s.rows| <= i < |g.store.rows| ==>
      && FreshRow(g.store.rows[i], productName)
      && g.store.rows[i].disc == i - |s.rows|
      && g.store.rows[i].id == LocalId(s.nextId + i - |s.rows|)
      && g.store.rows[i].competitorPrice > 0.0
    ensures WellNumbered(s) ==> WellNumbered(g.store)
  {
    var s' := AppendFallback(productName, Catalog(productName), 0, s, env);
    Generated(FallbackResponse(productName), s')
  }

  /** The fallback leaves the three catalog rows last, numbered up to the counter. */
  lemma FallbackLeavesCatalogTail(productName: string, s: Store, env: Signals.Env)
    ensures FallbackTail(GenerateFallback(productName, s, env).store, productName)
  {
    var entries := Catalog(productName);
    var t := AppendFallback(productName, entries, 0, s, env);
    assert GenerateFallback(productName, s, env).store == t;
    forall i | 0 <= i < 3
      ensures CatalogRowAt(t, productName, i)
    {
      var j := |s.rows| + i;
      assert |t.rows| - 3 + i == j && j - |s.rows| == i;
      assert t.rows[j].id == LocalId(s.nextId + i) && t.nextId - 3 + i == s.nextId + i;
    }
  }

  // ---------------------------------------------------------------------------
  // Writing search results

  /** `float(prod.get("min_price", 0))`, `None` where it raises. */
  function ParsePrice(p: PriceField): (r: Option<real>)
    ensures r.None? <==> p.Malformed?
    ensures p.Absent? ==> r == Some(0.0)
    ensures p.Number? ==> r == Some(p.value)
  {
    match p
    case Absent => Some(0.0)
    case Number(v) => Some(v)
    case Malformed => None
  }

  /**
    `row` is the row written for search result `item` at position
    `position`: the result's name or 'Unknown <product>', its parsed price as
    both prices, its image and link or '', and its own id when it has one,
    otherwise a counter id.
   */
  ghost predicate RowFor(row: Row, productName: string, position: nat, item: SearchItem) {
    && FreshRow(row, productName)
    && row.disc == position
    && row.name == item.name.GetOr("Unknown " + productName)
    && ParsePrice(item.minPrice) == Some(row.competitorPrice)
    && row.imgUrl == item.imgUrl.GetOr("")
    && row.url == Given(item.url.GetOr(""))
    && (if item.id != "" then row.id == ApiId(item.id) else row.id.LocalId?)
  }

  /** The row for a search result whose price parsed to `price`, under the id it was given. */
  function ItemRow(productName: string, position: nat, item: SearchItem, price: real, id: RowId, env: Signals.Env): (r: Row)
    ensures FreshRow(r, productName) && r.disc == position && r.id == id && r.competitorPrice == price
    ensures ParsePrice(item.minPrice) == Some(price) && (if item.id != "" then id == ApiId(item.id) else id.LocalId?) ==>
      RowFor(r, productName, position, item)
  {
    Row(productName, position, id, item.name.GetOr("Unknown " + productName), price, price,
        Signals.InventoryFor(price, productName, env),
        Signals.DemandFor(price, productName, position, env),
        item.imgUrl.GetOr(""), Given(item.url.GetOr("")))
  }

  /** The position of the first item from `from` on whose price `float()` rejects, or `|items|`. */
  function FirstMalformed(items: seq<SearchItem>, from: nat): (k: nat)
    requires from <= |items|
    decreases |items| - from
    ensures from <= k <= |items|
    ensures forall i :: from <= i < k ==> !items[i].minPrice.Malformed?
    ensures k < |items| ==> items[k].minPrice.Malformed?
  {
    if from == |items| || items[from].minPrice.Malformed? then from else FirstMalformed(items, from + 1)
  }

  /** `rows` are, in order, the rows for the search results from `items[position]` on. */
  ghost predicate RowsFor(rows: seq<Row>, productName: string, items: seq<SearchItem>, position: nat)
    decreases |rows|
  {
    rows == [] ||
      (&& position < |items|
       && RowFor(rows[0], productName, position, items[position])
       && RowsFor(rows[1..], productName, items, position + 1))
  }

  /** The `k`-th row of a `RowsFor` run is the row for result `position + k`. */
  lemma {:induction false} RowsForAt(rows: seq<Row>, productName: string, items: seq<SearchItem>, position: nat, k: nat)
    requires RowsFor(rows, productName, items, position) && k < |rows|
    ensures position + k < |items| && RowFor(rows[k], productName, position + k, items[position + k])
    decreases k
  {
    if k > 0 {
      RowsForAt(rows[1..], productName, items, position + 1, k - 1);
    }
  }

  /** The counter ids among `rows` are, in order, `from`, `from + 1`, ..., `to - 1`. */
  ghost predicate Consecutive(rows: seq<Row>, from: int, to: int)
    decreases |rows|
  {
    if rows == [] then from == to
    else if rows[0].id.LocalId? then rows[0].id.n == from && Consecutive(rows[1..], from + 1, to)
    else Consecutive(rows[1..], from, to)
  }

  /** Whether `float(min_price)` succeeds on every item. */
  predicate AllPricesParse(items: seq<SearchItem>, from: nat) {
    forall i :: from <= i < |items| ==> !items[i].minPrice.Malformed?
  }

  /** An attempt that gets through to appending all of its rows. */
  predicate Succeeds(a: Attempt)
    ensures Succeeds(a) <==>
      a.Delivered? && |a.items| > 0 && forall i :: 0 <= i < |a.items| ==> ParsePrice(a.items[i].minPrice).Some?
  {
    a.Delivered? && |a.items| > 0 && AllPricesParse(a.items, 0)
  }

  /**
    The outcome of the append loop. `Raised` is the exception a malformed
    price throws mid-loop: the rows already written stay in the store.
   */
  datatype Written = Completed(store: Store) | Raised(store: Store)

  /**
    Appends the rows for `items[position..]`; `disc` is each item's position.
    The loop stops at the first malformed price, so exactly the rows before
    it are written.
   */
  function WriteItems(productName: string, items: seq<SearchItem>, position: nat, s: Store, env: Signals.Env): (w: Written)
    requires position <= |items|
    decreases |items| - position
    ensures Extends(w.store, s)
    ensures w.Completed? <==> AllPricesParse(items, position)
    ensures |w.store.rows| == |s.rows| + FirstMalformed(items, position) - position
    ensures forall i :: |s.rows| <= i < |w.store.rows| ==>
      FreshRow(w.store.rows[i], productName) && w.store.rows[i].disc == position + i - |s.rows|
    ensures WellNumbered(s) ==> WellNumbered(w.store)
  {
    if position == |items| then Completed(s)
    else
      var item := items[position];
      match ParsePrice(item.minPrice)
      case None =>
        assert FirstMalformed(items, position) == position;
        Raised(s)
      case Some(price) =>
        var s2 := AppendItem(productName, position, item, price, s, env);
        var w := WriteItems(productName, items, position + 1, s2, env);
        assert FirstMalformed(items, position) == FirstMalformed(items, position + 1);
        assert AllPricesParse(items, position) == AllPricesParse(items, position + 1);
        assert Extends(w.store, s) by {
          ExtendsTrans(w.store, s2, s);
        }
        assert forall i :: |s.rows| <= i < |w.store.rows| ==>
                 FreshRow(w.store.rows[i], productName) && w.store.rows[i].disc == position + i - |s.rows| by {
          assert w.store.rows[|s.rows|] == s2.rows[|s.rows|];
        }
        w
  }

  /** Each written row is the row for the search result at its position, in order. */
  lemma {:induction false} WriteItemsRows(productName: string, items: seq<SearchItem>, position: nat, s: Store, env: Signals.Env)
    requires position <= |items|
    decreases |items| - position
    ensures var w := WriteItems(productName, items, position, s, env);
            RowsFor(w.store.rows[|s.rows|..], productName, items, position)
  {
    var w := WriteItems(productName, items, position, s, env);
    if position < |items| && ParsePrice(items[position].minPrice).Some? {
      var item := items[position];
      var s2 := AppendItem(productName, position, item, ParsePrice(item.minPrice).value, s, env);
      assert w == WriteItems(productName, items, position + 1, s2, env);
      WriteItemsRows(productName, items, position + 1, s2, env);
      var tail := w.store.rows[|s.rows|..];
      assert tail[0] == s2.rows[|s.rows|];
      assert tail[1..] == w.store.rows[|s2.rows|..];
    } else {
      assert w.store == s;
      assert w.store.rows[|s.rows|..] == [];
    }
  }

  /** Putting one row in front of a consecutive run. */
  lemma ConsecutiveCons(row: Row, rest: seq<Row>, from: int, mid: int, to: int)
    requires if row.id.LocalId? then row.id.n == from && mid == from + 1 else mid == from
    requires Consecutive(rest, mid, to)
    ensures Consecutive([row] + rest, from, to)
  {
    assert ([row] + rest)[1..] == rest;
  }

  /** The written rows take counter ids in order, and the counter ends just past the last one. */
  lemma {:induction false} WriteItemsCounter(productName: string, items: seq<SearchItem>, position: nat, s: Store, env: Signals.Env)
    requires position <= |items|
    decreases |items| - position
    ensures var w := WriteItems(productName, items, position, s, env);
            Consecutive(w.store.rows[|s.rows|..], s.nextId, w.store.nextId)
  {
    var w := WriteItems(productName, items, position, s, env);
    if position < |items| && ParsePrice(items[position].minPrice).Some? {
      var item := items[position];
      var s2 := AppendItem(productName, position, item, ParsePrice(item.minPrice).value, s, env);
      assert w == WriteItems(productName, items, position + 1, s2, env);
      WriteItemsCounter(productName, items, position + 1, s2, env);
      assert w.store.rows[|s.rows|..] == [s2.rows[|s.rows|]] + w.store.rows[|s2.rows|..];
      ConsecutiveCons(s2.rows[|s.rows|], w.store.rows[|s2.rows|..], s.nextId, s2.nextId, w.store.nextId);
    } else {
      assert w.store == s;
      assert s.rows[|s.rows|..] == [];
    }
  }

  /** One row for a search result: the result's own id when it has one, else the counter's. */
  function AppendItem(productName: string, position: nat, item: SearchItem, price: real, s: Store, env: Signals.Env): (s2: Store)
    ensures Extends(s2, s) && |s2.rows| == |s.rows| + 1
    ensures FreshRow(s2.rows[|s.rows|], productName) && s2.rows[|s.rows|].disc == position
    ensures s2.rows[|s.rows|].competitorPrice == price
    ensures item.id != "" ==> s2.rows[|s.rows|].id == ApiId(item.id) && s2.nextId == s.nextId
    ensures item.id == "" ==> s2.rows[|s.rows|].id == LocalId(s.nextId) && s2.nextId == s.nextId + 1
    ensures ParsePrice(item.minPrice) == Some(price) ==> RowFor(s2.rows[|s.rows|], productName, position, item)
    ensures WellNumbered(s) ==> WellNumbered(s2)
  {
    var (id, s1) := if item.id != "" then (ApiId(item.id), s)
                    else var (n, s') := GetNextId(s); (LocalId(n), s');
    var row := ItemRow(productName, position, item, price, id, env);
    assert WellNumbered(s) ==> WellNumbered(s1.(rows := s1.rows + [row])) by {
      if WellNumbered(s) { AppendNumbered(s, row); }
    }
    s1.(rows := s1.rows + [row])
  }

  /** One pass of the retry loop's body, from the job submission to the append. */
  function TryAttempt(productName: string, a: Attempt, s: Store, env: Signals.Env): (w: Written)
    ensures Extends(w.store, s)
    ensures w.Completed? <==> Succeeds(a)
    ensures w.Completed? ==> |w.store.rows| == |s.rows| + |a.items|
    ensures a.Delivered? && |a.items| > 0 ==> |w.store.rows| == |s.rows| + FirstMalformed(a.items, 0)
    ensures !(a.Delivered? && |a.items| > 0) ==> w.store == s
    ensures forall i :: |s.rows| <= i < |w.store.rows| ==> FreshRow(w.store.rows[i], productName)
    ensures WellNumbered(s) ==> WellNumbered(w.store)
  {
    match a
    case Failed(_) => Raised(s)
    case Delivered(items) =>
      if |items| == 0 then Raised(s) else WriteItems(productName, items, 0, s, env)
  }

  // ---------------------------------------------------------------------------
  // The retry loop

  function Pow2(i: nat): (p: real)
    ensures p >= 1.0
  {
    if i == 0 then 1.0 else 2.0 * Pow2(i - 1)
  }

  /** The `i`-th sleep of a backoff that starts at `delay` and doubles after every sleep. */
  function Backoff(delay: real, i: nat): real
    decreases i
  {
    if i == 0 then delay else Backoff(delay * 2.0, i - 1)
  }

  /** The `i`-th sleep is `delay * 2^i`. */
  lemma {:induction false} BackoffIsExponential(delay: real, i: nat)
    ensures Backoff(delay, i) == delay * Pow2(i)
    decreases i
  {
    if i > 0 {
      BackoffIsExponential(delay * 2.0, i - 1);
      assert (delay * 2.0) * Pow2(i - 1) == delay * (2.0 * Pow2(i - 1));
    }
  }

  /**
    The response, the store afterwards, the sleeps taken between attempts,
    and how many attempts were made.
   */
  datatype Run = Run(response: Response, store: Store, sleeps: seq<real>, attempts: nat)

  lemma ExtendsTrans(c: Store, b: Store, a: Store)
    requires Extends(c, b) && Extends(b, a)
    ensures Extends(c, a)
  {
  }

  lemma AllFreshExtends(a: Store, b: Store, c: Store, from: nat, productName: string)
    requires Extends(b, a) && Extends(c, b) && from <= |a.rows|
    requires AllFresh(b, from, productName)
    requires forall i :: |b.rows| <= i < |c.rows| ==> FreshRow(c.rows[i], productName)
    ensures AllFresh(c, from, productName)
  {
    forall i | from <= i < |c.rows|
      ensures FreshRow(c.rows[i], productName)
    {
      if i < |b.rows| {
        assert c.rows[i] == b.rows[i];
      }
    }
  }

  /**
    The control flow of attempts `k`, `k + 1`, ... of `n`, the current delay
    being `delay`: which attempt ends the run, and the sleeps before it. The
    first attempt that gets through ends the run with source 'api'; a failure
    on any attempt but the last sleeps `delay` and doubles it; a failure on
    the last attempt, or no attempt at all, ends in the fallback. Whether an
    attempt gets through depends on what it delivers, not on the store.
   */
  datatype Schedule = Schedule(source: Source, sleeps: seq<real>, attempts: nat)

  function ScheduleFrom(n: int, k: nat, delay: real, outcomeAt: nat -> Attempt): (p: Schedule)
    decreases if k < n then n - k else 0
    ensures k <= p.attempts <= MaxI(n, k)
    ensures |p.sleeps| == (if p.attempts > k then p.attempts - k - 1 else 0)
    ensures forall i :: 0 <= i < |p.sleeps| ==> p.sleeps[i] == Backoff(delay, i)
    ensures p.source == Api ==>
      && k < p.attempts
      && Succeeds(outcomeAt(p.attempts - 1))
      && (forall j :: k <= j < p.attempts - 1 ==> !Succeeds(outcomeAt(j)))
    ensures p.source == Fallback ==>
      && (forall j :: k <= j < n ==> !Succeeds(outcomeAt(j)))
      && p.attempts == MaxI(n, k)
  {
    if k >= n then Schedule(Fallback, [], k)
    else if Succeeds(outcomeAt(k)) then Schedule(Api, [], k + 1)
    else if k < n - 1 then
      var rest := ScheduleFrom(n, k + 1, delay * 2.0, outcomeAt);
      SleepsDouble(delay, rest.sleeps);
      rest.(sleeps := [delay] + rest.sleeps)
    else Schedule(Fallback, [], k + 1)
  }

  /**
    The store after attempts `k`, `k + 1`, ... of `n`: each failed attempt
    leaves what it appended before raising, the successful one leaves all
    its rows, and the fallback appends its three.
   */
  function StoreFrom(productName: string, n: int, k: nat, outcomeAt: nat -> Attempt, s: Store, env: Signals.Env): (t: Store)
    decreases if k < n then n - k else 0
    ensures Extends(t, s)
  {
    if k >= n then GenerateFallback(productName, s, env).store
    else
      var w := TryAttempt(productName, outcomeAt(k), s, env);
      if w.Completed? then w.store
      else if k < n - 1 then
        var t := StoreFrom(productName, n, k + 1, outcomeAt, w.store, env);
        ExtendsTrans(t, w.store, s);
        t
      else
        var t := GenerateFallback(productName, w.store, env).store;
        ExtendsTrans(t, w.store, s);
        t
  }

  /** The retry loop from attempt `k` on: its schedule, its response and its store. */
  function RunFrom(productName: string, n: int, k: nat, delay: real, outcomeAt: nat -> Attempt, s: Store, env: Signals.Env): (r: Run)
    ensures k <= r.attempts <= MaxI(n, k)
    ensures |r.sleeps| == (if r.attempts > k then r.attempts - k - 1 else 0)
    ensures forall i :: 0 <= i < |r.sleeps| ==> r.sleeps[i] == Backoff(delay, i)
    ensures r.response.status == "success"
    ensures r.response.source == Api ==>
      && k < r.attempts
      && Succeeds(outcomeAt(r.attempts - 1))
      && (forall j :: k <= j < r.attempts - 1 ==> !Succeeds(outcomeAt(j)))
      && r.response.productsAdded == |outcomeAt(r.attempts - 1).items|
      && r.response.message.None?
    ensures r.response.source == Fallback ==>
      && (forall j :: k <= j < n ==> !Succeeds(outcomeAt(j)))
      && r.attempts == MaxI(n, k)
      && r.response == Response("success", 3, Fallback, Some(FallbackMessage))
  {
    var p := ScheduleFrom(n, k, delay, outcomeAt);
    var response := match p.source
      case Api => Response("success", |outcomeAt(p.attempts - 1).items|, Api, None)
      case Fallback => FallbackResponse(productName);
    Run(response, StoreFrom(productName, n, k, outcomeAt, s, env), p.sleeps, p.attempts)
  }

  /** Every row the retry loop appends is a fresh row for the product. */
  lemma {:induction false} StoreFromFresh(productName: string, n: int, k: nat, outcomeAt: nat -> Attempt, s: Store, env: Signals.Env)
    decreases if k < n then n - k else 0
    ensures AllFresh(StoreFrom(productName, n, k, outcomeAt, s, env), |s.rows|, productName)
  {
    if k < n {
      var w := TryAttempt(productName, outcomeAt(k), s, env);
      if !w.Completed? && k < n - 1 {
        var t := StoreFrom(productName, n, k + 1, outcomeAt, w.store, env);
        StoreFromFresh(productName, n, k + 1, outcomeAt, w.store, env);
        AllFreshExtends(s, w.store, t, |s.rows|, productName);
      } else if !w.Completed? {
        AllFreshExtends(s, w.store, GenerateFallback(productName, w.store, env).store, |s.rows|, productName);
      }
    }
  }

  /** The retry loop keeps locally numbered ids increasing and below the counter. */
  lemma {:induction false} StoreFromNumbered(productName: string, n: int, k: nat, outcomeAt: nat -> Attempt, s: Store, env: Signals.Env)
    requires WellNumbered(s)
    decreases if k < n then n - k else 0
    ensures WellNumbered(StoreFrom(productName, n, k, outcomeAt, s, env))
  {
    if k < n {
      var w := TryAttempt(productName, outcomeAt(k), s, env);
      if !w.Completed? && k < n - 1 {
        StoreFromNumbered(productName, n, k + 1, outcomeAt, w.store, env);
      }
    }
  }

  /** The last `|items|` rows are the results of the attempt that got through, in order. */
  ghost predicate ApiTail(t: Store, productName: string, items: seq<SearchItem>) {
    |t.rows| >= |items| && RowsFor(t.rows[|t.rows| - |items|..], productName, items, 0)
  }

  /** When attempt `j` is the first to get through, the run ends with its rows. */
  lemma {:induction false} StoreFromApiTail(productName: string, n: int, k: nat, j: nat, outcomeAt: nat -> Attempt, s: Store, env: Signals.Env)
    requires k <= j < n && Succeeds(outcomeAt(j))
    requires forall i :: k <= i < j ==> !Succeeds(outcomeAt(i))
    decreases j - k
    ensures ApiTail(StoreFrom(productName, n, k, outcomeAt, s, env), productName, outcomeAt(j).items)
    ensures |StoreFrom(productName, n, k, outcomeAt, s, env).rows| >= |s.rows| + |outcomeAt(j).items|
  {
    var a := outcomeAt(k);
    var w := TryAttempt(productName, a, s, env);
    if k == j {
      assert StoreFrom(productName, n, k, outcomeAt, s, env) == w.store;
      WriteItemsRows(productName, a.items, 0, s, env);
      assert w.store.rows[|w.store.rows| - |a.items|..] == w.store.rows[|s.rows|..];
    } else {
      assert StoreFrom(productName, n, k, outcomeAt, s, env) == StoreFrom(productName, n, k + 1, outcomeAt, w.store, env);
      StoreFromApiTail(productName, n, k + 1, j, outcomeAt, w.store, env);
    }
  }

  /** When no attempt from `k` on gets through, the run ends with the three fallback rows. */
  lemma {:induction false} StoreFromFallbackTail(productName: string, n: int, k: nat, outcomeAt: nat -> Attempt, s: Store, env: Signals.Env)
    requires forall i :: k <= i < n ==> !Succeeds(outcomeAt(i))
    decreases if k < n then n - k else 0
    ensures FallbackTail(StoreFrom(productName, n, k, outcomeAt, s, env), productName)
  {
    if k >= n {
      FallbackLeavesCatalogTail(productName, s, env);
    } else {
      var w := TryAttempt(productName, outcomeAt(k), s, env);
      if k < n - 1 {
        StoreFromFallbackTail(productName, n, k + 1, outcomeAt, w.store, env);
      } else {
        FallbackLeavesCatalogTail(productName, w.store, env);
      }
    }
  }

  lemma SleepsDouble(delay: real, rest: seq<real>)
    requires forall i :: 0 <= i < |rest| ==> rest[i] == Backoff(delay * 2.0, i)
    ensures forall i :: 0 <= i < |rest| + 1 ==> ([delay] + rest)[i] == Backoff(delay, i)
  {
    forall i | 0 <= i < |rest| + 1
      ensures ([delay] + rest)[i] == Backoff(delay, i)
    {
      if i > 0 {
        assert ([delay] + rest)[i] == rest[i - 1];
      }
    }
  }

  /** What a whole run leaves in the store, read against its schedule. */
  lemma RunStore(productName: string, n: int, delay: real, outcomeAt: nat -> Attempt, s: Store, env: Signals.Env)
    ensures var p := ScheduleFrom(n, 0, delay, outcomeAt);
            var t := StoreFrom(productName, n, 0, outcomeAt, s, env);
            && (p.source == Api ==>
                  ApiTail(t, productName, outcomeAt(p.attempts - 1).items)
                  && |t.rows| >= |s.rows| + |outcomeAt(p.attempts - 1).items|)
            && (p.source == Fallback ==> FallbackTail(t, productName))
            && AllFresh(t, |s.rows|, productName)
            && (WellNumbered(s) ==> WellNumbered(t))
  {
    var p := ScheduleFrom(n, 0, delay, outcomeAt);
    if p.source == Api {
      StoreFromApiTail(productName, n, 0, p.attempts - 1, outcomeAt, s, env);
    } else {
      StoreFromFallbackTail(productName, n, 0, outcomeAt, s, env);
    }
    StoreFromFresh(productName, n, 0, outcomeAt, s, env);
    if WellNumbered(s) {
      StoreFromNumbered(productName, n, 0, outcomeAt, s, env);
    }
  }

  /** POST /ingest_product with the configured attempt count and initial delay. */
  function IngestProduct(productName: string, config: Settings.Config, outcomeAt: nat -> Attempt, s: Store, env: Signals.Env): (r: Run)
    ensures r.attempts <= MaxI(config.retryAttempts, 0)
    ensures |r.sleeps| == MaxI(r.attempts - 1, 0)
    ensures forall i :: 0 <= i < |r.sleeps| ==> r.sleeps[i] == Backoff(config.retryDelaySeconds, i)
    ensures r.response.status == "success"
    // the first attempt that gets through is the one reported
    ensures r.response.source == Api ==>
      && 0 < r.attempts
      && Succeeds(outcomeAt(r.attempts - 1))
      && (forall j :: 0 <= j < r.attempts - 1 ==> !Succeeds(outcomeAt(j)))
      && r.response.productsAdded == |outcomeAt(r.attempts - 1).items|
    // otherwise every attempt failed, and the fallback answered
    ensures r.response.source == Fallback ==>
      && (forall j :: 0 <= j < config.retryAttempts ==> !Succeeds(outcomeAt(j)))
      && r.response == Response("success", 3, Fallback, Some(FallbackMessage))
    // the rows it leaves last: the reported attempt's, or the catalog's
    ensures r.response.source == Api ==>
      ApiTail(r.store, productName, outcomeAt(r.attempts - 1).items) && |r.store.rows| >= |s.rows| + r.response.productsAdded
    ensures r.response.source == Fallback ==> FallbackTail(r.store, productName)
    ensures Extends(r.store, s)
    ensures AllFresh(r.store, |s.rows|, productName)
    ensures WellNumbered(s) ==> WellNumbered(r.store)
  {
    RunStore(productName, config.retryAttempts, config.retryDelaySeconds, outcomeAt, s, env);
    RunFrom(productName, config.retryAttempts, 0, config.retryDelaySeconds, outcomeAt, s, env)
  }

  /** Reading the two cases together: 'api' exactly when some allowed attempt gets through. */
  lemma ApiIffSomeAttemptSucceeds(productName: string, config: Settings.Config, outcomeAt: nat -> Attempt, s: Store, env: Signals.Env)
    ensures IngestProduct(productName, config, outcomeAt, s, env).response.source == Api
        <==> exists j :: 0 <= j < config.retryAttempts && Succeeds(outcomeAt(j))
  {
    var r := IngestProduct(productName, config, outcomeAt, s, env);
    if r.response.source == Api {
      assert 0 <= r.attempts - 1 < config.retryAttempts && Succeeds(outcomeAt(r.attempts - 1));
    }
  }

  /** With no attempts configured, ingestion goes straight to the fallback without sleeping. */
  lemma NoAttemptsMeansFallback(productName: string, config: Settings.Config, outcomeAt: nat -> Attempt, s: Store, env: Signals.Env)
    requires config.retryAttempts <= 0
    ensures var r := IngestProduct(productName, config, outcomeAt, s, env);
            r.response.source == Fallback && r.attempts == 0 && r.sleeps == []
  {
  }

  /**
    Appending is not atomic: when the only attempt's second item has a
    malformed price, the first item's row stays in the store next to the
    three fallback rows, though the response reports 3 products added.
   */
  lemma PartialAppendSurvives(productName: string, s: Store, env: Signals.Env, good: SearchItem, bad: SearchItem)
    requires good.minPrice.Number? && good.id != "" && bad.minPrice.Malformed?
    ensures var config := Settings.Default.(retryAttempts := 1);
            var r := IngestProduct(productName, config, _ => Delivered([good, bad]), s, env);
            && r.response.source == Fallback
            && r.response.productsAdded == 3
            && |r.store.rows| == |s.rows| + 4
            && r.store.rows[|s.rows|].id == ApiId(good.id)
  {
    var items := [good, bad];
    var row := ItemRow(productName, 0, good, good.minPrice.value, ApiId(good.id), env);
    var s1 := s.(rows := s.rows + [row]);
    assert WriteItems(productName, items, 1, s1, env) == Raised(s1);
    assert WriteItems(productName, items, 0, s, env) == Raised(s1);
    var g := GenerateFallback(productName, s1, env);
    assert g.store.rows[|s.rows|] == s1.rows[|s.rows|];
  }

  /** The fields the pricing engine reads back from a stored row. */
  function PricingInputOf(r: Row): Pricing.PricingInput {
    Pricing.PricingInput(r.competitorPrice, Some(r.inventory), Some(r.demandScore), r.disc as real)
  }

  /**
    A product ingested through the fallback and then priced, under any
    strategy, configuration and hour, never costs more than its competitor
    price and never less than half of it.
   */
  lemma FallbackRowsPricedBelowCompetitor(productName: string, s: Store, env: Signals.Env,
                                          strategy: string, config: Settings.Config, hour: int, i: nat)
    requires |s.rows| <= i < |GenerateFallback(productName, s, env).store.rows|
    ensures var row := GenerateFallback(productName, s, env).store.rows[i];
            var q := Pricing.DynamicPrice(PricingInputOf(row), strategy, config, hour);
            row.competitorPrice * 0.5 <= q.price <= row.competitorPrice
  {
  }

  /** Ingestion keeps the counter ahead of every local id and those ids increasing. */
  lemma IngestKeepsIdsUnique(productName: string, config: Settings.Config, outcomeAt: nat -> Attempt, s: Store, env: Signals.Env)
    requires WellNumbered(s)
    ensures var t := IngestProduct(productName, config, outcomeAt, s, env).store;
            forall i, j :: 0 <= i < j < |t.rows| && t.rows[i].id.LocalId? && t.rows[j].id.LocalId? ==>
              t.rows[i].id != t.rows[j].id
  {
  }

  /**
    Ids the API supplies are stored as given, so they need not be unique:
    ingesting the same delivery twice stores its id on two rows.
   */
  lemma ReingestRepeatsApiId(productName: string, config: Settings.Config, item: SearchItem, s: Store, env: Signals.Env)
    requires config.retryAttempts >= 1
    requires item.id != "" && item.minPrice.Number?
    ensures var outcomeAt: nat -> Attempt := _ => Delivered([item]);
            var t1 := IngestProduct(productName, config, outcomeAt, s, env).store;
            var t2 := IngestProduct(productName, config, outcomeAt, t1, env).store;
            && |s.rows| < |t1.rows| < |t2.rows|
            && t2.rows[|t1.rows| - 1].id == ApiId(item.id)
            && t2.rows[|t2.rows| - 1].id == ApiId(item.id)
  {
    var outcomeAt: nat -> Attempt := _ => Delivered([item]);
    assert Succeeds(outcomeAt(0));
    ApiIffSomeAttemptSucceeds(productName, config, outcomeAt, s, env);
    var r1 := IngestProduct(productName, config, outcomeAt, s, env);
    var t1 := r1.store;
    ApiIffSomeAttemptSucceeds(productName, config, outcomeAt, t1, env);
    var r2 := IngestProduct(productName, config, outcomeAt, t1, env);
    var t2 := r2.store;
    assert RowFor(t1.rows[|t1.rows| - 1], productName, 0, item) by {
      assert outcomeAt(r1.attempts - 1).items == [item];
      RowsForAt(t1.rows[|t1.rows| - 1..], productName, [item], 0, 0);
    }
    assert RowFor(t2.rows[|t2.rows| - 1], productName, 0, item) by {
      assert outcomeAt(r2.attempts - 1).items == [item];
      RowsForAt(t2.rows[|t2.rows| - 1..], productName, [item], 0, 0);
    }
  }

  lemma InitialStoreWellNumbered()
    ensures WellNumbered(InitialStore)
  {
  }
}
