/**
 The incremental embedding sync: vector points are written as it goes and stay, table rows are committed
 at the end or rolled back (app/jobs/embed_products.py). Time is an integer; a vector is told by its text.
 */
module EmbeddingSync {
  import opened Std

  /** The text whose vector a point carries, and what it carries about its product. */
  datatype Point = Point(
    text: string, productId: int, name: string, categorySlug: Option<string>, brand: Option<string>,
    basePrice: Option<real>, isCustomizable: Option<bool>, status: string)

  /** `parent` is the parent category's name, if there is a parent. */
  datatype Category = Category(slug: Option<string>, name: Option<string>, parent: Option<Option<string>>)

  /** The parts that are not empty, with that separator between them. */
  function Join(parts: seq<string>, separator: string): string {
    if parts == [] then ""
    else
      var rest := Join(parts[..|parts| - 1], separator);
      var last := parts[|parts| - 1];
      if last == "" then rest else if rest == "" then last else rest + separator + last
  }

  datatype Product = Product(id: int, updatedAt: Option<int>, name: Option<string>, category: Option<Category>,
    brand: Option<string>, description: Option<string>, basePrice: Option<real>, isCustomizable: Option<bool>,
    status: string)
  {
    function CategoryPath(): string {
      if category.None? then ""
      else
        var parent := if category.value.parent.None? then None else category.value.parent.value;
        Join([parent.GetOr(""), category.value.name.GetOr("")], " > ")
    }

    function EmbeddingText(): string {
      var maker := if brand.GetOr("") == "" then "" else "by " + brand.value;
      Join([name.GetOr(""), CategoryPath(), maker, description.GetOr("")], " | ")
    }

    function ToPoint(): Point {
      Point(EmbeddingText(), id, name.GetOr(""), if category.None? then None else category.value.slug, brand,
            basePrice, isCustomizable, status)
    }
  }

  /** Every column goes into the field of its name; a null name is carried as an empty one. */
  lemma {:induction false} PointCarries(p: Product)
    ensures var point := p.ToPoint();
      && point.productId == p.id && point.name == (if p.name.Some? then p.name.value else "")
      && point.categorySlug == (if p.category.Some? then p.category.value.slug else None)
      && point.brand == p.brand && point.basePrice == p.basePrice
      && point.isCustomizable == p.isCustomizable && point.status == p.status
  {
  }

  function Behind(part: string): string {
    if part == "" then "" else " | " + part
  }

  /** The text is the name, the category path, "by" the brand and the description; what is empty leaves no trace. */
  lemma {:induction false} TextIs(p: Product)
    ensures var brand := if p.brand.GetOr("") == "" then "" else "by " + p.brand.value;
      var rest := Behind(p.CategoryPath()) + Behind(brand) + Behind(p.description.GetOr(""));
      && (p.name.GetOr("") != "" ==> p.ToPoint().text == p.name.value + rest)
      && (p.name.GetOr("") == "" ==> Behind(p.ToPoint().text) == rest)
  {
    var brand := if p.brand.GetOr("") == "" then "" else "by " + p.brand.value;
    JoinFour(p.name.GetOr(""), p.CategoryPath(), brand, p.description.GetOr(""));
  }

  /** The path is the parent's name and the category's own, or the one there is. */
  lemma {:induction false} PathIs(p: Product)
    ensures p.category.None? ==> p.CategoryPath() == ""
    ensures p.category.Some? ==>
      var own := p.category.value.name.GetOr("");
      var parent := if p.category.value.parent.Some? then p.category.value.parent.value.GetOr("") else "";
      p.CategoryPath() == if own == "" then parent else if parent == "" then own else parent + " > " + own
  {
    if p.category.Some? {
      var parent := if p.category.value.parent.None? then None else p.category.value.parent.value;
      JoinTwo(parent.GetOr(""), p.category.value.name.GetOr(""), " > ");
    }
  }

  lemma {:induction false} JoinTwo(a: string, b: string, separator: string)
    ensures Join([a, b], separator) == if b == "" then a else if a == "" then b else a + separator + b
  {
    assert [a, b][..1] == [a] && [a][..0] == [];
    assert Join([a], separator) == a;
  }

  /** The first part as it is, what follows behind a separator each. */
  predicate JoinsTo(parts: seq<string>, first: string, rest: string) {
    var text := Join(parts, " | ");
    if first != "" then text == first + rest else Behind(text) == rest
  }

  lemma {:induction false} JoinsToMore(parts: seq<string>, first: string, rest: string, last: string)
    requires JoinsTo(parts, first, rest)
    ensures JoinsTo(parts + [last], first, rest + Behind(last))
  {
    assert (parts + [last])[..|parts|] == parts;
    if first != "" {
      assert first + (rest + Behind(last)) == (first + rest) + Behind(last);
    }
  }

  lemma {:induction false} JoinFour(a: string, b: string, c: string, d: string)
    ensures JoinsTo([a, b, c, d], a, Behind(b) + Behind(c) + Behind(d))
  {
    assert [a][..0] == [] && a + "" == a;
    assert JoinsTo([a], a, "");
    JoinsToMore([a], a, "", b);
    assert [a] + [b] == [a, b] && "" + Behind(b) == Behind(b);
    JoinsToMore([a, b], a, Behind(b), c);
    assert [a, b] + [c] == [a, b, c];
    JoinsToMore([a, b, c], a, Behind(b) + Behind(c), d);
    assert [a, b, c] + [d] == [a, b, c, d];
  }

  datatype EmbeddingRow = EmbeddingRow(pointId: string, createdAt: int)

  /** `rows` is keyed by product id, `points` by point id. */
  datatype World = World(products: seq<Product>, rows: map<int, EmbeddingRow>, points: map<string, Point>)

  const ACTIVE := "ACTIVE"

  /** No row yet, or a row older than the product's last update; a null update time is never newer. */
  predicate NeedsEmbedding(p: Product, rows: map<int, EmbeddingRow>) {
    p.status == ACTIVE
    && (p.id !in rows || (p.updatedAt.Some? && rows[p.id].createdAt < p.updatedAt.value))
  }

  function SelectedUpTo(products: seq<Product>, rows: map<int, EmbeddingRow>, n: nat): (selected: seq<Product>)
    requires n <= |products|
    ensures forall p :: p in selected <==> p in products[..n] && NeedsEmbedding(p, rows)
    ensures |selected| <= n
  {
    if n == 0 then []
    else
      assert products[..n] == products[..n - 1] + [products[n - 1]];
      SelectedUpTo(products, rows, n - 1) + if NeedsEmbedding(products[n - 1], rows) then [products[n - 1]] else []
  }

  function Selected(products: seq<Product>, rows: map<int, EmbeddingRow>): (selected: seq<Product>)
    ensures forall p :: p in selected <==> p in products && NeedsEmbedding(p, rows)
  {
    assert products[..|products|] == products;
    SelectedUpTo(products, rows, |products|)
  }

  /** Picked is what is active and has no row yet, or a row made before its last update. */
  lemma {:induction false} PickedIff(products: seq<Product>, rows: map<int, EmbeddingRow>, p: Product)
    ensures p in Selected(products, rows) <==>
      && p in products && p.status == "ACTIVE"
      && (p.id in rows ==> p.updatedAt.Some? && p.updatedAt.value > rows[p.id].createdAt)
  {
  }

  /** Points after the first n upserts. */
  function PointsTo(points: map<string, Point>, selected: seq<Product>, pointIdFor: int -> string,
      n: nat): map<string, Point>
    requires n <= |selected|
  {
    if n == 0 then points
    else PointsTo(points, selected, pointIdFor, n - 1)[pointIdFor(selected[n - 1].id) := selected[n - 1].ToPoint()]
  }

  /** Rows after the first n upserts, each stamped with the clock's reading at that moment. */
  function RowsTo(rows: map<int, EmbeddingRow>, selected: seq<Product>, pointIdFor: int -> string,
      clock: nat -> int, n: nat)
    : map<int, EmbeddingRow>
    requires n <= |selected|
  {
    if n == 0 then rows
    else RowsTo(rows, selected, pointIdFor, clock, n - 1)
         [selected[n - 1].id := EmbeddingRow(pointIdFor(selected[n - 1].id), clock(n - 1))]
  }

  /** One product more. */
  lemma {:induction false} OneMore(was: World, selected: seq<Product>, pointIdFor: int -> string, clock: nat -> int,
      n: nat)
    requires n < |selected|
    ensures PointsTo(was.points, selected, pointIdFor, n + 1)
         == PointsTo(was.points, selected, pointIdFor, n)[pointIdFor(selected[n].id) := selected[n].ToPoint()]
    ensures RowsTo(was.rows, selected, pointIdFor, clock, n + 1)
         == RowsTo(was.rows, selected, pointIdFor, clock, n)
              [selected[n].id := EmbeddingRow(pointIdFor(selected[n].id), clock(n))]
  {
  }

  /** How many points a sync writes. */
  function WrittenCount(selected: seq<Product>, failAfter: Option<nat>): (n: nat)
    ensures n <= |selected|
  {
    if failAfter.Some? && failAfter.value <= |selected| then failAfter.value else |selected|
  }

  /** A sync that gets through, or one that fails once `failAfter` points have been written. */
  function Synced(w: World, pointIdFor: int -> string, clock: nat -> int, failAfter: Option<nat>): World {
    var selected := Selected(w.products, w.rows);
    if failAfter.Some? && failAfter.value <= |selected| then
      w.(points := PointsTo(w.points, selected, pointIdFor, failAfter.value))
    else
      w.(points := PointsTo(w.points, selected, pointIdFor, |selected|),
         rows := RowsTo(w.rows, selected, pointIdFor, clock, |selected|))
  }

  class Job {
    const batchSize: nat
    var products: seq<Product>
    var rows: map<int, EmbeddingRow>
    var points: map<string, Point>

    constructor (batchSize: nat, products: seq<Product>)
      requires batchSize > 0
      ensures this.batchSize == batchSize && State() == World(products, map[], map[])
    {
      this.batchSize := batchSize;
      this.products := products;
      rows, points := map[], map[];
    }

    function State(): World
      reads this
    {
      World(products, rows, points)
    }

    /** One batch, product by product: the point is written, then the row, unless the run fails first. */
    method EmbedBatch(
      ghost was: World, ghost selected: seq<Product>, batch: seq<Product>, start: nat,
      pointIdFor: int -> string, clock: nat -> int, failAfter: Option<nat>)
      returns (embedded: nat, ok: bool)
      requires start + |batch| <= |selected| && batch == selected[start..start + |batch|]
      requires points == PointsTo(was.points, selected, pointIdFor, start)
      requires rows == RowsTo(was.rows, selected, pointIdFor, clock, start)
      requires failAfter.Some? ==> start <= failAfter.value
      modifies this`rows, this`points
      ensures start <= embedded <= start + |batch|
      ensures failAfter.Some? ==> embedded <= failAfter.value
      ensures points == PointsTo(was.points, selected, pointIdFor, embedded)
      ensures rows == RowsTo(was.rows, selected, pointIdFor, clock, embedded)
      ensures if ok then embedded == start + |batch| else failAfter == Some(embedded)
    {
      embedded := start;
      for k := 0 to |batch|
        invariant embedded == start + k
        invariant failAfter.Some? ==> embedded <= failAfter.value
        invariant points == PointsTo(was.points, selected, pointIdFor, embedded)
        invariant rows == RowsTo(was.rows, selected, pointIdFor, clock, embedded)
      {
        if failAfter == Some(embedded) {
          return embedded, false;
        }
        var product := batch[k];
        assert product == selected[embedded];
        OneMore(was, selected, pointIdFor, clock, embedded);
        points := points[pointIdFor(product.id) := product.ToPoint()];
        rows := rows[product.id := EmbeddingRow(pointIdFor(product.id), clock(embedded))];
        embedded := embedded + 1;
      }
      ok := true;
    }

    /** Batch by batch; on failure the session rolls back, the points stay. */
    method Run(pointIdFor: int -> string, clock: nat -> int, failAfter: Option<nat>) returns (embedded: nat, ok: bool)
      requires batchSize > 0
      modifies this`rows, this`points
      ensures State() == Synced(old(State()), pointIdFor, clock, failAfter)
      ensures ok ==> embedded == |Selected(products, old(rows))|
      ensures !ok <==> failAfter.Some? && failAfter.value <= |Selected(products, old(rows))|
      ensures !ok ==> rows == old(rows)
    {
      var selected := Selected(products, rows);
      ghost var was := State();
      var committed := rows;
      embedded, ok := 0, true;
      while ok && embedded < |selected|
        invariant embedded <= |selected|
        invariant failAfter.Some? ==> embedded <= failAfter.value
        invariant points == PointsTo(was.points, selected, pointIdFor, embedded)
        invariant rows == RowsTo(was.rows, selected, pointIdFor, clock, embedded)
        invariant !ok ==> failAfter == Some(embedded)
        decreases ok, |selected| - embedded
      {
        var batch := selected[embedded..Min(embedded + batchSize, |selected|)];
        embedded, ok := EmbedBatch(was, selected, batch, embedded, pointIdFor, clock, failAfter);
      }
      ok := ok && failAfter != Some(embedded);
      if !ok {
        rows := committed;
      }
    }
  }

  // ---- histories ----

  /**
   A sync, an edit of the product at an index, or a new product. An edit sets the columns it is given: the
   update time moves only if it is one of them (`movedTo`).
   */
  datatype Event =
    | Sync(clock: nat -> int, failAfter: Option<nat>)
    | Edit(index: nat, edited: Product, movedTo: Option<int>)
    | Add(added: Product)

  function Edited(was: Product, edited: Product, movedTo: Option<int>): Product {
    edited.(id := was.id, updatedAt := if movedTo.Some? then movedTo else was.updatedAt)
  }

  function Happened(w: World, pointIdFor: int -> string, e: Event): World {
    match e
    case Sync(clock, failAfter) => Synced(w, pointIdFor, clock, failAfter)
    case Edit(i, edited, movedTo) =>
      if i < |w.products| then w.(products := w.products[i := Edited(w.products[i], edited, movedTo)]) else w
    case Add(added) => w.(products := w.products + [added])
  }

  /**
   Time goes on: a sync's clock is behind no update, an update time that moves goes past its product's last
   embedding, and a new product's id has not been used.
   */
  ghost predicate InTime(w: World, e: Event) {
    match e
    case Sync(clock, _) =>
      forall i, n: nat ::
        0 <= i < |w.products| && w.products[i].updatedAt.Some? ==> w.products[i].updatedAt.value <= clock(n)
    case Edit(i, _, movedTo) =>
      movedTo.Some? && i < |w.products| && w.products[i].id in w.rows ==>
        w.rows[w.products[i].id].createdAt < movedTo.value
    case Add(added) => added.id !in w.rows && forall p :: p in w.products ==> p.id != added.id
  }

  ghost predicate DistinctIds(products: seq<Product>) {
    forall i, j :: 0 <= i < j < |products| ==> products[i].id != products[j].id
  }

  ghost predicate Injective(pointIdFor: int -> string) {
    forall a, b :: pointIdFor(a) == pointIdFor(b) ==> a == b
  }

  /** The product's one point carries its present data. */
  ghost predicate UpToDate(w: World, pointIdFor: int -> string, p: Product) {
    pointIdFor(p.id) in w.points && w.points[pointIdFor(p.id)] == p.ToPoint()
  }

  /** Points sit under their product's point id. */
  ghost predicate Keyed(points: map<string, Point>, pointIdFor: int -> string) {
    forall k :: k in points ==> k == pointIdFor(points[k].productId)
  }

  /** Points sit under their product's id; what no sync would pick although active is up to date. */
  ghost predicate Sound(w: World, pointIdFor: int -> string) {
    && DistinctIds(w.products)
    && Keyed(w.points, pointIdFor)
    && (forall p :: p in w.products && p.status == ACTIVE && !NeedsEmbedding(p, w.rows) ==> UpToDate(w, pointIdFor, p))
  }

  lemma {:induction false} PointsToEffect(w: World, selected: seq<Product>, pointIdFor: int -> string, n: nat)
    requires n <= |selected| && Injective(pointIdFor) && DistinctIds(w.products)
    requires forall p :: p in selected ==> p in w.products
    requires Keyed(w.points, pointIdFor)
    ensures var after := PointsTo(w.points, selected, pointIdFor, n);
      && Keyed(after, pointIdFor)
      && (forall p :: p in w.products && (p in selected[..n] || UpToDate(w, pointIdFor, p)) ==>
            UpToDate(w.(points := after), pointIdFor, p))
  {
    if n > 0 {
      PointsToEffect(w, selected, pointIdFor, n - 1);
      var last := selected[n - 1];
      var before, after := PointsTo(w.points, selected, pointIdFor, n - 1), PointsTo(w.points, selected, pointIdFor, n);
      assert selected[..n] == selected[..n - 1] + [last];
      assert after == before[pointIdFor(last.id) := last.ToPoint()];
      forall k | k in after ensures k == pointIdFor(after[k].productId) {
        assert k == pointIdFor(last.id) || k in before;
      }
      forall p | p in w.products && (p in selected[..n] || UpToDate(w, pointIdFor, p))
        ensures UpToDate(w.(points := after), pointIdFor, p)
      {
        if p.id == last.id {
          SameIdSameProduct(w.products, p, last);
        } else {
          assert UpToDate(w.(points := before), pointIdFor, p);
        }
      }
    }
  }

  lemma {:induction false} SameIdSameProduct(products: seq<Product>, p: Product, q: Product)
    requires DistinctIds(products) && p in products && q in products && p.id == q.id
    ensures p == q
  {
  }

  lemma {:induction false} RowsToEffect(
    rows: map<int, EmbeddingRow>, selected: seq<Product>, pointIdFor: int -> string, clock: nat -> int, n: nat)
    requires n <= |selected|
    ensures var after := RowsTo(rows, selected, pointIdFor, clock, n);
      && (forall id :: id in after && !(exists j :: 0 <= j < n && selected[j].id == id) ==>
            (id in rows && after[id] == rows[id]))
      && (forall id :: id in rows ==> id in after)
      && (forall j :: 0 <= j < n ==>
            (selected[j].id in after && exists m: nat :: m < n && after[selected[j].id].createdAt == clock(m)))
  {
    if n > 0 {
      RowsToEffect(rows, selected, pointIdFor, clock, n - 1);
      var before := RowsTo(rows, selected, pointIdFor, clock, n - 1);
      var after := RowsTo(rows, selected, pointIdFor, clock, n);
      forall j | 0 <= j < n
        ensures selected[j].id in after && exists m: nat :: m < n && after[selected[j].id].createdAt == clock(m)
      {
        if selected[j].id == selected[n - 1].id {
          assert after[selected[j].id].createdAt == clock(n - 1);
        } else {
          assert after[selected[j].id] == before[selected[j].id];
          var m: nat :| m < n - 1 && before[selected[j].id].createdAt == clock(m);
        }
      }
    }
  }

  lemma {:induction false} NothingNeededNothingSelected(products: seq<Product>, rows: map<int, EmbeddingRow>, n: nat)
    requires n <= |products| && forall p :: p in products ==> !NeedsEmbedding(p, rows)
    ensures SelectedUpTo(products, rows, n) == []
  {
    if n > 0 {
      NothingNeededNothingSelected(products, rows, n - 1);
    }
  }

  /** After a complete sync no product needs embedding. */
  lemma {:induction false} NothingLeftToEmbed(w: World, pointIdFor: int -> string, clock: nat -> int,
      failAfter: Option<nat>, p: Product)
    requires DistinctIds(w.products) && InTime(w, Sync(clock, failAfter)) && p in w.products
    requires !(failAfter.Some? && failAfter.value <= |Selected(w.products, w.rows)|)
    ensures !NeedsEmbedding(p, Synced(w, pointIdFor, clock, failAfter).rows)
  {
    var selected := Selected(w.products, w.rows);
    RowsToEffect(w.rows, selected, pointIdFor, clock, |selected|);
    var after := Synced(w, pointIdFor, clock, failAfter).rows;
    if p in selected {
      var j :| 0 <= j < |selected| && selected[j] == p;
      var m: nat :| m < |selected| && after[selected[j].id].createdAt == clock(m);
      var i :| 0 <= i < |w.products| && w.products[i] == p;
      assert w.products[i].updatedAt.Some? ==> w.products[i].updatedAt.value <= clock(m);
    } else if p.status == ACTIVE {
      if j :| 0 <= j < |selected| && selected[j].id == p.id {
        SameIdSameProduct(w.products, p, selected[j]);
      }
    }
  }

  lemma {:induction false} SyncKeepsSound(w: World, pointIdFor: int -> string, clock: nat -> int,
      failAfter: Option<nat>)
    requires Sound(w, pointIdFor) && Injective(pointIdFor) && InTime(w, Sync(clock, failAfter))
    ensures Sound(Synced(w, pointIdFor, clock, failAfter), pointIdFor)
    ensures failAfter.None? ==> forall p :: p in w.products && p.status == ACTIVE ==>
      UpToDate(Synced(w, pointIdFor, clock, failAfter), pointIdFor, p)
  {
    var selected := Selected(w.products, w.rows);
    var after := Synced(w, pointIdFor, clock, failAfter);
    var n := if failAfter.Some? && failAfter.value <= |selected| then failAfter.value else |selected|;
    PointsToEffect(w, selected, pointIdFor, n);
    assert selected[..|selected|] == selected;
    assert after.points == PointsTo(w.points, selected, pointIdFor, n) && after.products == w.products;
    forall p | p in after.products && p.status == ACTIVE && (!NeedsEmbedding(p, after.rows) || failAfter.None?)
      ensures UpToDate(after, pointIdFor, p)
    {
      if n == |selected| {
        assert p in selected[..n] || UpToDate(w, pointIdFor, p);
      } else {
        assert after.rows == w.rows;
      }
      assert UpToDate(w.(points := after.points), pointIdFor, p);
    }
  }

  // ---- which edits a sync notices ----

  /** The edit leaves a product that is not active, that a sync will pick, or that its point already describes. */
  ghost predicate Announced(w: World, pointIdFor: int -> string, e: Event) {
    e.Edit? && e.index < |w.products| ==>
      var p := Edited(w.products[e.index], e.edited, e.movedTo);
      p.status == ACTIVE ==> NeedsEmbedding(p, w.rows) || UpToDate(w, pointIdFor, p)
  }

  /** For an active product that is embedded and up to date: the update time moved, or the point would be the same. */
  lemma {:induction false} AnnouncedIffMoved(w: World, pointIdFor: int -> string, i: nat, edited: Product,
      movedTo: Option<int>)
    requires Sound(w, pointIdFor) && i < |w.products| && InTime(w, Edit(i, edited, movedTo))
    requires w.products[i].status == ACTIVE && !NeedsEmbedding(w.products[i], w.rows) && edited.status == ACTIVE
    ensures Announced(w, pointIdFor, Edit(i, edited, movedTo)) <==>
      movedTo.Some? || Edited(w.products[i], edited, movedTo).ToPoint() == w.products[i].ToPoint()
  {
    assert UpToDate(w, pointIdFor, w.products[i]);
  }

  /** An edit keeps everything sound exactly when it is announced. */
  lemma {:induction false} EditKeepsSoundIff(w: World, pointIdFor: int -> string, i: nat, edited: Product,
      movedTo: Option<int>)
    requires Sound(w, pointIdFor)
    ensures Sound(Happened(w, pointIdFor, Edit(i, edited, movedTo)), pointIdFor) <==>
      Announced(w, pointIdFor, Edit(i, edited, movedTo))
  {
    var e := Edit(i, edited, movedTo);
    var after := Happened(w, pointIdFor, e);
    if i < |w.products| {
      assert after.products[i] in after.products;
      if Announced(w, pointIdFor, e) {
        forall p | p in after.products && p.status == ACTIVE && !NeedsEmbedding(p, after.rows)
          ensures UpToDate(after, pointIdFor, p)
        {
          var j :| 0 <= j < |after.products| && after.products[j] == p;
          assert j != i ==> w.products[j] == p && p in w.products;
        }
      }
    }
  }

  function AfterEvents(w: World, pointIdFor: int -> string, events: seq<Event>, k: nat): World
    requires k <= |events|
  {
    if k == 0 then w else Happened(AfterEvents(w, pointIdFor, events, k - 1), pointIdFor, events[k - 1])
  }

  ghost predicate AllInTime(w: World, pointIdFor: int -> string, events: seq<Event>, k: nat)
    requires k <= |events|
  {
    k > 0 ==>
      && AllInTime(w, pointIdFor, events, k - 1)
      && InTime(AfterEvents(w, pointIdFor, events, k - 1), events[k - 1])
  }

  ghost predicate AllAnnounced(w: World, pointIdFor: int -> string, events: seq<Event>, k: nat)
    requires k <= |events|
  {
    k > 0 ==>
      && AllAnnounced(w, pointIdFor, events, k - 1)
      && Announced(AfterEvents(w, pointIdFor, events, k - 1), pointIdFor, events[k - 1])
  }

  /** After any history whose edits were all announced, what no sync would pick is up to date. */
  lemma {:induction false} HistoriesAreSound(w: World, pointIdFor: int -> string, events: seq<Event>, k: nat)
    requires k <= |events| && Sound(w, pointIdFor) && Injective(pointIdFor)
    requires AllInTime(w, pointIdFor, events, k) && AllAnnounced(w, pointIdFor, events, k)
    ensures Sound(AfterEvents(w, pointIdFor, events, k), pointIdFor)
  {
    if k > 0 {
      HistoriesAreSound(w, pointIdFor, events, k - 1);
      var before := AfterEvents(w, pointIdFor, events, k - 1);
      match events[k - 1] {
        case Sync(clock, failAfter) => SyncKeepsSound(before, pointIdFor, clock, failAfter);
        case Edit(i, edited, movedTo) => EditKeepsSoundIff(before, pointIdFor, i, edited, movedTo);
        case Add(added) =>
          var after := Happened(before, pointIdFor, events[k - 1]);
          forall p | p in after.products && p.status == ACTIVE && !NeedsEmbedding(p, after.rows)
            ensures UpToDate(after, pointIdFor, p)
          {
            assert p in before.products || p == added;
          }
      }
    }
  }

  // ---- what one complete sync repairs ----

  /** The points about a product. */
  ghost predicate OnlyPoint(points: map<string, Point>, id: int, pointId: string) {
    forall k :: k in points && points[k].productId == id <==> k == pointId
  }

  /** Every active product has exactly one point, and it carries the product's present data. */
  ghost predicate AllCurrent(w: World, pointIdFor: int -> string) {
    forall p :: p in w.products && p.status == ACTIVE ==>
      UpToDate(w, pointIdFor, p) && OnlyPoint(w.points, p.id, pointIdFor(p.id))
  }

  function PointAt(points: map<string, Point>, pointId: string): Option<Point> {
    if pointId in points then Some(points[pointId]) else None
  }

  /** The point the last of the first n upserts for that product wrote. */
  function WrittenTo(selected: seq<Product>, n: nat, id: int): Option<Point>
    requires n <= |selected|
  {
    if n == 0 then None
    else if selected[n - 1].id == id then Some(selected[n - 1].ToPoint())
    else WrittenTo(selected, n - 1, id)
  }

  lemma {:induction false} PointsToLookup(
    points: map<string, Point>, selected: seq<Product>, pointIdFor: int -> string, n: nat, id: int)
    requires n <= |selected| && Injective(pointIdFor)
    ensures PointAt(PointsTo(points, selected, pointIdFor, n), pointIdFor(id))
         == if WrittenTo(selected, n, id).Some? then WrittenTo(selected, n, id) else PointAt(points, pointIdFor(id))
  {
    if n > 0 {
      PointsToLookup(points, selected, pointIdFor, n - 1, id);
    }
  }

  lemma {:induction false} WrittenIffSelected(selected: seq<Product>, n: nat, id: int)
    requires n <= |selected|
    ensures WrittenTo(selected, n, id).Some? <==> exists j :: 0 <= j < n && selected[j].id == id
  {
    if n > 0 {
      WrittenIffSelected(selected, n - 1, id);
    }
  }

  /** One product after a complete sync: current exactly when the sync picked it or it was current before. */
  lemma {:induction false} ProductRepairedIff(w: World, pointIdFor: int -> string, clock: nat -> int, p: Product)
    requires DistinctIds(w.products) && Keyed(w.points, pointIdFor) && Injective(pointIdFor)
    requires p in w.products && p.status == ACTIVE
    ensures UpToDate(Synced(w, pointIdFor, clock, None), pointIdFor, p) <==>
      NeedsEmbedding(p, w.rows) || UpToDate(w, pointIdFor, p)
  {
    var selected := Selected(w.products, w.rows);
    var after := Synced(w, pointIdFor, clock, None);
    assert selected[..|selected|] == selected;
    if NeedsEmbedding(p, w.rows) || UpToDate(w, pointIdFor, p) {
      PointsToEffect(w, selected, pointIdFor, |selected|);
      assert UpToDate(w.(points := after.points), pointIdFor, p);
    } else {
      PointsToLookup(w.points, selected, pointIdFor, |selected|, p.id);
      WrittenIffSelected(selected, |selected|, p.id);
      forall j | 0 <= j < |selected| ensures selected[j].id != p.id {
        assert selected[j] in selected;
        if selected[j].id == p.id {
          SameIdSameProduct(w.products, p, selected[j]);
        }
      }
      assert PointAt(after.points, pointIdFor(p.id)) == PointAt(w.points, pointIdFor(p.id));
    }
  }

  /**
   Whatever went before, one complete sync leaves every active product its one current point exactly when
   every active product it does not pick had that already; and the next sync selects nothing either way.
   */
  lemma {:induction false} SyncRepairsIff(w: World, pointIdFor: int -> string, clock: nat -> int)
    requires DistinctIds(w.products) && Keyed(w.points, pointIdFor) && Injective(pointIdFor)
    requires InTime(w, Sync(clock, None))
    ensures var after := Synced(w, pointIdFor, clock, None);
      && Selected(after.products, after.rows) == []
      && (AllCurrent(after, pointIdFor) <==>
            forall p :: p in w.products && p.status == ACTIVE ==>
              NeedsEmbedding(p, w.rows) || UpToDate(w, pointIdFor, p))
  {
    var after := Synced(w, pointIdFor, clock, None);
    var selected := Selected(w.products, w.rows);
    forall p | p in after.products ensures !NeedsEmbedding(p, after.rows) {
      NothingLeftToEmbed(w, pointIdFor, clock, None, p);
    }
    NothingNeededNothingSelected(after.products, after.rows, |after.products|);
    PointsToEffect(w, selected, pointIdFor, |selected|);
    assert Keyed(after.points, pointIdFor);
    forall p | p in w.products && p.status == ACTIVE
      ensures UpToDate(after, pointIdFor, p) <==> NeedsEmbedding(p, w.rows) || UpToDate(w, pointIdFor, p)
      ensures UpToDate(after, pointIdFor, p) ==> OnlyPoint(after.points, p.id, pointIdFor(p.id))
    {
      ProductRepairedIff(w, pointIdFor, clock, p);
    }
  }

  /**
   After any history of announced edits, new products and syncs failing anywhere, one complete sync leaves
   every active product with exactly one point, carrying its present data, and the next sync selects nothing.
   */
  lemma {:induction false} CompleteSyncRepairs(w: World, pointIdFor: int -> string, events: seq<Event>,
      clock: nat -> int)
    requires Sound(w, pointIdFor) && Injective(pointIdFor)
    requires AllInTime(w, pointIdFor, events, |events|) && AllAnnounced(w, pointIdFor, events, |events|)
    requires InTime(AfterEvents(w, pointIdFor, events, |events|), Sync(clock, None))
    ensures var after := Synced(AfterEvents(w, pointIdFor, events, |events|), pointIdFor, clock, None);
      Selected(after.products, after.rows) == [] && AllCurrent(after, pointIdFor)
  {
    HistoriesAreSound(w, pointIdFor, events, |events|);
    SyncRepairsIff(AfterEvents(w, pointIdFor, events, |events|), pointIdFor, clock);
  }

  /** One more edit after such a history: a complete sync still repairs everything exactly when it is announced. */
  lemma {:induction false} LastEditRepairedIff(
    w: World, pointIdFor: int -> string, events: seq<Event>, i: nat, edited: Product, movedTo: Option<int>,
    clock: nat -> int)
    requires Sound(w, pointIdFor) && Injective(pointIdFor)
    requires AllInTime(w, pointIdFor, events, |events|) && AllAnnounced(w, pointIdFor, events, |events|)
    requires InTime(Happened(AfterEvents(w, pointIdFor, events, |events|), pointIdFor, Edit(i, edited, movedTo)),
                    Sync(clock, None))
    ensures var before := AfterEvents(w, pointIdFor, events, |events|);
      AllCurrent(Synced(Happened(before, pointIdFor, Edit(i, edited, movedTo)), pointIdFor, clock, None), pointIdFor)
      <==> Announced(before, pointIdFor, Edit(i, edited, movedTo))
  {
    var before := AfterEvents(w, pointIdFor, events, |events|);
    HistoriesAreSound(w, pointIdFor, events, |events|);
    EditKeepsSoundIff(before, pointIdFor, i, edited, movedTo);
    SyncRepairsIff(Happened(before, pointIdFor, Edit(i, edited, movedTo)), pointIdFor, clock);
  }

  // ---- any history, from its log alone ----

  /** What the last upsert for that product wrote, told from the events; what was there before if there was none. */
  function LastWritten(w: World, pointIdFor: int -> string, events: seq<Event>, k: nat, id: int): Option<Point>
    requires k <= |events|
  {
    if k == 0 then PointAt(w.points, pointIdFor(id))
    else
      var earlier := LastWritten(w, pointIdFor, events, k - 1, id);
      match events[k - 1]
      case Sync(_, failAfter) =>
        var before := AfterEvents(w, pointIdFor, events, k - 1);
        var selected := Selected(before.products, before.rows);
        var written := WrittenTo(selected, WrittenCount(selected, failAfter), id);
        if written.Some? then written else earlier
      case Edit(_, _, _) => earlier
      case Add(_) => earlier
  }

  lemma {:induction false} LastWrittenIsThePoint(
    w: World, pointIdFor: int -> string, events: seq<Event>, k: nat, id: int)
    requires k <= |events| && Injective(pointIdFor)
    ensures PointAt(AfterEvents(w, pointIdFor, events, k).points, pointIdFor(id))
         == LastWritten(w, pointIdFor, events, k, id)
  {
    if k > 0 {
      LastWrittenIsThePoint(w, pointIdFor, events, k - 1, id);
      if events[k - 1].Sync? {
        var before := AfterEvents(w, pointIdFor, events, k - 1);
        var selected := Selected(before.products, before.rows);
        PointsToLookup(before.points, selected, pointIdFor, WrittenCount(selected, events[k - 1].failAfter), id);
      }
    }
  }

  lemma {:induction false} HistoriesStayKeyed(w: World, pointIdFor: int -> string, events: seq<Event>, k: nat)
    requires k <= |events| && DistinctIds(w.products) && Keyed(w.points, pointIdFor) && Injective(pointIdFor)
    requires AllInTime(w, pointIdFor, events, k)
    ensures var after := AfterEvents(w, pointIdFor, events, k);
      DistinctIds(after.products) && Keyed(after.points, pointIdFor)
  {
    if k > 0 {
      HistoriesStayKeyed(w, pointIdFor, events, k - 1);
      StaysKeyed(AfterEvents(w, pointIdFor, events, k - 1), pointIdFor, events[k - 1]);
    }
  }

  lemma {:induction false} StaysKeyed(w: World, pointIdFor: int -> string, e: Event)
    requires DistinctIds(w.products) && Keyed(w.points, pointIdFor) && Injective(pointIdFor) && InTime(w, e)
    ensures var after := Happened(w, pointIdFor, e); DistinctIds(after.products) && Keyed(after.points, pointIdFor)
  {
    if e.Sync? {
      var selected := Selected(w.products, w.rows);
      PointsToEffect(w, selected, pointIdFor, WrittenCount(selected, e.failAfter));
    }
  }

  /**
   After any history at all, one complete sync repairs everything exactly when each active product it does
   not pick has now the point that was last written for it: an edit left unannounced counts unless
   it was taken back.
   */
  lemma {:induction false} HistoryRepairedIff(w: World, pointIdFor: int -> string, events: seq<Event>,
      clock: nat -> int)
    requires DistinctIds(w.products) && Keyed(w.points, pointIdFor) && Injective(pointIdFor)
    requires AllInTime(w, pointIdFor, events, |events|)
    requires InTime(AfterEvents(w, pointIdFor, events, |events|), Sync(clock, None))
    ensures var before := AfterEvents(w, pointIdFor, events, |events|);
      AllCurrent(Synced(before, pointIdFor, clock, None), pointIdFor) <==>
        forall p :: p in before.products && p.status == ACTIVE && !NeedsEmbedding(p, before.rows) ==>
          LastWritten(w, pointIdFor, events, |events|, p.id) == Some(p.ToPoint())
  {
    var before := AfterEvents(w, pointIdFor, events, |events|);
    HistoriesStayKeyed(w, pointIdFor, events, |events|);
    SyncRepairsIff(before, pointIdFor, clock);
    forall p | p in before.products
      ensures UpToDate(before, pointIdFor, p) <==>
        LastWritten(w, pointIdFor, events, |events|, p.id) == Some(p.ToPoint())
    {
      LastWrittenIsThePoint(w, pointIdFor, events, |events|, p.id);
    }
  }

  // ---- a sync, product by product ----

  /** A sync that fails rolls every row back and keeps the points of those it got to; all other points stay. */
  lemma {:induction false} FailedSyncKeepsPoints(w: World, pointIdFor: int -> string, clock: nat -> int, failAfter: nat,
      id: int)
    requires Injective(pointIdFor) && failAfter <= |Selected(w.products, w.rows)|
    ensures var after, selected := Synced(w, pointIdFor, clock, Some(failAfter)), Selected(w.products, w.rows);
      && after.rows == w.rows && after.products == w.products
      && (forall j :: 0 <= j < failAfter && selected[j].id == id
                      && (forall i :: j < i < failAfter ==> selected[i].id != id) ==>
            PointAt(after.points, pointIdFor(id)) == Some(selected[j].ToPoint()))
      && ((forall j :: 0 <= j < failAfter ==> selected[j].id != id) ==>
            PointAt(after.points, pointIdFor(id)) == PointAt(w.points, pointIdFor(id)))
  {
    var selected := Selected(w.products, w.rows);
    PointsToLookup(w.points, selected, pointIdFor, failAfter, id);
    WrittenIffSelected(selected, failAfter, id);
    LastIsWritten(selected, failAfter, id);
  }

  lemma {:induction false} LastIsWritten(selected: seq<Product>, n: nat, id: int)
    requires n <= |selected|
    ensures forall j :: 0 <= j < n && selected[j].id == id && (forall i :: j < i < n ==> selected[i].id != id) ==>
      WrittenTo(selected, n, id) == Some(selected[j].ToPoint())
  {
    if n > 0 {
      LastIsWritten(selected, n - 1, id);
    }
  }

  /** A sync that gets through gives each product it picked its point id and a reading of the clock. */
  lemma {:induction false} CompleteSyncRows(w: World, pointIdFor: int -> string, clock: nat -> int, id: int)
    ensures var after, selected := Synced(w, pointIdFor, clock, None), Selected(w.products, w.rows);
      && after.products == w.products
      && ((exists j :: 0 <= j < |selected| && selected[j].id == id) ==>
            && id in after.rows && after.rows[id].pointId == pointIdFor(id)
            && exists m: nat :: m < |selected| && after.rows[id].createdAt == clock(m))
      && ((forall j :: 0 <= j < |selected| ==> selected[j].id != id) ==>
            (id in after.rows <==> id in w.rows) && (id in w.rows ==> after.rows[id] == w.rows[id]))
  {
    var selected := Selected(w.products, w.rows);
    RowsToEffect(w.rows, selected, pointIdFor, clock, |selected|);
    if exists j :: 0 <= j < |selected| && selected[j].id == id {
      RowsNameTheirPoint(w.rows, selected, pointIdFor, clock, |selected|, id);
    }
  }

  lemma {:induction false} RowsNameTheirPoint(rows: map<int, EmbeddingRow>, selected: seq<Product>,
      pointIdFor: int -> string, clock: nat -> int, n: nat, id: int)
    requires n <= |selected| && exists j :: 0 <= j < n && selected[j].id == id
    ensures var after := RowsTo(rows, selected, pointIdFor, clock, n);
      id in after && after[id].pointId == pointIdFor(id)
  {
    if selected[n - 1].id != id {
      RowsNameTheirPoint(rows, selected, pointIdFor, clock, n - 1, id);
    }
  }

  // ---- the edit no sync notices ----

  /** Active, not picked, and its point does not carry its present data. */
  ghost predicate Stale(w: World, pointIdFor: int -> string, i: nat) {
    && i < |w.products| && w.products[i].status == ACTIVE
    && !NeedsEmbedding(w.products[i], w.rows) && !UpToDate(w, pointIdFor, w.products[i])
  }

  /** No run of any sync, complete or failing, and nothing done to other products ever repairs a stale one. */
  lemma {:induction false} StaleStays(w: World, pointIdFor: int -> string, events: seq<Event>, k: nat, i: nat)
    requires k <= |events| && DistinctIds(w.products) && Keyed(w.points, pointIdFor) && Injective(pointIdFor)
    requires AllInTime(w, pointIdFor, events, k) && Stale(w, pointIdFor, i)
    requires forall j :: 0 <= j < k && events[j].Edit? ==> events[j].index != i
    ensures Stale(AfterEvents(w, pointIdFor, events, k), pointIdFor, i)
    ensures AfterEvents(w, pointIdFor, events, k).products[i] == w.products[i]
  {
    if k > 0 {
      StaleStays(w, pointIdFor, events, k - 1, i);
      HistoriesStayKeyed(w, pointIdFor, events, k - 1);
      var before := AfterEvents(w, pointIdFor, events, k - 1);
      match events[k - 1] {
        case Sync(clock, failAfter) => SyncPassesOver(before, pointIdFor, clock, failAfter, i);
        case Edit(_, _, _) =>
        case Add(_) =>
      }
    }
  }

  lemma {:induction false} SyncPassesOver(
    w: World, pointIdFor: int -> string, clock: nat -> int, failAfter: Option<nat>, i: nat)
    requires DistinctIds(w.products) && Injective(pointIdFor) && Stale(w, pointIdFor, i)
    ensures Stale(Synced(w, pointIdFor, clock, failAfter), pointIdFor, i)
  {
    var p, selected := w.products[i], Selected(w.products, w.rows);
    var n := WrittenCount(selected, failAfter);
    forall j | 0 <= j < |selected| ensures selected[j].id != p.id {
      assert selected[j] in selected;
      if selected[j].id == p.id {
        SameIdSameProduct(w.products, p, selected[j]);
      }
    }
    PointsToLookup(w.points, selected, pointIdFor, n, p.id);
    WrittenIffSelected(selected, n, p.id);
    RowsToEffect(w.rows, selected, pointIdFor, clock, |selected|);
    var after := Synced(w, pointIdFor, clock, failAfter);
    assert PointAt(after.points, pointIdFor(p.id)) == PointAt(w.points, pointIdFor(p.id));
    assert p.id in after.rows && after.rows[p.id] == w.rows[p.id];
  }

  /**
   Such an edit is what the admin's product form makes: it renames an embedded product and leaves the update
   time, which no caller may set. Nothing is selected afterwards and the point keeps the old name for good.
   */
  lemma {:induction false} RenameGoesUnnoticed(pointIdFor: int -> string, clock: nat -> int)
    requires Injective(pointIdFor) && forall n: nat :: clock(n) >= 10
    ensures exists w: World, edited: Product ::
      && Sound(w, pointIdFor) && |w.products| == 1
      && var after := Happened(w, pointIdFor, Edit(0, edited, None));
         && Selected(after.products, after.rows) == []
         && Synced(after, pointIdFor, clock, None).points == w.points
         && Stale(Synced(after, pointIdFor, clock, None), pointIdFor, 0)
  {
    var mug := Product(1, Some(10), Some("Mug"), None, None, None, None, None, ACTIVE);
    var edited := mug.(name := Some("Cup"));
    var row := EmbeddingRow(pointIdFor(1), 11);
    var w := World([mug], map[1 := row], map[pointIdFor(1) := mug.ToPoint()]);
    assert Sound(w, pointIdFor);
    var after := Happened(w, pointIdFor, Edit(0, edited, None));
    assert after.products == [edited];
    assert !NeedsEmbedding(edited, after.rows);
    NothingNeededNothingSelected(after.products, after.rows, 1);
    assert Stale(after, pointIdFor, 0);
    SyncPassesOver(after, pointIdFor, clock, None, 0);
  }

  /** With nothing embedded yet the premise holds. */
  lemma {:induction false} StartIsSound(products: seq<Product>, pointIdFor: int -> string)
    requires DistinctIds(products)
    ensures Sound(World(products, map[], map[]), pointIdFor)
  {
  }
}
