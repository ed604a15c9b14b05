/**
 * The product catalog service. It keeps an in-memory copy of the products, but every
 * query first re-reads the persisted list and adopts it when the key holds one, so the
 * storage is the source of truth and the copy only matters while the key is absent.
 * Admin mutations start from the persisted list (an absent key reads as empty), write
 * the result back and adopt it. Artificial delays are left out: each call is atomic.
 */
module ProductService {
  import opened Types
  import opened LocalStorage
  import opened Strings
  import opened Seqs

  /** What a call returns, with the storage and the in-memory copy it leaves behind. */
  datatype Outcome<T> = Outcome(value: T, storage: Storage, cache: seq<Product>)

  /** The list a query reads: the persisted one when present, else the in-memory copy. */
  function Live(st: Storage, cache: seq<Product>): seq<Product> {
    st.products.GetOr(cache)
  }

  /**
   * The constructor: a non-empty persisted list is adopted; otherwise the bundled seed
   * list becomes the copy and is persisted. Either way the key is present afterwards.
   */
  function Boot(st: Storage, seed: seq<Product>): (r: Outcome<()>)
    ensures r.storage.products == Some(r.cache)
    ensures r.storage.(products := st.products) == st
    ensures st.products.Some? && |st.products.value| > 0 ==> r.cache == st.products.value
    ensures st.products.None? || st.products.value == [] ==> r.cache == seed
  {
    if st.products.Some? && |st.products.value| > 0 then Outcome((), st, st.products.value)
    else Outcome((), st.(products := Some(seed)), seed)
  }

  /** `findIndex` on the id: the first position holding `id`, or -1. */
  function IndexOf(ps: seq<Product>, id: string): (k: int)
    ensures -1 <= k < |ps|
    ensures k == -1 <==> forall i :: 0 <= i < |ps| ==> ps[i].id != id
    ensures 0 <= k ==> ps[k].id == id && forall j :: 0 <= j < k ==> ps[j].id != id
    decreases |ps|
  {
    if |ps| == 0 then -1
    else if ps[0].id == id then 0
    else
      var k := IndexOf(ps[1..], id);
      if k == -1 then -1 else k + 1
  }

  /** `find` on the id: the first product carrying `id`, if any. */
  function Find(ps: seq<Product>, id: string): (r: Option<Product>)
    ensures r.None? <==> forall i :: 0 <= i < |ps| ==> ps[i].id != id
    ensures r.Some? ==> r.value == ps[IndexOf(ps, id)] && r.value.id == id
  {
    var k := IndexOf(ps, id);
    if k < 0 then None else Some(ps[k])
  }

  function GetProducts(st: Storage, cache: seq<Product>): (r: Outcome<seq<Product>>)
    ensures r.storage == st && r.cache == r.value
    ensures st.products.Some? ==> r.value == st.products.value
    ensures st.products.None? ==> r.value == cache
  {
    var live := Live(st, cache);
    Outcome(live, st, live)
  }

  /** The first live product with the id, or `None`; the copy is refreshed from storage. */
  function GetProduct(st: Storage, cache: seq<Product>, id: string): (r: Outcome<Option<Product>>)
    ensures r.storage == st && r.cache == Live(st, cache)
    ensures r.value.None? <==> forall i :: 0 <= i < |r.cache| ==> r.cache[i].id != id
    ensures r.value.Some? ==>
              exists k :: 0 <= k < |r.cache| && r.cache[k] == r.value.value && r.value.value.id == id
                          && forall j :: 0 <= j < k ==> r.cache[j].id != id
  {
    var live := Live(st, cache);
    Outcome(Find(live, id), st, live)
  }

  /** Case-insensitive match of an already lower-cased query against three text fields. */
  predicate Matches(p: Product, lowerQuery: string) {
    || Includes(Lower(p.name), lowerQuery)
    || Includes(Lower(p.description), lowerQuery)
    || Includes(Lower(p.category), lowerQuery)
  }

  function MatchesQuery(lowerQuery: string): Product -> bool {
    (p: Product) => Matches(p, lowerQuery)
  }

  function InCategory(category: string): Product -> bool {
    (p: Product) => p.category == category
  }

  lemma EmptyQueryMatchesAll(ps: seq<Product>)
    ensures Filter(ps, MatchesQuery(Lower(""))) == ps
  {
    forall i | 0 <= i < |ps|
      ensures MatchesQuery(Lower(""))(ps[i])
    {
      IncludesEmpty(Lower(ps[i].name));
    }
    FilterKeepsAll(ps, MatchesQuery(Lower("")));
  }

  /**
   * The live products matching the query, in catalog order, each as often as it occurs;
   * the empty query lists the whole catalog.
   */
  function SearchProducts(st: Storage, cache: seq<Product>, query: string): (r: Outcome<seq<Product>>)
    ensures r.storage == st && r.cache == Live(st, cache)
    ensures IsSubseq(r.value, r.cache)
    ensures forall p :: multiset(r.value)[p] == if Matches(p, Lower(query)) then multiset(r.cache)[p] else 0
    ensures query == "" ==> r.value == r.cache
  {
    var live := Live(st, cache);
    EmptyQueryMatchesAll(live);
    Outcome(Filter(live, MatchesQuery(Lower(query))), st, live)
  }

  /** The live products of one category, in catalog order. */
  function GetProductsByCategory(st: Storage, cache: seq<Product>, category: string): (r: Outcome<seq<Product>>)
    ensures r.storage == st && r.cache == Live(st, cache)
    ensures IsSubseq(r.value, r.cache)
    ensures forall p :: multiset(r.value)[p] == if p.category == category then multiset(r.cache)[p] else 0
  {
    var live := Live(st, cache);
    Outcome(Filter(live, InCategory(category)), st, live)
  }

  /** The id `createProduct` assigns: 'prod_' followed by the clock reading in decimal. */
  function ProductId(now: nat): string {
    "prod_" + NatToString(now)
  }

  /** Creations at distinct clock readings get distinct ids. */
  lemma ProductIdsDistinct(a: nat, b: nat)
    ensures a != b ==> ProductId(a) != ProductId(b)
  {
    if ProductId(a) == ProductId(b) {
      assert ProductId(a)[5..] == NatToString(a);
      assert ProductId(b)[5..] == NatToString(b);
      NatToStringInjective(a, b);
    }
  }

  /**
   * Appends the draft, with its id replaced by a fresh one, to the persisted list.
   * Earlier records and the other storage keys are untouched.
   */
  function CreateProduct(st: Storage, cache: seq<Product>, draft: Product, now: nat): (r: Outcome<Product>)
    ensures r.value.id == ProductId(now) && r.value.(id := draft.id) == draft
    ensures r.storage.products == Some(r.cache)
    ensures r.storage.(products := st.products) == st
    ensures var before := st.products.GetOr([]);
            && |r.cache| == |before| + 1
            && r.cache[..|before|] == before
            && r.cache[|before|] == r.value
  {
    var before := st.products.GetOr([]);
    var created := draft.(id := ProductId(now));
    var after := before + [created];
    Outcome(created, st.(products := Some(after)), after)
  }

  /** A freshly created product is what a lookup of its id then finds. */
  lemma {:induction false} CreateThenGet(st: Storage, cache: seq<Product>, draft: Product, now: nat)
    requires forall p :: p in st.products.GetOr([]) ==> p.id != ProductId(now)
    ensures var c := CreateProduct(st, cache, draft, now);
            GetProduct(c.storage, c.cache, ProductId(now)).value == Some(c.value)
  {
    var c := CreateProduct(st, cache, draft, now);
    var before := st.products.GetOr([]);
    assert forall j :: 0 <= j < |before| ==> c.cache[j] == before[j] && before[j] in before;
    assert c.cache[|before|].id == ProductId(now);
  }

  /** The fields of `Partial<Product>`; `None` is a field the update does not carry. */
  datatype ProductPatch = ProductPatch(
    id: Option<string>,
    name: Option<string>,
    price: Option<int>,
    description: Option<string>,
    imageUrl: Option<string>,
    category: Option<string>,
    stock: Option<int>)

  /** `{ ...p, ...patch, id }`: each carried field overrides, and the id is forced to `id`. */
  function Merge(p: Product, patch: ProductPatch, id: string): Product {
    Product(
      id,
      patch.name.GetOr(p.name),
      patch.price.GetOr(p.price),
      patch.description.GetOr(p.description),
      patch.imageUrl.GetOr(p.imageUrl),
      patch.category.GetOr(p.category),
      patch.stock.GetOr(p.stock))
  }

  /** A patch carrying only a price changes the price and nothing else. */
  lemma PriceOnlyPatch(p: Product, price: int)
    ensures Merge(p, ProductPatch(None, None, Some(price), None, None, None, None), p.id) == p.(price := price)
  {
  }

  /**
   * Merges the patch into the first persisted record with the id. An unknown id yields
   * `None` and writes nothing; otherwise only that index changes, the result keeps the
   * argument id whatever the patch says, and the list keeps its length.
   */
  function UpdateProduct(st: Storage, cache: seq<Product>, id: string, patch: ProductPatch): (r: Outcome<Option<Product>>)
    ensures var before := st.products.GetOr([]);
            r.value.None? <==> forall i :: 0 <= i < |before| ==> before[i].id != id
    ensures r.value.None? ==> r.storage == st && r.cache == cache
    ensures r.value.Some? ==>
              var before := st.products.GetOr([]);
              var k := IndexOf(before, id);
              && r.value.value.id == id
              && r.value.value == Merge(before[k], patch, id)
              && r.storage.products == Some(r.cache)
              && r.storage.(products := st.products) == st
              && |r.cache| == |before|
              && r.cache[k] == r.value.value
              && forall i :: 0 <= i < |before| && i != k ==> r.cache[i] == before[i]
  {
    var before := st.products.GetOr([]);
    var k := IndexOf(before, id);
    if k == -1 then Outcome(None, st, cache)
    else
      var updated := Merge(before[k], patch, id);
      var after := before[k := updated];
      Outcome(Some(updated), st.(products := Some(after)), after)
  }

  function IdIsNot(id: string): Product -> bool {
    (p: Product) => p.id != id
  }

  /**
   * Drops every persisted record with the id. Reports `false` and writes nothing when
   * none has it; otherwise reports `true` and keeps the other records in order.
   */
  function DeleteProduct(st: Storage, cache: seq<Product>, id: string): (r: Outcome<bool>)
    ensures var before := st.products.GetOr([]);
            r.value <==> exists i :: 0 <= i < |before| && before[i].id == id
    ensures !r.value ==> r.storage == st && r.cache == cache
    ensures r.value ==>
              var before := st.products.GetOr([]);
              && r.storage.products == Some(r.cache)
              && r.storage.(products := st.products) == st
              && |r.cache| < |before|
              && IsSubseq(r.cache, before)
              && forall p :: multiset(r.cache)[p] == if p.id != id then multiset(before)[p] else 0
  {
    var before := st.products.GetOr([]);
    var kept := Filter(before, IdIsNot(id));
    FilterLength(before, IdIsNot(id));
    if |kept| == |before| then Outcome(false, st, cache)
    else Outcome(true, st.(products := Some(kept)), kept)
  }

  /** Overwrites the persisted list and the copy with the bundled seed list. */
  function ResetToDefault(st: Storage, seed: seq<Product>): (r: Outcome<()>)
    ensures r.storage.products == Some(seed) && r.cache == seed
    ensures r.storage.(products := st.products) == st
  {
    Outcome((), st.(products := Some(seed)), seed)
  }
}
