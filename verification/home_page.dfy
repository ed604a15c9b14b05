/**
 * The home page's product filtering: a category selection, three price bands combined
 * with OR, and an in-stock switch, applied one after another; plus the "new products"
 * strip and the band toggles. Rendering and effects are left out.
 */
module HomePage {
  import opened Types
  import opened Seqs

  datatype Band = Low | Mid | High

  /** The selected price bands. */
  datatype PriceRanges = PriceRanges(low: bool, mid: bool, high: bool)

  datatype Filters = Filters(category: string, ranges: PriceRanges, inStockOnly: bool)

  /** The page's initial selection: every category, no band, in stock only. */
  const Initial := Filters("all", PriceRanges(false, false, false), true)

  /** Low is below 5000 yen, mid is [5000, 10000), high is 10000 and above. */
  predicate InBand(b: Band, price: int) {
    match b
    case Low => price < 5000
    case Mid => 5000 <= price < 10000
    case High => price >= 10000
  }

  function Selected(r: PriceRanges, b: Band): bool {
    match b
    case Low => r.low
    case Mid => r.mid
    case High => r.high
  }

  predicate AnySelected(r: PriceRanges) {
    r.low || r.mid || r.high
  }

  /** The body of the price filter: the first selected band containing the price keeps it. */
  predicate PriceKeeps(r: PriceRanges, price: int) {
    if r.low && price < 5000 then true
    else if r.mid && price >= 5000 && price < 10000 then true
    else if r.high && price >= 10000 then true
    else false
  }

  /** A price passes the band filter exactly when some selected band contains it. */
  lemma PriceKeepsIff(r: PriceRanges, price: int)
    ensures PriceKeeps(r, price) <==> exists b :: Selected(r, b) && InBand(b, price)
  {
    if PriceKeeps(r, price) {
      if r.low && price < 5000 {
        assert Selected(r, Low) && InBand(Low, price);
      } else if r.mid && price >= 5000 && price < 10000 {
        assert Selected(r, Mid) && InBand(Mid, price);
      } else {
        assert Selected(r, High) && InBand(High, price);
      }
    }
  }

  /** Every price lies in exactly one band. */
  lemma BandsPartition(price: int)
    ensures exists b :: InBand(b, price)
    ensures forall b, c :: InBand(b, price) && InBand(c, price) ==> b == c
  {
    if price < 5000 {
      assert InBand(Low, price);
    } else if price < 10000 {
      assert InBand(Mid, price);
    } else {
      assert InBand(High, price);
    }
  }

  function HasCategory(c: string): Product -> bool {
    (p: Product) => p.category == c
  }

  function InRanges(r: PriceRanges): Product -> bool {
    (p: Product) => PriceKeeps(r, p.price)
  }

  function InStock(): Product -> bool {
    (p: Product) => p.stock > 0
  }

  function CategoryStage(all: seq<Product>, f: Filters): seq<Product> {
    if f.category != "all" then Filter(all, HasCategory(f.category)) else all
  }

  function PriceStage(s: seq<Product>, f: Filters): seq<Product> {
    if AnySelected(f.ranges) then Filter(s, InRanges(f.ranges)) else s
  }

  function StockStage(s: seq<Product>, f: Filters): seq<Product> {
    if f.inStockOnly then Filter(s, InStock()) else s
  }

  /** `filterProducts`: the category step, then the price step, then the stock step. */
  function FilterProducts(all: seq<Product>, f: Filters): seq<Product> {
    StockStage(PriceStage(CategoryStage(all, f), f), f)
  }

  predicate CategoryOk(f: Filters, p: Product) {
    f.category == "all" || p.category == f.category
  }

  predicate PriceOk(f: Filters, p: Product) {
    !AnySelected(f.ranges) || PriceKeeps(f.ranges, p.price)
  }

  /** The three steps as one predicate: each step is a conjunct only when it is active. */
  predicate Keeps(f: Filters, p: Product) {
    CategoryOk(f, p) && PriceOk(f, p) && (!f.inStockOnly || p.stock > 0)
  }

  function CategoryOkFn(f: Filters): Product -> bool {
    (p: Product) => CategoryOk(f, p)
  }

  function CategoryPriceOkFn(f: Filters): Product -> bool {
    (p: Product) => CategoryOk(f, p) && PriceOk(f, p)
  }

  function KeepsAll(f: Filters): Product -> bool {
    (p: Product) => Keeps(f, p)
  }

  lemma CategoryStageIsFilter(all: seq<Product>, f: Filters)
    ensures CategoryStage(all, f) == Filter(all, CategoryOkFn(f))
  {
    if f.category != "all" {
      FilterAgree(all, HasCategory(f.category), CategoryOkFn(f));
    } else {
      FilterKeepsAll(all, CategoryOkFn(f));
    }
  }

  lemma PriceStageIsFilter(all: seq<Product>, f: Filters)
    ensures PriceStage(CategoryStage(all, f), f) == Filter(all, CategoryPriceOkFn(f))
  {
    CategoryStageIsFilter(all, f);
    if AnySelected(f.ranges) {
      FilterTwice(all, CategoryOkFn(f), InRanges(f.ranges), CategoryPriceOkFn(f));
    } else {
      FilterAgree(all, CategoryOkFn(f), CategoryPriceOkFn(f));
    }
  }

  /**
   * The page shows the order-preserving subsequence of all products that satisfy the
   * conjunction of the active conditions.
   */
  lemma FilterProductsIsConjunction(all: seq<Product>, f: Filters)
    ensures FilterProducts(all, f) == Filter(all, KeepsAll(f))
  {
    PriceStageIsFilter(all, f);
    if f.inStockOnly {
      FilterTwice(all, CategoryPriceOkFn(f), InStock(), KeepsAll(f));
    } else {
      FilterAgree(all, CategoryPriceOkFn(f), KeepsAll(f));
    }
  }

  /** With category 'all' the category step keeps every product; otherwise exactly that category. */
  lemma CategoryStep(all: seq<Product>, category: string)
    ensures category == "all" ==> FilterProducts(all, Filters(category, PriceRanges(false, false, false), false)) == all
    ensures category != "all" ==>
              forall p :: p in FilterProducts(all, Filters(category, PriceRanges(false, false, false), false))
                          <==> p in all && p.category == category
  {
    if category == "all" {
      PriceStep(all, PriceRanges(false, false, false));
    }
  }

  /**
   * With no band selected the price step keeps everything; with bands selected a product
   * stays exactly when its price lies in a selected band; with all three, nothing is lost.
   */
  lemma PriceStep(all: seq<Product>, r: PriceRanges)
    ensures !AnySelected(r) ==> FilterProducts(all, Filters("all", r, false)) == all
    ensures AnySelected(r) ==>
              forall p :: p in FilterProducts(all, Filters("all", r, false))
                          <==> p in all && exists b :: Selected(r, b) && InBand(b, p.price)
    ensures r == PriceRanges(true, true, true) ==> FilterProducts(all, Filters("all", r, false)) == all
  {
    forall p: Product
      ensures PriceKeeps(r, p.price) <==> exists b :: Selected(r, b) && InBand(b, p.price)
    {
      PriceKeepsIff(r, p.price);
    }
    if r == PriceRanges(true, true, true) {
      forall i | 0 <= i < |all|
        ensures InRanges(r)(all[i])
      {
        BandsPartition(all[i].price);
      }
      FilterKeepsAll(all, InRanges(r));
    }
  }

  /** With the stock switch on, exactly the products with stock left remain. */
  lemma StockStep(all: seq<Product>)
    ensures forall p :: p in FilterProducts(all, Filters("all", PriceRanges(false, false, false), true))
                        <==> p in all && p.stock > 0
  {
  }

  /**
   * The first paint: with the initial selection the page shows, in order, exactly the
   * products with stock left.
   */
  lemma InitialShowsInStock(all: seq<Product>)
    ensures FilterProducts(all, Initial) == Filter(all, InStock())
    ensures forall p :: p in FilterProducts(all, Initial) <==> p in all && p.stock > 0
  {
  }

  /** `handlePriceRangeChange`: flips the one band's flag. */
  function Toggle(r: PriceRanges, b: Band): (t: PriceRanges)
    ensures Selected(t, b) == !Selected(r, b)
    ensures forall c :: c != b ==> Selected(t, c) == Selected(r, c)
  {
    match b
    case Low => r.(low := !r.low)
    case Mid => r.(mid := !r.mid)
    case High => r.(high := !r.high)
  }

  /** Toggling a band twice restores the selection. */
  lemma ToggleTwice(r: PriceRanges, b: Band)
    ensures Toggle(Toggle(r, b), b) == r
  {
  }

  /** The "new products" strip: the first five products, or all of them when fewer. */
  function NewProducts(all: seq<Product>): (r: seq<Product>)
    ensures |r| == if |all| < 5 then |all| else 5
    ensures forall i :: 0 <= i < |r| ==> r[i] == all[i]
  {
    all[..if |all| < 5 then |all| else 5]
  }
}
