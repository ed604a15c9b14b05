/**
 * The catalog's CSV export: a header line, then one line per persisted product, joined
 * with a bare line feed (not the CRLF of RFC 4180). Name and description are quoted
 * with inner double quotes doubled (RFC 4180, section 2, rule 7); the other fields are
 * written as they are.
 */
module ProductCsv {
  import opened Types
  import opened LocalStorage
  import opened Strings

  const Columns := ["id", "name", "price", "description", "imageUrl", "category", "stock"]

  /** The header line, `id,name,price,description,imageUrl,category,stock`. */
  const Header := Join(Columns, ",")

  function CsvRow(p: Product): string {
    Join([p.id, QuoteField(p.name), IntToString(p.price), QuoteField(p.description),
          p.imageUrl, p.category, IntToString(p.stock)], ",")
  }

  /** The lines of the export before joining: the header, then the rows in catalog order. */
  function CsvLines(ps: seq<Product>): seq<string> {
    [Header] + seq(|ps|, i requires 0 <= i < |ps| => CsvRow(ps[i]))
  }

  /** The export reads the persisted list only; an absent key exports the header alone. */
  function ExportAsCsv(st: Storage): string {
    Join(CsvLines(st.products.GetOr([])), "\n")
  }

  /** No text field of the product contains a line feed. */
  predicate SingleLine(p: Product) {
    '\n' !in p.id && '\n' !in p.name && '\n' !in p.description
    && '\n' !in p.imageUrl && '\n' !in p.category
  }

  lemma HeaderIsSingleLine()
    ensures '\n' !in Header
  {
    JoinAvoids(Columns, ",", '\n');
  }

  lemma RowIsSingleLine(p: Product)
    requires SingleLine(p)
    ensures '\n' !in CsvRow(p)
  {
    var fields := [p.id, QuoteField(p.name), IntToString(p.price), QuoteField(p.description),
                   p.imageUrl, p.category, IntToString(p.stock)];
    JoinAvoids(fields, ",", '\n');
  }

  lemma {:induction false} LinesAreSingleLines(ps: seq<Product>)
    requires forall p :: p in ps ==> SingleLine(p)
    ensures forall k :: 0 <= k < |CsvLines(ps)| ==> '\n' !in CsvLines(ps)[k]
  {
    var lines := CsvLines(ps);
    forall k | 0 <= k < |lines|
      ensures '\n' !in lines[k]
    {
      if k == 0 {
        HeaderIsSingleLine();
      } else {
        assert ps[k - 1] in ps;
        RowIsSingleLine(ps[k - 1]);
      }
    }
  }

  /**
   * When no product text contains a line feed, splitting the export on line feeds gives
   * the header followed by exactly one row per product, in order.
   */
  lemma {:induction false} ExportLines(st: Storage)
    requires forall p :: p in st.products.GetOr([]) ==> SingleLine(p)
    ensures var ps := st.products.GetOr([]);
            var lines := Split(ExportAsCsv(st), '\n');
            && |lines| == |ps| + 1
            && lines[0] == Header
            && forall i :: 0 <= i < |ps| ==> lines[i + 1] == CsvRow(ps[i])
  {
    var ps := st.products.GetOr([]);
    LinesAreSingleLines(ps);
    SplitJoin(CsvLines(ps), '\n');
    assert "\n" == ['\n'];
  }
}
