/**
 * The product file `printify_products.csv`: rows appended one at a time after a
 * header line written only when the file did not exist, and the loader that
 * rebuilds the set of already-seen product URLs from it.
 */
module Store {
  import opened Wrappers
  import opened Csv

  /** One row of the file: a product row (Size and Price empty) written when a product
      is first found, or a variant row written for one row of a provider's table. */
  datatype Row =
    | ProductRow(category: string, name: string, url: string)
    | VariantRow(category: string, name: string, url: string, size: string, price: string)

  /** The column names of the header line. */
  const Columns: seq<string> := ["Category", "Product Name", "Product URL", "Size", "Price"]

  /** The header line, written unquoted when the file is created: the column names
      joined by commas. */
  const Header: string := Columns[0] + "," + Columns[1] + "," + Columns[2] + "," + Columns[3] + "," + Columns[4] + "\n"

  /** The text of the file when the crawl starts: the existing file as it is, or the
      header alone when there was no file. */
  function Opened(existing: Option<string>): string
  {
    match existing
    case Some(text) => text
    case None => Header
  }

  /** The text appended for one row. */
  function Line(r: Row): string
  {
    match r
    case ProductRow(c, n, u) => ProductLine(c, n, u)
    case VariantRow(c, n, u, s, p) => VariantLine(c, n, u, s, p)
  }

  /** The five column values a row stands for. */
  function Fields(r: Row): seq<string>
  {
    match r
    case ProductRow(c, n, u) => [c, n, u, "", ""]
    case VariantRow(c, n, u, s, p) => [c, n, u, s, p]
  }

  /** A row whose URL holds no quote reads back as its five column values. */
  lemma LineReadsBack(r: Row)
    requires Quote !in r.url
    ensures ParseRow(Line(r)) == Some(Fields(r))
  {
    match r
    case ProductRow(c, n, u) => ProductRowReadsBack(c, n, u);
    case VariantRow(c, n, u, s, p) => VariantRowReadsBack(c, n, u, s, p);
  }

  /** The text that a sequence of appended rows adds to the file, in order. */
  function Render(rows: seq<Row>): string
    decreases |rows|, 1
  {
    if rows == [] then "" else RenderFirst(rows)
  }

  /** The line of the first row followed by the text of the others. */
  function RenderFirst(rows: seq<Row>): string
    requires rows != []
    decreases |rows|, 0
  {
    Line(rows[0]) + Render(rows[1..])
  }

  /** Appending rows only extends the file: what was there stays a prefix. */
  lemma {:induction false} RenderConcat(rows: seq<Row>, more: seq<Row>)
    ensures Render(rows + more) == Render(rows) + Render(more)
  {
    if rows == [] {
      assert rows + more == more;
    } else {
      assert (rows + more)[1..] == rows[1..] + more;
      RenderConcat(rows[1..], more);
    }
  }

  /** Appending one row appends its line to the text. */
  lemma RenderSnoc(rows: seq<Row>, r: Row)
    ensures Render(rows + [r]) == Render(rows) + Line(r)
  {
    RenderConcat(rows, [r]);
    assert Render([r]) == Line(r) + Render([r][1..]);
    assert [r][1..] == [];
  }

  /** The file text after one more row is the text before followed by the row's line. */
  lemma AppendLine(start: string, rows: seq<Row>, r: Row)
    ensures start + Render(rows + [r]) == (start + Render(rows)) + Line(r)
  {
    RenderSnoc(rows, r);
  }

  /** What the CSV reader makes of a stored row: the column values keyed by the
      header's column names. */
  function RecordOf(r: Row): map<string, string>
  {
    var fs := Fields(r);
    map[Columns[0] := fs[0], Columns[1] := fs[1], Columns[2] := fs[2], Columns[3] := fs[3], Columns[4] := fs[4]]
  }

  /** The records read back from a file whose data lines are `rows`, one per row. This
      stands for the reader only on files whose URLs hold no `"`: on the others a
      quoted field does not close where it was meant to (see `LineReadsBack`). */
  function Records(rows: seq<Row>): seq<map<string, string>>
  {
    seq(|rows|, i requires 0 <= i < |rows| => RecordOf(rows[i]))
  }

  /** The record of a row has exactly the header's column names as keys, and holds the
      row's j-th column value under the j-th name. */
  lemma RecordOfFields(r: Row)
    ensures RecordOf(r).Keys == (set c | c in Columns)
    ensures forall j | 0 <= j < |Columns| :: RecordOf(r)[Columns[j]] == Fields(r)[j]
  {
  }

  /** When no stored URL holds a `"`, each record is what the reference reader finds on
      the row's line: a value under each of the header's column names, and nothing else. */
  lemma RecordsReadBack(rows: seq<Row>)
    requires forall r | r in rows :: Quote !in r.url
    ensures |Records(rows)| == |rows|
    ensures forall i | 0 <= i < |rows| ::
      ParseRow(Line(rows[i])).Some? && |ParseRow(Line(rows[i])).value| == |Columns| &&
      Records(rows)[i].Keys == (set c | c in Columns) &&
      forall j | 0 <= j < |Columns| :: Records(rows)[i][Columns[j]] == ParseRow(Line(rows[i])).value[j]
  {
    forall i | 0 <= i < |rows|
      ensures ParseRow(Line(rows[i])).Some? && |ParseRow(Line(rows[i])).value| == |Columns|
      ensures Records(rows)[i].Keys == (set c | c in Columns)
      ensures forall j | 0 <= j < |Columns| :: Records(rows)[i][Columns[j]] == ParseRow(Line(rows[i])).value[j]
    {
      assert rows[i] in rows;
      LineReadsBack(rows[i]);
      RecordOfFields(rows[i]);
      assert Records(rows)[i] == RecordOf(rows[i]);
    }
  }

  /** The URL of every row, product and variant rows alike. */
  function RowUrls(rows: seq<Row>): set<string>
  {
    set r | r in rows :: r.url
  }

  /** `loadExistingProductUrls` as written: the empty set when there is no file,
      otherwise the value under the key `url` of every record. JavaScript adds
      `undefined` for a record without that key; no product URL equals it, so it is
      left out here. */
  function LoadedUrlsAsWritten(records: Option<seq<map<string, string>>>): set<string>
  {
    match records
    case None => {}
    case Some(rs) => set r | r in rs && "url" in r :: r["url"]
  }

  /** The loader with the key the header actually names, `Product URL`. */
  function LoadedUrls(records: Option<seq<map<string, string>>>): set<string>
  {
    match records
    case None => {}
    case Some(rs) => set r | r in rs && Columns[2] in r :: r[Columns[2]]
  }

  /** As written, the loader finds no URL in a file this program wrote: no record has a
      `url` key, so cross-run deduplication never happens. */
  lemma AsWrittenLoaderFindsNothing(rows: seq<Row>)
    requires forall r | r in rows :: Quote !in r.url
    ensures LoadedUrlsAsWritten(Some(Records(rows))) == {}
  {
    var rs := Records(rows);
    assert |"url"| != |Columns[0]| && |"url"| != |Columns[1]| && |"url"| != |Columns[2]|
        && |"url"| != |Columns[3]| && |"url"| != |Columns[4]|;
    assert "url" !in Columns;
    forall i | 0 <= i < |rs|
      ensures "url" !in rs[i]
    {
      assert rs[i] == RecordOf(rows[i]);
      RecordOfFields(rows[i]);
    }
  }

  /** The corrected loader finds exactly the URLs of the stored rows. */
  lemma LoaderFindsStoredUrls(rows: seq<Row>)
    requires forall r | r in rows :: Quote !in r.url
    ensures LoadedUrls(Some(Records(rows))) == RowUrls(rows)
  {
    var rs := Records(rows);
    forall u | u in RowUrls(rows)
      ensures u in LoadedUrls(Some(rs))
    {
      var i :| 0 <= i < |rows| && rows[i].url == u;
      assert rs[i] == RecordOf(rows[i]);
      assert Columns[2] in rs[i] && rs[i][Columns[2]] == u;
    }
    forall u | u in LoadedUrls(Some(rs))
      ensures u in RowUrls(rows)
    {
      var i :| 0 <= i < |rs| && Columns[2] in rs[i] && rs[i][Columns[2]] == u;
      assert rs[i] == RecordOf(rows[i]);
      assert rows[i] in rows;
    }
  }
}
