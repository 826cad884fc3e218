/**
 * The two row builders of the scraper (`appendProductToCsv`, `appendVariantToCsv`)
 * and a reference reader for rows made of double-quoted fields.
 *
 * A text field is written between double quotes with every embedded `"`
 * doubled; the product URL is written between quotes but is NOT escaped.
 */
module Csv {
  import opened Wrappers

  const Quote: char := '"'

  /** Number of `"` characters in `s`. */
  function Quotes(s: string): nat
  {
    if s == [] then 0 else (if s[0] == Quote then 1 else 0) + Quotes(s[1..])
  }

  /** `s.replace(/"/g, '""')`: every double quote is doubled. */
  function Escape(s: string): (e: string)
    ensures |e| == |s| + Quotes(s)
    ensures Quote !in s ==> e == s
    decreases |s|, 1
  {
    if s == [] then [] else EscapeFirst(s)
  }

  /** The escape of the first character followed by that of the rest. */
  function EscapeFirst(s: string): (e: string)
    requires s != []
    ensures |e| == |s| + Quotes(s)
    decreases |s|, 0
  {
    (if s[0] == Quote then [Quote, Quote] else [s[0]]) + Escape(s[1..])
  }

  /** A field between double quotes. */
  function Field(s: string): string
  {
    "\"" + s + "\""
  }

  /** The line `appendProductToCsv` appends: category and name escaped, the URL
      as it is, Size and Price empty, terminated by a newline. */
  function ProductLine(category: string, name: string, url: string): (line: string)
    ensures |line| > 0 && line[0] == Quote && line[|line| - 1] == '\n'
  {
    Field(Escape(category)) + "," + Field(Escape(name)) + "," + Field(url) + "," + Field("") + "," + Field("") + "\n"
  }

  /** The line `appendVariantToCsv` appends: every field but the URL escaped. */
  function VariantLine(category: string, name: string, url: string, size: string, price: string): (line: string)
    ensures |line| > 0 && line[0] == Quote && line[|line| - 1] == '\n'
  {
    Field(Escape(category)) + "," + Field(Escape(name)) + "," + Field(url) + ","
      + Field(Escape(size)) + "," + Field(Escape(price)) + "\n"
  }

  /** Reference writer: every field quoted and escaped, comma separated, newline terminated. */
  function Record(fields: seq<string>): string
    requires fields != []
    decreases |fields|
  {
    Field(Escape(fields[0])) + (if |fields| == 1 then "\n" else "," + Record(fields[1..]))
  }

  /** Reads the body of a quoted field (the opening quote already consumed) up to its
      closing quote; a doubled quote stands for one quote. Returns the field and what
      follows the closing quote. */
  function ParseField(s: string): (r: Option<(string, string)>)
    ensures r.Some? ==> |r.value.1| < |s|
  {
    if s == [] then None
    else if s[0] == Quote then
      if |s| > 1 && s[1] == Quote then
        match ParseField(s[2..])
        case None => None
        case Some((f, rest)) => Some(([Quote] + f, rest))
      else Some(([], s[1..]))
    else
      match ParseField(s[1..])
      case None => None
      case Some((f, rest)) => Some(([s[0]] + f, rest))
  }

  /** Reference reader for one line of quoted, comma-separated fields ending in a newline. */
  function ParseRow(s: string): Option<seq<string>>
    decreases |s|
  {
    if s == [] || s[0] != Quote then None
    else
      match ParseField(s[1..])
      case None => None
      case Some((f, rest)) =>
        if rest == "\n" then Some([f])
        else if rest != [] && rest[0] == ',' then
          match ParseRow(rest[1..])
          case None => None
          case Some(fs) => Some([f] + fs)
        else None
  }

  /** Reading an escaped field back gives the original text, whatever quotes it holds. */
  lemma {:induction false} FieldRoundTrip(x: string, t: string)
    requires t == [] || t[0] != Quote
    ensures ParseField(Escape(x) + "\"" + t) == Some((x, t))
  {
    var s := Escape(x) + "\"" + t;
    if x == [] {
      assert s == "\"" + t;
      assert s[1..] == t;
    } else if x[0] == Quote {
      FieldRoundTrip(x[1..], t);
      assert Escape(x) == [Quote, Quote] + Escape(x[1..]);
      assert s == [Quote, Quote] + (Escape(x[1..]) + "\"" + t);
      assert s[2..] == Escape(x[1..]) + "\"" + t;
      assert [Quote] + x[1..] == x;
    } else {
      FieldRoundTrip(x[1..], t);
      assert Escape(x) == [x[0]] + Escape(x[1..]);
      assert s == [x[0]] + (Escape(x[1..]) + "\"" + t);
      assert s[1..] == Escape(x[1..]) + "\"" + t;
      assert [x[0]] + x[1..] == x;
    }
  }

  /** The reference reader inverts the reference writer. */
  lemma {:induction false} RecordRoundTrip(fields: seq<string>)
    requires fields != []
    ensures ParseRow(Record(fields)) == Some(fields)
    decreases |fields|
  {
    var e0 := Escape(fields[0]);
    var tail := if |fields| == 1 then "\n" else "," + Record(fields[1..]);
    var s := Record(fields);
    assert s == "\"" + (e0 + "\"" + tail);
    assert s[1..] == e0 + "\"" + tail;
    FieldRoundTrip(fields[0], tail);
    if |fields| == 1 {
      assert fields == [fields[0]];
    } else {
      RecordRoundTrip(fields[1..]);
      assert tail[1..] == Record(fields[1..]);
      assert [fields[0]] + fields[1..] == fields;
    }
  }

  /** One step of the reference writer: the first field, then a comma and the rest. */
  lemma RecordCons(first: string, rest: seq<string>)
    requires rest != []
    ensures Record([first] + rest) == Field(Escape(first)) + ("," + Record(rest))
  {
    assert ([first] + rest)[1..] == rest;
  }

  /** Regrouping five comma-separated fields. */
  lemma FiveFields(fa: string, fb: string, fc: string, fd: string, fe: string)
    ensures fa + ("," + (fb + ("," + (fc + ("," + (fd + ("," + (fe + "\n"))))))))
         == fa + "," + fb + "," + fc + "," + fd + "," + fe + "\n"
  {
  }

  /** The five-field record, written out field by field. */
  lemma RecordOfFive(a: string, b: string, c: string, d: string, e: string)
    ensures Record([a, b, c, d, e])
         == Field(Escape(a)) + "," + Field(Escape(b)) + "," + Field(Escape(c)) + ","
            + Field(Escape(d)) + "," + Field(Escape(e)) + "\n"
  {
    var fa, fb, fc, fd, fe := Field(Escape(a)), Field(Escape(b)), Field(Escape(c)), Field(Escape(d)), Field(Escape(e));
    assert Record([e]) == fe + "\n";
    RecordCons(d, [e]);
    assert [d] + [e] == [d, e];
    var r4 := fd + ("," + (fe + "\n"));
    assert Record([d, e]) == r4;
    RecordCons(c, [d, e]);
    assert [c] + [d, e] == [c, d, e];
    var r3 := fc + ("," + r4);
    assert Record([c, d, e]) == r3;
    RecordCons(b, [c, d, e]);
    assert [b] + [c, d, e] == [b, c, d, e];
    var r2 := fb + ("," + r3);
    assert Record([b, c, d, e]) == r2;
    RecordCons(a, [b, c, d, e]);
    assert [a] + [b, c, d, e] == [a, b, c, d, e];
    var r1 := fa + ("," + r2);
    assert Record([a, b, c, d, e]) == r1;
    FiveFields(fa, fb, fc, fd, fe);
  }

  /** With a quote-free URL, a product line is exactly the five-field record
      (category, name, URL, empty size, empty price). */
  lemma ProductLineIsRecord(category: string, name: string, url: string)
    requires Quote !in url
    ensures ProductLine(category, name, url) == Record([category, name, url, "", ""])
  {
    RecordOfFive(category, name, url, "", "");
  }

  /** With a quote-free URL, a variant line is exactly the five-field record. */
  lemma VariantLineIsRecord(category: string, name: string, url: string, size: string, price: string)
    requires Quote !in url
    ensures VariantLine(category, name, url, size, price) == Record([category, name, url, size, price])
  {
    RecordOfFive(category, name, url, size, price);
  }

  /** A product row reads back as five fields: the category and name as given
      (embedded quotes included), the URL, and empty Size and Price. */
  lemma ProductRowReadsBack(category: string, name: string, url: string)
    requires Quote !in url
    ensures ParseRow(ProductLine(category, name, url)) == Some([category, name, url, "", ""])
  {
    ProductLineIsRecord(category, name, url);
    RecordRoundTrip([category, name, url, "", ""]);
  }

  /** A variant row reads back as its five fields. */
  lemma VariantRowReadsBack(category: string, name: string, url: string, size: string, price: string)
    requires Quote !in url
    ensures ParseRow(VariantLine(category, name, url, size, price)) == Some([category, name, url, size, price])
  {
    VariantLineIsRecord(category, name, url, size, price);
    RecordRoundTrip([category, name, url, size, price]);
  }

  /** What is left of the third field of the row below after its quote: it never closes. */
  lemma UnclosedField()
    ensures ParseField("\"\",\"\",\"\"\n") == None
  {
    assert ParseField("") == None;
    assert ParseField("\n") == None;
    assert ParseField("\"\"\n") == None;
    assert ParseField(",\"\"\n") == None;
    assert ParseField("\"\",\"\"\n") == None;
    assert ParseField(",\"\",\"\"\n") == None;
  }

  /** The product line of an empty category and name and the URL `"`. */
  lemma QuoteUrlLine()
    ensures ProductLine("", "", "\"") == "\"\",\"\",\"\"\",\"\",\"\"\n"
  {
  }

  /** The row from the third field on does not parse. */
  lemma UnclosedRowTail()
    ensures ParseRow("\"\",\"\"\",\"\",\"\"\n") == None
  {
    UnclosedField();
    assert ParseRow("\"\"\",\"\",\"\"\n") == None;
    assert ParseField("\",\"\"\",\"\",\"\"\n") == Some(("", ",\"\"\",\"\",\"\"\n"));
  }

  /** Because the URL is not escaped, a URL holding a quote does not read back as
      the field it was written from: the row no longer parses. */
  lemma UnescapedUrlBreaksRow()
    ensures ParseRow(ProductLine("", "", "\"")) == None
  {
    QuoteUrlLine();
    UnclosedRowTail();
    assert ParseField("\",\"\",\"\"\",\"\",\"\"\n") == Some(("", ",\"\",\"\"\",\"\",\"\"\n"));
  }
}
