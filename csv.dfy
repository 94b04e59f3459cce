/** The CSV export of the sales history (`buildCSVString`): a fixed header
    line, then one record per sale whose nine fields are each wrapped in double
    quotes with embedded quotes doubled (section 2, rule 7 of RFC 4180); lines
    are separated by a bare line feed. A reader for such records is given too,
    so that the export can be shown to lose nothing. */
module Csv {
  import opened Seqs
  import opened PosTypes

  const Header: string := "id,time,mode,subTotal,discount,taxPercent,tax,net,items"

  /** `String(v).replace(/"/g, '""')` */
  function Escape(v: string): string
  {
    if v == [] then [] else (if v[0] == '"' then "\"\"" else [v[0]]) + Escape(v[1..])
  }

  /** One CSV field: the escaped text between double quotes. */
  function Quote(v: string): string
  {
    "\"" + Escape(v) + "\""
  }

  /** `Array.prototype.join(sep)` */
  function Join(xs: seq<string>, sep: string): string
  {
    if |xs| == 0 then "" else if |xs| == 1 then xs[0] else xs[0] + sep + Join(xs[1..], sep)
  }

  function QuoteAll(vals: seq<string>): seq<string>
  {
    seq(|vals|, k requires 0 <= k < |vals| => Quote(vals[k]))
  }

  /** One record: the quoted fields separated by commas. */
  function Record(vals: seq<string>): string
  {
    Join(QuoteAll(vals), ",")
  }

  /** `?? ""`: an absent amount becomes an empty field; `num` is the host's number-to-text conversion. */
  function OrEmpty(o: Option<real>, num: real -> string): string
  {
    match o
    case Some(v) => num(v)
    case None => ""
  }

  /** `r.net ?? r.amount` */
  function NetOrAmount(s: Sale): Option<real>
  {
    if s.net.Some? then s.net else s.amount
  }

  /** The items column: for each item its name, " x" and its quantity, " @" and its price; items separated by " | ". */
  function ItemsSummary(items: seq<SaleItem>, num: real -> string): string
  {
    Join(seq(|items|, k requires 0 <= k < |items| =>
      items[k].name + " x" + num(items[k].qty as real) + " @" + num(items[k].price)), " | ")
  }

  /** The nine values exported for one sale, in header order. */
  function SaleFields(s: Sale, num: real -> string): (r: seq<string>)
    ensures |r| == 9 && r[0] == s.id && r[1] == s.time && r[2] == s.mode
    ensures r[3] == (if s.subTotal.Some? then num(s.subTotal.value) else "")
    ensures r[4] == (if s.discount.Some? then num(s.discount.value) else "")
    ensures r[5] == (if s.taxPercent.Some? then num(s.taxPercent.value) else "")
    ensures r[6] == (if s.tax.Some? then num(s.tax.value) else "")
    ensures r[7] == (if s.net.Some? then num(s.net.value) else if s.amount.Some? then num(s.amount.value) else "")
    ensures r[8] == ItemsSummary(s.items, num)
  {
    [s.id, s.time, s.mode, OrEmpty(s.subTotal, num), OrEmpty(s.discount, num), OrEmpty(s.taxPercent, num),
     OrEmpty(s.tax, num), OrEmpty(NetOrAmount(s), num), ItemsSummary(s.items, num)]
  }

  function SaleRecords(rows: seq<Sale>, num: real -> string): seq<string>
  {
    seq(|rows|, k requires 0 <= k < |rows| => Record(SaleFields(rows[k], num)))
  }

  /** The exported document: the header line followed by one record per sale. */
  function CsvDocument(rows: seq<Sale>, num: real -> string): string
  {
    Join([Header] + SaleRecords(rows, num), "\n")
  }

  /** `buildCSVString(rows)`: collects the lines one sale at a time, then joins them. */
  method BuildCsvString(rows: seq<Sale>, num: real -> string) returns (csv: string)
    ensures csv == CsvDocument(rows, num)
  {
    var lines := [Header];
    for i := 0 to |rows|
      invariant |lines| == i + 1 && lines[0] == Header
      invariant forall k | 0 <= k < i :: lines[k + 1] == Record(SaleFields(rows[k], num))
    {
      lines := lines + [Record(SaleFields(rows[i], num))];
    }
    assert lines == [Header] + SaleRecords(rows, num);
    csv := Join(lines, "\n");
  }

  // ---------------------------------------------------------------------------
  // Reading the export back

  /** Reads a quoted field after its opening quote: a doubled quote stands for
      one quote character and a single quote closes the field. Gives the field's
      text and what follows the closing quote. */
  function ReadQuoted(s: string): (r: Option<(string, string)>)
    ensures r.Some? ==> |r.value.1| < |s|
  {
    if s == [] then None
    else if s[0] == '"' then
      if |s| >= 2 && s[1] == '"' then
        match ReadQuoted(s[2..])
        case None => None
        case Some(fr) => Some(("\"" + fr.0, fr.1))
      else Some(([], s[1..]))
    else
      match ReadQuoted(s[1..])
      case None => None
      case Some(fr) => Some(([s[0]] + fr.0, fr.1))
  }

  /** Reads one record of quoted fields separated by commas, up to the end of
      the text or the next line feed (which it leaves in place). */
  function ReadFields(s: string): (r: Option<(seq<string>, string)>)
    ensures r.Some? ==> |r.value.1| < |s| && (r.value.1 == [] || r.value.1[0] == '\n')
    decreases |s|
  {
    if s == [] || s[0] != '"' then None
    else
      match ReadQuoted(s[1..])
      case None => None
      case Some(fr) =>
        var rest := fr.1;
        if rest == [] || rest[0] == '\n' then Some(([fr.0], rest))
        else if rest[0] == ',' then
          match ReadFields(rest[1..])
          case None => None
          case Some(more) => Some(([fr.0] + more.0, more.1))
        else None
  }

  /** Reads records separated by line feeds until the text ends. */
  function ReadRecords(s: string): Option<seq<seq<string>>>
    decreases |s|
  {
    match ReadFields(s)
    case None => None
    case Some(fr) =>
      if fr.1 == [] then Some([fr.0])
      else
        match ReadRecords(fr.1[1..])
        case None => None
        case Some(more) => Some([fr.0] + more)
  }

  /** Un-doubling an escaped field recovers the original text, whatever follows
      the closing quote, as long as that is not itself a quote. */
  lemma {:induction false} ReadQuotedEscape(v: string, rest: string)
    requires rest == [] || rest[0] != '"'
    ensures ReadQuoted(Escape(v) + "\"" + rest) == Some((v, rest))
  {
    var s := Escape(v) + "\"" + rest;
    if v == [] {
      assert s == "\"" + rest;
      assert s[1..] == rest;
    } else if v[0] == '"' {
      assert s == "\"\"" + (Escape(v[1..]) + "\"" + rest);
      assert s[2..] == Escape(v[1..]) + "\"" + rest;
      ReadQuotedEscape(v[1..], rest);
      assert v == "\"" + v[1..];
    } else {
      assert s == [v[0]] + (Escape(v[1..]) + "\"" + rest);
      assert s[1..] == Escape(v[1..]) + "\"" + rest;
      ReadQuotedEscape(v[1..], rest);
      assert v == [v[0]] + v[1..];
    }
  }

  /** A quoted field opens with a quote, and what follows reads back as the field's text. */
  lemma QuoteReadsBack(v: string, after: string)
    requires after == [] || after[0] != '"'
    ensures var s := Quote(v) + after;
            s != [] && s[0] == '"' && ReadQuoted(s[1..]) == Some((v, after))
  {
    var s := Quote(v) + after;
    var e := Escape(v) + "\"" + after;
    assert s == "\"" + e;
    assert s[1..] == e;
    ReadQuotedEscape(v, after);
  }

  /** Reading a record back gives the fields it was written from. */
  lemma {:induction false} ReadFieldsRecord(vals: seq<string>, tail: string)
    requires |vals| >= 1
    requires tail == [] || tail[0] == '\n'
    ensures ReadFields(Record(vals) + tail) == Some((vals, tail))
    decreases |vals|
  {
    if |vals| == 1 {
      assert Record(vals) == Quote(vals[0]);
      QuoteReadsBack(vals[0], tail);
      assert vals == [vals[0]];
    } else {
      assert QuoteAll(vals)[1..] == QuoteAll(vals[1..]);
      var after := "," + Record(vals[1..]) + tail;
      assert Record(vals) + tail == Quote(vals[0]) + after;
      QuoteReadsBack(vals[0], after);
      assert after[1..] == Record(vals[1..]) + tail;
      ReadFieldsRecord(vals[1..], tail);
      assert vals == [vals[0]] + vals[1..];
    }
  }

  function Records(rows: seq<seq<string>>): seq<string>
  {
    seq(|rows|, k requires 0 <= k < |rows| => Record(rows[k]))
  }

  /** Reading records joined by line feeds gives back every record, in order. */
  lemma {:induction false} ReadRecordsJoin(rows: seq<seq<string>>)
    requires |rows| >= 1
    requires forall k | 0 <= k < |rows| :: |rows[k]| >= 1
    ensures ReadRecords(Join(Records(rows), "\n")) == Some(rows)
  {
    var lines := Records(rows);
    if |rows| == 1 {
      assert Join(lines, "\n") == Record(rows[0]) + "";
      ReadFieldsRecord(rows[0], "");
      assert rows == [rows[0]];
    } else {
      assert lines[1..] == Records(rows[1..]);
      var tail := "\n" + Join(Records(rows[1..]), "\n");
      assert Join(lines, "\n") == Record(rows[0]) + tail;
      ReadFieldsRecord(rows[0], tail);
      assert tail[1..] == Join(Records(rows[1..]), "\n");
      ReadRecordsJoin(rows[1..]);
      assert rows == [rows[0]] + rows[1..];
    }
  }

  /** The export is the header line, then (when there are sales) a line feed and
      a body from which every sale's nine fields read back verbatim, one record
      per sale, in the order of the sales. */
  lemma CsvRoundTrip(rows: seq<Sale>, num: real -> string)
    ensures rows == [] ==> CsvDocument(rows, num) == Header
    ensures rows != [] ==>
      var body := Join(SaleRecords(rows, num), "\n");
      && CsvDocument(rows, num) == Header + "\n" + body
      && ReadRecords(body) == Some(seq(|rows|, k requires 0 <= k < |rows| => SaleFields(rows[k], num)))
  {
    var lines := [Header] + SaleRecords(rows, num);
    if rows != [] {
      assert lines[1..] == SaleRecords(rows, num);
      var fields := seq(|rows|, k requires 0 <= k < |rows| => SaleFields(rows[k], num));
      assert Records(fields) == SaleRecords(rows, num);
      ReadRecordsJoin(fields);
    }
  }
}
