/**
 * The CSV layout csv-stringify writes with `delimiter: ','`: each record is its
 * fields joined by commas and followed by a newline; a field holding a comma, a
 * double quote or a newline is written between double quotes with its quotes
 * doubled. A reader for that layout proves that nothing is lost.
 */
module Csv {
  import opened Outcomes

  /** A record to write: at least one field (the entities written here have six or nine). */
  type Record = fields: seq<string> | |fields| >= 1 witness [""]

  predicate NeedsQuotes(f: string) {
    ',' in f || '"' in f || '\n' in f
  }

  /** Doubles every double quote. */
  function EscapeQuotes(f: string): (r: string)
    ensures |r| >= |f|
  {
    if f == [] then [] else (if f[0] == '"' then "\"\"" else [f[0]]) + EscapeQuotes(f[1..])
  }

  /** A field as written: unchanged when it needs no quotes, otherwise between double quotes. */
  function QuoteField(f: string): (r: string)
    ensures !NeedsQuotes(f) ==> r == f
    ensures NeedsQuotes(f) ==> |r| >= |f| + 2 && r[0] == '"' && r[|r| - 1] == '"'
  {
    if NeedsQuotes(f) then "\"" + EscapeQuotes(f) + "\"" else f
  }

  function JoinFields(fields: Record): string
    decreases |fields|
  {
    if |fields| == 1 then QuoteField(fields[0]) else QuoteField(fields[0]) + "," + JoinFields(fields[1..])
  }

  /** One record of output, delimiter included. */
  function RecordText(fields: Record): string {
    JoinFields(fields) + "\n"
  }

  /** The records written one after the other. */
  function RecordsText(records: seq<Record>): string
    decreases |records|
  {
    if records == [] then "" else RecordText(records[0]) + RecordsText(records[1..])
  }

  /** An unquoted field runs up to the next comma or newline. */
  function ReadUnquoted(s: string): (r: (string, string))
    ensures r.0 + r.1 == s
    ensures r.1 == [] || r.1[0] == ',' || r.1[0] == '\n'
  {
    if s == [] || s[0] == ',' || s[0] == '\n' then ([], s)
    else
      var (f, rest) := ReadUnquoted(s[1..]);
      ([s[0]] + f, rest)
  }

  /** `c` in front of the field a successful read returns. */
  function Cons(c: char, r: Option<(string, string)>): (r': Option<(string, string)>)
    ensures r'.Some? <==> r.Some?
    ensures r.Some? ==> r'.value == ([c] + r.value.0, r.value.1)
  {
    if r.None? then None else Some(([c] + r.value.0, r.value.1))
  }

  /** The body of a quoted field, after its opening quote, up to and past the closing one. */
  function ReadQuoted(s: string): (r: Option<(string, string)>)
    ensures r.Some? ==> |r.value.1| < |s|
  {
    if s == [] then None
    else if s[0] == '"' then
      if |s| >= 2 && s[1] == '"' then Cons('"', ReadQuoted(s[2..]))
      else Some(([], s[1..]))
    else Cons(s[0], ReadQuoted(s[1..]))
  }

  function ReadField(s: string): (r: Option<(string, string)>)
    ensures r.Some? ==> |r.value.1| <= |s|
  {
    if s != [] && s[0] == '"' then ReadQuoted(s[1..]) else Some(ReadUnquoted(s))
  }

  /** A record: fields separated by commas, ended by a newline. */
  function ReadRecord(s: string): (r: Option<(Record, string)>)
    ensures r.Some? ==> |r.value.1| < |s|
    decreases |s|
  {
    match ReadField(s)
    case None => None
    case Some((f, rest)) =>
      if rest == [] then None
      else if rest[0] == '\n' then Some(([f], rest[1..]))
      else if rest[0] == ',' then
        match ReadRecord(rest[1..])
        case None => None
        case Some((fields, after)) => Some(([f] + fields, after))
      else None
  }

  /** Reads a whole CSV text back into its records. */
  function ReadRecords(s: string): Option<seq<Record>>
    decreases |s|
  {
    if s == [] then Some([])
    else
      match ReadRecord(s)
      case None => None
      case Some((record, rest)) =>
        match ReadRecords(rest)
        case None => None
        case Some(records) => Some([record] + records)
  }

  predicate StartsField(rest: string) {
    rest != [] && (rest[0] == ',' || rest[0] == '\n')
  }

  lemma {:induction false} UnquotedRoundTrip(f: string, rest: string)
    requires !NeedsQuotes(f) && StartsField(rest)
    ensures ReadUnquoted(f + rest) == (f, rest)
  {
    if f != [] {
      assert f[0] in f;
      assert [f[0]] + f[1..] == f;
      assert (f + rest)[1..] == f[1..] + rest;
      assert !NeedsQuotes(f[1..]) by {
        assert forall c :: c in f[1..] ==> c in f;
      }
      UnquotedRoundTrip(f[1..], rest);
    } else {
      assert f + rest == rest;
    }
  }

  lemma ReadEscapedQuote(tail: string)
    ensures ReadQuoted("\"\"" + tail) == Cons('"', ReadQuoted(tail))
  {
    assert ("\"\"" + tail)[2..] == tail;
  }

  lemma ReadPlainChar(c: char, tail: string)
    requires c != '"'
    ensures ReadQuoted([c] + tail) == Cons(c, ReadQuoted(tail))
  {
    assert ([c] + tail)[1..] == tail;
  }

  lemma EscapeFront(f: string, rest: string)
    requires f != []
    ensures EscapeQuotes(f) + "\"" + rest
      == (if f[0] == '"' then "\"\"" else [f[0]]) + (EscapeQuotes(f[1..]) + "\"" + rest)
  {
  }

  lemma {:induction false} QuotedRoundTrip(f: string, rest: string)
    requires rest == [] || rest[0] != '"'
    ensures ReadQuoted(EscapeQuotes(f) + "\"" + rest) == Some((f, rest))
  {
    if f == [] {
      assert EscapeQuotes(f) + "\"" + rest == ['"'] + rest;
    } else {
      var tail := EscapeQuotes(f[1..]) + "\"" + rest;
      QuotedRoundTrip(f[1..], rest);
      EscapeFront(f, rest);
      if f[0] == '"' {
        ReadEscapedQuote(tail);
      } else {
        ReadPlainChar(f[0], tail);
      }
      assert [f[0]] + f[1..] == f;
    }
  }

  /** A written field reads back as itself, leaving the delimiter that follows it. */
  lemma FieldRoundTrip(f: string, rest: string)
    requires StartsField(rest)
    ensures ReadField(QuoteField(f) + rest) == Some((f, rest))
  {
    if NeedsQuotes(f) {
      QuotedFieldRoundTrip(f, rest);
    } else {
      if f != [] {
        assert f[0] in f;
      }
      UnquotedRoundTrip(f, rest);
    }
  }

  lemma QuotedFieldRoundTrip(f: string, rest: string)
    requires NeedsQuotes(f) && StartsField(rest)
    ensures ReadField(QuoteField(f) + rest) == Some((f, rest))
  {
    var body := EscapeQuotes(f) + "\"" + rest;
    var s := "\"" + body;
    assert QuoteField(f) + rest == s;
    assert s[0] == '"' && s[1..] == body;
    QuotedRoundTrip(f, rest);
  }

  lemma {:induction false} RecordRoundTrip(fields: Record, rest: string)
    ensures ReadRecord(RecordText(fields) + rest) == Some((fields, rest))
    decreases |fields|
  {
    var s := RecordText(fields) + rest;
    if |fields| == 1 {
      assert s == QuoteField(fields[0]) + ("\n" + rest);
      FieldRoundTrip(fields[0], "\n" + rest);
      assert ("\n" + rest)[1..] == rest;
      assert [fields[0]] == fields;
    } else {
      var after := "," + (RecordText(fields[1..]) + rest);
      assert s == QuoteField(fields[0]) + after;
      FieldRoundTrip(fields[0], after);
      assert after[1..] == RecordText(fields[1..]) + rest;
      RecordRoundTrip(fields[1..], rest);
      assert [fields[0]] + fields[1..] == fields;
    }
  }

  /** Reading back written records gives the same records, field for field. */
  lemma {:induction false} RecordsRoundTrip(records: seq<Record>)
    ensures ReadRecords(RecordsText(records)) == Some(records)
    decreases |records|
  {
    if records != [] {
      var s := RecordsText(records);
      RecordRoundTrip(records[0], RecordsText(records[1..]));
      RecordsRoundTrip(records[1..]);
      assert [records[0]] + records[1..] == records;
    }
  }
}
