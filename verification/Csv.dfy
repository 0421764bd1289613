/**
 The CSV of a table (csvField, csvRecord and toCsv of app/exporting.cpp), and a
 reader of section 2 of RFC 4180 that gets the table back. A char stands for a
 byte. A field without quotes may hold any byte but a comma, a quote, a carriage
 return and a line feed.
 */
module Csv {
  import opened Sequences
  import opened Wrappers

  datatype Table = Table(header: seq<string>, rows: seq<seq<string>>)

  datatype Read<T> = Read(got: T, rest: string)

  // ----- the text

  predicate Special(c: char) {
    c == ',' || c == '"' || c == '\r' || c == '\n'
  }

  predicate Plain(f: string) {
    forall i | 0 <= i < |f| :: !Special(f[i])
  }

  function Escape(c: char): string {
    if c == '"' then "\"\"" else [c]
  }

  function Doubled(f: string): string {
    if f == "" then "" else Escape(f[0]) + Doubled(f[1..])
  }

  function Field(f: string): string {
    if Plain(f) then f else "\"" + Doubled(f) + "\""
  }

  /** Fields, each with a comma before it. */
  function Tail(fields: seq<string>): string {
    if fields == [] then "" else ("," + Field(fields[0])) + Tail(fields[1..])
  }

  /** Fields with commas between them. */
  function Joined(fields: seq<string>): string {
    if fields == [] then "" else Field(fields[0]) + Tail(fields[1..])
  }

  function Record(fields: seq<string>): string {
    Joined(fields) + "\r\n"
  }

  function Records(rows: seq<seq<string>>): string {
    if rows == [] then "" else Record(rows[0]) + Records(rows[1..])
  }

  // ----- the printer

  class ByteArray {
    var bytes: string

    constructor ()
      ensures bytes == ""
    {
      bytes := "";
    }

    method Append(s: string)
      modifies this
      ensures bytes == old(bytes) + s
    {
      bytes := bytes + s;
    }
  }

  /** A field is in quotes exactly if it holds a comma, a quote, a carriage return or a line feed. */
  lemma {:induction false} QuotedIfNeeded(f: string)
    ensures ',' !in f && '"' !in f && '\r' !in f && '\n' !in f ==> Field(f) == f
    ensures ',' in f || '"' in f || '\r' in f || '\n' in f ==> Field(f) == "\"" + Doubled(f) + "\""
  {
  }

  /** Doubling leaves what has no quote, and puts two for each quote. */
  lemma {:induction false} DoubledIs(f: string, g: string)
    ensures '"' !in f ==> Doubled(f) == f
    ensures Doubled(f + "\"" + g) == Doubled(f) + "\"\"" + Doubled(g)
  {
    if f == "" {
      assert f + "\"" + g == "\"" + g && ("\"" + g)[1..] == g;
    } else {
      DoubledIs(f[1..], g);
      assert f == [f[0]] + f[1..] && (f + "\"" + g)[1..] == f[1..] + "\"" + g;
      Regroup(Escape(f[0]), Doubled(f[1..]), "\"\"" + Doubled(g));
      Regroup(Doubled(f[1..]), "\"\"", Doubled(g));
      Regroup(Doubled(f), "\"\"", Doubled(g));
    }
  }

  lemma {:induction false} DoubledOneMore(f: string, i: nat)
    requires i < |f|
    ensures Doubled(f[..i + 1]) == Doubled(f[..i]) + Escape(f[i])
    decreases i
  {
    if i == 0 {
      assert f[..1][1..] == "" && f[..0] == "";
    } else {
      assert f[..i + 1][1..] == f[1..][..i] && f[..i][1..] == f[1..][..i - 1];
      DoubledOneMore(f[1..], i - 1);
      Regroup(Escape(f[0]), Doubled(f[1..][..i - 1]), Escape(f[i]));
    }
  }

  method EscapeChar(out: ByteArray, c: char)
    modifies out
    ensures out.bytes == old(out.bytes) + Escape(c)
  {
    if c == '"' {
      out.Append("\"");
    }
    out.Append([c]);
  }

  method CsvField(out: ByteArray, f: string)
    modifies out
    ensures out.bytes == old(out.bytes) + Field(f)
  {
    var quote := exists i :: 0 <= i < |f| && Special(f[i]);
    if !quote {
      out.Append(f);
      return;
    }
    QuotedField(out, f);
    Regroup(old(out.bytes), "\"", Doubled(f));
    Regroup(old(out.bytes), "\"" + Doubled(f), "\"");
  }

  method QuotedField(out: ByteArray, f: string)
    modifies out
    ensures out.bytes == ((old(out.bytes) + "\"") + Doubled(f)) + "\""
  {
    out.Append("\"");
    ghost var start := out.bytes;
    for i := 0 to |f|
      invariant out.bytes == start + Doubled(f[..i])
    {
      EscapeChar(out, f[i]);
      DoubledOneMore(f, i);
      Regroup(start, Doubled(f[..i]), Escape(f[i]));
    }
    assert f[..|f|] == f;
    out.Append("\"");
  }

  lemma {:induction false} TailOneMore(fields: seq<string>, i: nat)
    requires i < |fields|
    ensures Tail(fields[..i + 1]) == Tail(fields[..i]) + ("," + Field(fields[i]))
    decreases i
  {
    if i == 0 {
      assert fields[..1][1..] == [] && fields[..0] == [];
    } else {
      assert fields[..i + 1][1..] == fields[1..][..i] && fields[..i][1..] == fields[1..][..i - 1];
      TailOneMore(fields[1..], i - 1);
      Regroup("," + Field(fields[0]), Tail(fields[1..][..i - 1]), "," + Field(fields[i]));
    }
  }

  lemma {:induction false} JoinedOneMore(fields: seq<string>, i: nat)
    requires i < |fields|
    ensures Joined(fields[..i + 1]) == Joined(fields[..i]) + ((if i == 0 then "" else ",") + Field(fields[i]))
  {
    if i == 0 {
      assert fields[..1][1..] == [];
    } else {
      assert fields[..i + 1][1..] == fields[1..][..i] && fields[..i][1..] == fields[1..][..i - 1];
      TailOneMore(fields[1..], i - 1);
      Regroup(Field(fields[0]), Tail(fields[1..][..i - 1]), "," + Field(fields[i]));
    }
  }

  method NextField(out: ByteArray, first: bool, f: string)
    modifies out
    ensures out.bytes == old(out.bytes) + ((if first then "" else ",") + Field(f))
  {
    if !first {
      out.Append(",");
    }
    CsvField(out, f);
  }

  method CsvRecord(out: ByteArray, fields: seq<string>)
    modifies out
    ensures out.bytes == old(out.bytes) + Record(fields)
  {
    ghost var start := out.bytes;
    for i := 0 to |fields|
      invariant out.bytes == start + Joined(fields[..i])
    {
      NextField(out, i == 0, fields[i]);
      JoinedOneMore(fields, i);
      Regroup(start, Joined(fields[..i]), (if i == 0 then "" else ",") + Field(fields[i]));
    }
    assert fields[..|fields|] == fields;
    out.Append("\r\n");
    Regroup(start, Joined(fields), "\r\n");
  }

  lemma {:induction false} RecordsOneMore(rows: seq<seq<string>>, i: nat)
    requires i < |rows|
    ensures Records(rows[..i + 1]) == Records(rows[..i]) + Record(rows[i])
    decreases i
  {
    if i == 0 {
      assert rows[..1][1..] == [] && rows[..0] == [];
    } else {
      assert rows[..i + 1][1..] == rows[1..][..i] && rows[..i][1..] == rows[1..][..i - 1];
      RecordsOneMore(rows[1..], i - 1);
      Regroup(Record(rows[0]), Records(rows[1..][..i - 1]), Record(rows[i]));
    }
  }

  lemma {:induction false} HeaderFirst(header: seq<string>, rows: seq<seq<string>>)
    ensures Records([header] + rows) == Record(header) + Records(rows)
  {
    assert ([header] + rows)[1..] == rows;
  }

  method CsvRecords(out: ByteArray, rows: seq<seq<string>>)
    modifies out
    ensures out.bytes == old(out.bytes) + Records(rows)
  {
    ghost var start := out.bytes;
    for i := 0 to |rows|
      invariant out.bytes == start + Records(rows[..i])
    {
      CsvRecord(out, rows[i]);
      RecordsOneMore(rows, i);
      Regroup(start, Records(rows[..i]), Record(rows[i]));
    }
    assert rows[..|rows|] == rows;
  }

  method ToCsv(table: Table) returns (text: string)
    ensures text == Records([table.header] + table.rows)
  {
    var out := new ByteArray();
    CsvRecord(out, table.header);
    assert out.bytes == Record(table.header);
    CsvRecords(out, table.rows);
    HeaderFirst(table.header, table.rows);
    text := out.bytes;
  }

  // ----- the reader

  /** A field without quotes: what comes before the next special byte. */
  function ReadPlain(s: string): Read<string> {
    if s == "" || Special(s[0]) then Read("", s)
    else var more := ReadPlain(s[1..]); Read([s[0]] + more.got, more.rest)
  }

  /** The inside of a quoted field: two quotes are one, and one ends it. */
  function ReadQuoted(s: string): Option<Read<string>> {
    if s == "" then None
    else if s[0] != '"' then Longer(s[0], ReadQuoted(s[1..]))
    else if |s| > 1 && s[1] == '"' then Longer('"', ReadQuoted(s[2..]))
    else Some(Read("", s[1..]))
  }

  function Longer(c: char, read: Option<Read<string>>): Option<Read<string>> {
    match read
    case None => None
    case Some(r) => Some(Read([c] + r.got, r.rest))
  }

  function ReadField(s: string): (read: Option<Read<string>>)
    ensures read.Some? ==> |read.value.rest| <= |s|
  {
    ReadShrinks(s);
    if s != "" && s[0] == '"' then ReadQuoted(s[1..]) else Some(ReadPlain(s))
  }

  lemma {:induction false} PlainShrinks(s: string)
    ensures |ReadPlain(s).rest| <= |s|
  {
    if s != "" {
      PlainShrinks(s[1..]);
    }
  }

  lemma {:induction false} QuotedShrinks(s: string)
    ensures ReadQuoted(s).Some? ==> |ReadQuoted(s).value.rest| <= |s|
    decreases |s|
  {
    if s != "" {
      QuotedShrinks(s[1..]);
      if |s| > 1 {
        QuotedShrinks(s[2..]);
      }
    }
  }

  lemma {:induction false} ReadShrinks(s: string)
    ensures |ReadPlain(s).rest| <= |s|
    ensures s != "" && ReadQuoted(s[1..]).Some? ==> |ReadQuoted(s[1..]).value.rest| <= |s|
  {
    PlainShrinks(s);
    if s != "" {
      QuotedShrinks(s[1..]);
    }
  }

  /** One field, then a comma and more, or the end of the record: a line break, or the end of the file. */
  function ReadRecord(s: string): (read: Option<Read<seq<string>>>)
    ensures read.Some? ==> |read.value.rest| <= |s| && (s != "" ==> |read.value.rest| < |s|)
    decreases |s|
  {
    match ReadField(s)
    case None => None
    case Some(f) =>
      if f.rest == "" then Some(Read([f.got], ""))
      else if f.rest[0] == ',' then
        (match ReadRecord(f.rest[1..])
         case None => None
         case Some(more) => Some(Read([f.got] + more.got, more.rest)))
      else if |f.rest| > 1 && f.rest[0] == '\r' && f.rest[1] == '\n' then Some(Read([f.got], f.rest[2..]))
      else None
  }

  /** Records to the end of the file; the last one may or may not end with a line break. */
  function ReadFile(s: string): Option<seq<seq<string>>>
    decreases |s|
  {
    if s == "" then Some([])
    else
      match ReadRecord(s)
      case None => None
      case Some(r) =>
        match ReadFile(r.rest)
        case None => None
        case Some(more) => Some([r.got] + more)
  }

  // ----- reading back what was printed

  lemma {:induction false} PlainReadsBack(f: string, rest: string)
    requires Plain(f) && (rest == "" || Special(rest[0]))
    ensures ReadPlain(f + rest) == Read(f, rest)
  {
    if f == "" {
      assert f + rest == rest;
    } else {
      assert (f + rest)[1..] == f[1..] + rest;
      PlainReadsBack(f[1..], rest);
      assert f == [f[0]] + f[1..];
    }
  }

  lemma {:induction false} QuotedReadsBack(f: string, rest: string)
    requires rest == "" || rest[0] != '"'
    ensures ReadQuoted(Doubled(f) + "\"" + rest) == Some(Read(f, rest))
  {
    var s := Doubled(f) + "\"" + rest;
    if f == "" {
      assert s == "\"" + rest;
      assert s[1..] == rest;
    } else {
      QuotedReadsBack(f[1..], rest);
      var more := Doubled(f[1..]) + "\"" + rest;
      assert s == Escape(f[0]) + more;
      if f[0] == '"' {
        assert s[2..] == more;
      } else {
        assert s[1..] == more;
      }
      assert f == [f[0]] + f[1..];
    }
  }

  lemma {:induction false} QuotedFieldReadsBack(f: string, rest: string)
    requires rest == "" || rest[0] != '"'
    ensures ReadField(("\"" + Doubled(f) + "\"") + rest) == Some(Read(f, rest))
  {
    var s := ("\"" + Doubled(f) + "\"") + rest;
    QuotedReadsBack(f, rest);
    assert s[1..] == Doubled(f) + "\"" + rest;
  }

  lemma {:induction false} PlainFieldReadsBack(f: string, rest: string)
    requires Plain(f) && (rest == "" || (Special(rest[0]) && rest[0] != '"'))
    ensures ReadField(f + rest) == Some(Read(f, rest))
  {
    PlainReadsBack(f, rest);
    if f == "" {
      assert f + rest == rest;
    } else {
      assert (f + rest)[0] == f[0];
    }
  }

  lemma {:induction false} FieldReadsBack(f: string, rest: string)
    requires rest == "" || (Special(rest[0]) && rest[0] != '"')
    ensures ReadField(Field(f) + rest) == Some(Read(f, rest))
  {
    if Plain(f) {
      PlainFieldReadsBack(f, rest);
    } else {
      QuotedFieldReadsBack(f, rest);
    }
  }

  /** A record of no fields is printed like a record of one empty field. */
  function AsRead(fields: seq<string>): seq<string> {
    if fields == [] then [""] else fields
  }

  lemma {:induction false} TailStart(fields: seq<string>, rest: string)
    requires fields != []
    ensures Tail(fields) + rest == "," + (Joined(fields) + rest)
  {
  }

  lemma {:induction false} RecordReadsBack(fields: seq<string>, rest: string)
    requires fields != []
    ensures ReadRecord(Joined(fields) + ("\r\n" + rest)) == Some(Read(fields, rest))
    decreases |fields|
  {
    var f, more := fields[0], fields[1..];
    var after := Tail(more) + ("\r\n" + rest);
    Regroup(Field(f), Tail(more), "\r\n" + rest);
    if more == [] {
      assert after == "\r\n" + rest;
      FieldReadsBack(f, after);
      assert after[2..] == rest;
      assert fields == [f];
    } else {
      TailStart(more, "\r\n" + rest);
      FieldReadsBack(f, after);
      assert after[1..] == Joined(more) + ("\r\n" + rest);
      RecordReadsBack(more, rest);
      assert fields == [f] + more;
    }
  }

  lemma {:induction false} AnyRecordReadsBack(fields: seq<string>, rest: string)
    ensures ReadRecord(Record(fields) + rest) == Some(Read(AsRead(fields), rest)) && Record(fields) + rest != ""
  {
    Regroup(Joined(fields), "\r\n", rest);
    if fields == [] {
      FieldReadsBack("", "\r\n" + rest);
      assert ("\r\n" + rest)[2..] == rest;
      assert Field("") + ("\r\n" + rest) == "\r\n" + rest;
    } else {
      RecordReadsBack(fields, rest);
    }
  }

  function AllAsRead(rows: seq<seq<string>>): (read: seq<seq<string>>)
    ensures |read| == |rows| && forall i | 0 <= i < |rows| :: read[i] == AsRead(rows[i])
  {
    if rows == [] then [] else [AsRead(rows[0])] + AllAsRead(rows[1..])
  }

  /** Whatever the cells hold, the file reads back as the records that were printed. */
  lemma {:induction false} FileReadsBack(rows: seq<seq<string>>)
    ensures ReadFile(Records(rows)) == Some(AllAsRead(rows))
  {
    if rows != [] {
      AnyRecordReadsBack(rows[0], Records(rows[1..]));
      FileReadsBack(rows[1..]);
    }
  }

  /** A table comes back exactly if each of its records, the header too, has a field. */
  lemma {:induction false} TableReadsBack(table: Table)
    ensures ReadFile(Records([table.header] + table.rows)) == Some([table.header] + table.rows)
       <==> table.header != [] && forall i | 0 <= i < |table.rows| :: table.rows[i] != []
  {
    var all := [table.header] + table.rows;
    FileReadsBack(all);
    if AllAsRead(all) == all {
      forall i | 0 <= i < |all| ensures all[i] != [] {
        assert AllAsRead(all)[i] == AsRead(all[i]);
      }
      assert all[0] == table.header;
      assert forall i | 0 <= i < |table.rows| :: all[i + 1] == table.rows[i];
    }
  }

  /** Two tables whose records have fields print alike only if they are the same table. */
  lemma {:induction false} PrintedApart(t: Table, u: Table)
    requires t.header != [] && forall i | 0 <= i < |t.rows| :: t.rows[i] != []
    requires u.header != [] && forall i | 0 <= i < |u.rows| :: u.rows[i] != []
    requires Records([t.header] + t.rows) == Records([u.header] + u.rows)
    ensures t == u
  {
    TableReadsBack(t);
    TableReadsBack(u);
    assert ([t.header] + t.rows)[0] == ([u.header] + u.rows)[0];
    assert ([t.header] + t.rows)[1..] == t.rows && ([u.header] + u.rows)[1..] == u.rows;
  }
}
