/** `pandas.DataFrame(data=value).to_csv(index=False)` for the shape the
    converter is meant for, a list of flat records; the shapes for which
    the DataFrame constructor raises; and a reader for the written table,
    which is the writer's inverse. */
module CsvEmit {
  import opened Results
  import opened Strings
  import opened Decimal
  import opened JsonValue

  /** An object whose values are all scalars: one row of the table. */
  predicate FlatRecord(v: Json) {
    v.Object? && forall i :: 0 <= i < |v.members| ==> IsScalar(v.members[i].value)
  }

  predicate AllFlat(rows: seq<Json>) {
    forall i :: 0 <= i < |rows| ==> FlatRecord(rows[i])
  }

  /** Every key of every row, row by row, repeats included. */
  function AllKeys(rows: seq<Json>): seq<string>
    requires AllFlat(rows)
  {
    if rows == [] then [] else Keys(rows[0].members) + AllKeys(rows[1..])
  }

  /** The distinct strings of `s`, each at the place it first occurs. */
  function Dedup(s: seq<string>): (r: seq<string>)
    ensures forall i, j :: 0 <= i < j < |r| ==> r[i] != r[j]
    ensures forall x :: x in r <==> x in s
  {
    if s == [] then []
    else
      var p := s[..|s| - 1];
      var x := s[|s| - 1];
      assert s == p + [x];
      var d := Dedup(p);
      if x in d then d else d + [x]
  }

  /** The columns pandas builds for a list of dicts: the union of their
      keys in the order they are first met, without sorting. */
  function Columns(rows: seq<Json>): (r: seq<string>)
    requires AllFlat(rows)
    ensures forall i, j :: 0 <= i < j < |r| ==> r[i] != r[j]
    ensures forall c :: c in r <==> c in AllKeys(rows)
  {
    Dedup(AllKeys(rows))
  }

  /** One cell as `to_csv` writes it: null and a missing key are empty,
      booleans as Python spells them, ints in decimal, floats as `repr`
      writes them, strings as they are. */
  function Cell(v: Json): (r: string)
    requires IsScalar(v)
    ensures r == [] <==> v.Null? || v == Str([]) || v == Float([])
  {
    match v
    case Null => ""
    case Bool(b) => if b then "True" else "False"
    case Int(i) => IntToString(i)
    case Float(t) => t
    case Str(s) => s
  }

  /** The value stored under `k`, the first one when there are several. */
  function Lookup(ms: seq<Member>, k: string): (r: Option<Json>)
    ensures r.None? <==> k !in Keys(ms)
    ensures r.Some? ==> exists i :: 0 <= i < |ms| && ms[i] == Member(k, r.value)
  {
    if ms == [] then None
    else if ms[0].key == k then Some(ms[0].value)
    else
      var r := Lookup(ms[1..], k);
      assert Keys(ms) == [ms[0].key] + Keys(ms[1..]);
      r
  }

  /** The field of a row under column `k`: empty exactly when the row
      lacks the key or holds null or an empty text there. */
  function Field(row: Json, k: string): (r: string)
    requires FlatRecord(row)
    ensures var found := Lookup(row.members, k);
      r == [] <==> found.None? || found.value.Null? || found.value == Str([]) || found.value == Float([])
  {
    match Lookup(row.members, k)
    case None => ""
    case Some(v) => Cell(v)
  }

  function Fields(row: Json, cols: seq<string>): seq<string>
    requires FlatRecord(row)
  {
    seq(|cols|, k requires 0 <= k < |cols| => Field(row, cols[k]))
  }

  /** The header row followed by one row of fields per record. */
  function Table(rows: seq<Json>): (t: seq<seq<string>>)
    requires AllFlat(rows)
    ensures |t| == |rows| + 1 && t[0] == Columns(rows)
    ensures forall i :: 0 <= i < |t| ==> |t[i]| == |Columns(rows)|
  {
    var cols := Columns(rows);
    [cols] + seq(|rows|, i requires 0 <= i < |rows| => Fields(rows[i], cols))
  }

  /** One line as `csv.writer` writes it with minimal quoting: a record
      made of a single empty field is written `""`, so that it does not
      read back as a blank line. */
  function Record(fs: seq<string>): string {
    if fs == [""] then "\"\"" else Join(fs, ',')
  }

  function Lines(t: seq<seq<string>>): seq<string> {
    seq(|t|, i requires 0 <= i < |t| => Record(t[i]))
  }

  /** The whole file: every line ends with `"\n"`. */
  function ToCsv(rows: seq<Json>): (r: string)
    requires AllFlat(rows)
    ensures |r| > 0 && r[|r| - 1] == '\n'
  {
    Join(Lines(Table(rows)), '\n') + "\n"
  }

  /** A field the writer does not quote: no delimiter, quote or line break. */
  predicate CsvField(s: string) {
    Avoids(s, ',') && Avoids(s, '"') && Avoids(s, '\n') && Avoids(s, '\r')
  }

  predicate CleanRecord(row: Json)
    requires row.Object?
  {
    forall i :: 0 <= i < |row.members| ==>
      CsvField(row.members[i].key) && (row.members[i].value.Str? ==> CsvField(row.members[i].value.s))
  }

  /** pandas stores a column that holds an int beside a missing cell, a
      null or a float as float64, and then writes `2024.0`. The model keeps
      to columns where that does not happen. */
  predicate IntColumnExact(rows: seq<Json>, c: string)
    requires AllFlat(rows)
  {
    forall i, j :: 0 <= i < |rows| && 0 <= j < |rows| && Lookup(rows[i].members, c).Some? && Lookup(rows[i].members, c).value.Int? ==>
      Lookup(rows[j].members, c).Some? && !Lookup(rows[j].members, c).value.Null? && !Lookup(rows[j].members, c).value.Float?
  }

  /** The shape the converter handles: a non-empty list of flat records
      with at least one key, fields that need no quoting, and no int
      column that pandas would turn into floats. */
  predicate RecordList(v: Json) {
    v.Array? && |v.items| > 0 && Valid(v) && AllFlat(v.items) &&
    (forall i :: 0 <= i < |v.items| ==> CleanRecord(v.items[i])) &&
    |Columns(v.items)| > 0 &&
    forall k :: 0 <= k < |Columns(v.items)| ==> IntColumnExact(v.items, Columns(v.items)[k])
  }

  /** The inputs for which the DataFrame constructor raises: a bare
      scalar other than null, and a non-empty object whose values are all
      scalars (pandas then asks for an index). */
  predicate PandasRejects(v: Json) {
    (IsScalar(v) && !v.Null?) || (FlatRecord(v) && |v.members| > 0)
  }

  /** `pd.DataFrame(data=v).to_csv(index=False)`, `None` when pandas raises. */
  function DataFrameCsv(v: Json): (r: Option<string>)
    requires RecordList(v) || PandasRejects(v)
    ensures r.Some? <==> RecordList(v)
    ensures r.Some? ==> ReadCsv(r.value) == Some(Table(v.items))
  {
    if RecordList(v) then
      CsvRoundTrip(v.items);
      Some(ToCsv(v.items))
    else None
  }

  /** Reads one line back into fields. */
  function ReadRecord(line: string): seq<string> {
    if line == "\"\"" then [""] else Split(line, ',')
  }

  /** Reads a file whose lines all end with `"\n"` back into its rows. */
  function ReadCsv(text: string): Option<seq<seq<string>>> {
    if text == [] || text[|text| - 1] != '\n' then None
    else
      var lines := Split(text[..|text| - 1], '\n');
      Some(seq(|lines|, i requires 0 <= i < |lines| => ReadRecord(lines[i])))
  }

  /** Every key of every row is among the keys collected. */
  lemma {:induction false} KeyInAllKeys(rows: seq<Json>, i: nat, k: nat)
    requires AllFlat(rows) && i < |rows| && k < |rows[i].members|
    ensures rows[i].members[k].key in AllKeys(rows)
  {
    var head := Keys(rows[0].members);
    assert AllKeys(rows) == head + AllKeys(rows[1..]);
    if i == 0 {
      assert rows[0].members[k].key == head[k];
    } else {
      assert rows[i] == rows[1..][i - 1];
      KeyInAllKeys(rows[1..], i - 1, k);
    }
  }

  /** Every key collected is a key of some row. */
  lemma {:induction false} AllKeysFrom(rows: seq<Json>, c: string) returns (i: nat, k: nat)
    requires AllFlat(rows) && c in AllKeys(rows)
    ensures i < |rows| && k < |rows[i].members| && rows[i].members[k].key == c
  {
    var head := Keys(rows[0].members);
    assert AllKeys(rows) == head + AllKeys(rows[1..]);
    if c in head {
      i := 0;
      k :| k < |head| && head[k] == c;
    } else {
      i, k := AllKeysFrom(rows[1..], c);
      assert rows[1..][i] == rows[i + 1];
      i := i + 1;
    }
  }

  /** A string is a column exactly when it is a key of some row. */
  lemma ColumnsAreKeys(rows: seq<Json>, c: string)
    requires AllFlat(rows)
    ensures c in Columns(rows) <==> exists i, k :: 0 <= i < |rows| && 0 <= k < |rows[i].members| && rows[i].members[k].key == c
  {
    if c in Columns(rows) {
      var i, k := AllKeysFrom(rows, c);
    }
    if exists i, k :: 0 <= i < |rows| && 0 <= k < |rows[i].members| && rows[i].members[k].key == c {
      var i, k :| 0 <= i < |rows| && 0 <= k < |rows[i].members| && rows[i].members[k].key == c;
      KeyInAllKeys(rows, i, k);
    }
  }

  /** Columns come in the order in which their keys are first met. */
  lemma {:induction false} DedupOrder(s: seq<string>)
    ensures forall i, j :: 0 <= i < j < |Dedup(s)| ==> IndexOf(s, Dedup(s)[i]) < IndexOf(s, Dedup(s)[j])
  {
    if s != [] {
      var p := s[..|s| - 1];
      var x := s[|s| - 1];
      assert s == p + [x];
      DedupOrder(p);
      var d := Dedup(p);
      forall y | y in p
        ensures IndexOf(s, y) == IndexOf(p, y) < |p|
      {
        IndexOfExtend(p, [x], y);
      }
      if x !in d {
        IndexOfPrefix(p, [x], x);
        assert Dedup(s) == d + [x];
        forall i, j | 0 <= i < j < |Dedup(s)|
          ensures IndexOf(s, Dedup(s)[i]) < IndexOf(s, Dedup(s)[j])
        {
          assert Dedup(s)[i] == d[i] && d[i] in p;
          if j < |d| {
            assert Dedup(s)[j] == d[j] && d[j] in p;
          }
        }
      } else {
        forall i, j | 0 <= i < j < |d|
          ensures IndexOf(s, d[i]) < IndexOf(s, d[j])
        {
          assert d[i] in p && d[j] in p;
        }
      }
    }
  }

  lemma {:induction false} JoinAvoids(fs: seq<string>, c: char, d: char)
    requires c != d && forall i :: 0 <= i < |fs| ==> Avoids(fs[i], d)
    ensures Avoids(Join(fs, c), d)
  {
    if |fs| > 1 {
      JoinAvoids(fs[1..], c, d);
    }
  }

  /** A line reads back as the fields it was written from. */
  lemma RecordRoundTrip(fs: seq<string>)
    requires fs != [] && forall i :: 0 <= i < |fs| ==> CsvField(fs[i])
    ensures ReadRecord(Record(fs)) == fs
    ensures Avoids(Record(fs), '\n')
  {
    JoinAvoids(fs, ',', '"');
    JoinAvoids(fs, ',', '\n');
    if fs != [""] {
      var line := Join(fs, ',');
      assert line == [] || line[0] != '"';
      SplitJoin(fs, ',');
    }
  }

  /** Number text never needs quoting. */
  lemma NumberFieldClean(t: string)
    requires NumberChars(t)
    ensures CsvField(t)
  {
  }

  /** Ints, floats and booleans never need quoting. */
  lemma CellClean(v: Json)
    requires IsScalar(v) && Valid(v) && (v.Str? ==> CsvField(v.s))
    ensures CsvField(Cell(v))
  {
    match v
    case Float(t) =>
      NumberTextShape(t);
      NumberFieldClean(t);
    case Int(i) =>
      IntTextShape(i);
      NumberFieldClean(IntToString(i));
    case Bool(b) =>
      assert CsvField("True") && CsvField("False");
    case _ =>
  }

  lemma FieldClean(row: Json, c: string)
    requires FlatRecord(row) && Valid(row) && CleanRecord(row)
    ensures CsvField(Field(row, c))
  {
    var r := Lookup(row.members, c);
    if r.Some? {
      var i :| 0 <= i < |row.members| && row.members[i] == Member(c, r.value);
      CellClean(r.value);
    }
  }

  predicate CleanTable(t: seq<seq<string>>) {
    forall i :: 0 <= i < |t| ==> t[i] != [] && forall k :: 0 <= k < |t[i]| ==> CsvField(t[i][k])
  }

  /** Every field of the table, header included, needs no quoting. */
  lemma TableClean(rows: seq<Json>)
    requires AllFlat(rows) && |Columns(rows)| > 0
    requires forall i :: 0 <= i < |rows| ==> Valid(rows[i]) && CleanRecord(rows[i])
    ensures CleanTable(Table(rows))
  {
    var t := Table(rows);
    var cols := Columns(rows);
    HeaderClean(rows);
    forall i | 1 <= i < |t|
      ensures t[i] != [] && forall k :: 0 <= k < |t[i]| ==> CsvField(t[i][k])
    {
      TableRow(rows, i);
      RowClean(rows[i - 1], cols);
    }
  }

  lemma TableRow(rows: seq<Json>, i: nat)
    requires AllFlat(rows) && 1 <= i <= |rows|
    ensures Table(rows)[i] == Fields(rows[i - 1], Columns(rows))
  {
  }

  lemma HeaderClean(rows: seq<Json>)
    requires AllFlat(rows)
    requires forall i :: 0 <= i < |rows| ==> CleanRecord(rows[i])
    ensures forall k :: 0 <= k < |Columns(rows)| ==> CsvField(Columns(rows)[k])
  {
    var cols := Columns(rows);
    forall k | 0 <= k < |cols|
      ensures CsvField(cols[k])
    {
      var r, m := AllKeysFrom(rows, cols[k]);
    }
  }

  lemma RowClean(row: Json, cols: seq<string>)
    requires FlatRecord(row) && Valid(row) && CleanRecord(row)
    ensures forall k :: 0 <= k < |cols| ==> CsvField(Fields(row, cols)[k])
  {
    forall k | 0 <= k < |cols|
      ensures CsvField(Fields(row, cols)[k])
    {
      FieldClean(row, cols[k]);
    }
  }

  /** Writing a table of unquoted fields and reading it back is the identity. */
  lemma LinesRoundTrip(t: seq<seq<string>>)
    requires t != [] && CleanTable(t)
    ensures ReadCsv(Join(Lines(t), '\n') + "\n") == Some(t)
  {
    var lines := Lines(t);
    forall i | 0 <= i < |t|
      ensures ReadRecord(lines[i]) == t[i] && Avoids(lines[i], '\n')
    {
      RecordRoundTrip(t[i]);
    }
    var body := Join(lines, '\n');
    var text := body + "\n";
    assert text[..|text| - 1] == body;
    SplitJoin(lines, '\n');
    assert ReadCsv(text).value == t;
  }

  /** Reading the written file gives back the table: the header, then one
      row per record with the fields in column order. */
  lemma CsvRoundTrip(rows: seq<Json>)
    requires AllFlat(rows) && |Columns(rows)| > 0
    requires forall i :: 0 <= i < |rows| ==> Valid(rows[i]) && CleanRecord(rows[i])
    ensures ReadCsv(ToCsv(rows)) == Some(Table(rows))
  {
    TableClean(rows);
    LinesRoundTrip(Table(rows));
  }
}
