/** The repository's unit-test cases for the JSON tools, stated on the
    value `json.loads` gives for each test input. */
module ToolExamples {
  import opened Results
  import opened Strings
  import opened Decimal
  import opened JsonValue
  import opened KeyOrder
  import opened JsonString
  import opened JsonEncode
  import opened YamlEmit
  import opened CsvEmit
  import opened JsonTools

  /** `{"a": 1, "c": 3, "b": 2, "d": [4, 5]}` */
  function Sample(): Json {
    Shaped('a', 1, 'c', 3, 'b', 2)
  }

  lemma QuoteKey(c: char)
    requires 'a' <= c <= 'z'
    ensures Quote([c]) == "\"" + [c] + "\""
  {
    assert Escape([c]) == EscapeChar(c) + Escape([]);
  }

  lemma IntMember(k: char, i: nat, layout: Layout, depth: nat)
    requires 'a' <= k <= 'z' && i < 10
    ensures EncodeMember(Member([k], Int(i)), layout, depth) == "\"" + [k] + "\": " + [DigitChar(i)]
  {
    QuoteKey(k);
  }

  /** An object of three one-digit ints and the list `[4, 5]` under `d`. */
  function Shaped(k1: char, i1: nat, k2: char, i2: nat, k3: char, i3: nat): Json {
    Object([Member([k1], Int(i1)), Member([k2], Int(i2)), Member([k3], Int(i3)), Member("d", Array([Int(4), Int(5)]))])
  }

  function Entry(k: char, i: nat): string
    requires i < 10
  {
    "\"" + [k] + "\": " + [DigitChar(i)]
  }

  function ListText(layout: Layout): string {
    "[" + Break(layout, 2) + "4" + Separator(layout, 2) + "5" + Break(layout, 1) + "]"
  }

  function ShapedText(layout: Layout, k1: char, i1: nat, k2: char, i2: nat, k3: char, i3: nat): string
    requires i1 < 10 && i2 < 10 && i3 < 10
  {
    var sep := Separator(layout, 1);
    "{" + Break(layout, 1) +
    (Entry(k1, i1) + sep + (Entry(k2, i2) + sep + (Entry(k3, i3) + sep + ("\"d\": " + ListText(layout))))) +
    Break(layout, 0) + "}"
  }

  lemma Items2(x: Json, y: Json, layout: Layout, depth: nat)
    ensures EncodeItems([x, y], layout, depth) == Encode(x, layout, depth) + Separator(layout, depth) + Encode(y, layout, depth)
  {
    assert [x, y][1..] == [y];
  }

  lemma Members4(a: Member, b: Member, c: Member, d: Member, layout: Layout, depth: nat)
    ensures var sep := Separator(layout, depth);
      EncodeMembers([a, b, c, d], layout, depth) ==
      EncodeMember(a, layout, depth) + sep + (EncodeMember(b, layout, depth) + sep +
        (EncodeMember(c, layout, depth) + sep + EncodeMember(d, layout, depth)))
  {
    var sep := Separator(layout, depth);
    assert [a, b, c, d][1..] == [b, c, d];
    assert [b, c, d][1..] == [c, d];
    assert [c, d][1..] == [d];
    assert EncodeMembers([c, d], layout, depth) == EncodeMember(c, layout, depth) + sep + EncodeMember(d, layout, depth);
    assert EncodeMembers([b, c, d], layout, depth) == EncodeMember(b, layout, depth) + sep + EncodeMembers([c, d], layout, depth);
  }

  lemma ListMember(layout: Layout)
    ensures EncodeMember(Member("d", Array([Int(4), Int(5)])), layout, 1) == "\"d\": " + ListText(layout)
  {
    Items2(Int(4), Int(5), layout, 2);
    QuoteKey('d');
  }

  lemma EncodeShaped(layout: Layout, k1: char, i1: nat, k2: char, i2: nat, k3: char, i3: nat)
    requires 'a' <= k1 <= 'z' && 'a' <= k2 <= 'z' && 'a' <= k3 <= 'z'
    requires i1 < 10 && i2 < 10 && i3 < 10
    ensures Encode(Shaped(k1, i1, k2, i2, k3, i3), layout, 0) == ShapedText(layout, k1, i1, k2, i2, k3, i3)
  {
    Members4(Member([k1], Int(i1)), Member([k2], Int(i2)), Member([k3], Int(i3)), Member("d", Array([Int(4), Int(5)])), layout, 1);
    IntMember(k1, i1, layout, 1);
    IntMember(k2, i2, layout, 1);
    IntMember(k3, i3, layout, 1);
    ListMember(layout);
  }

  lemma EntryTexts()
    ensures Entry('a', 1) == "\"a\": 1" && Entry('b', 2) == "\"b\": 2" && Entry('c', 3) == "\"c\": 3"
  {
  }

  lemma ListCompact()
    ensures ListText(Compact) == "[4, 5]"
  {
  }

  lemma CompactText()
    ensures ShapedText(Compact, 'a', 1, 'c', 3, 'b', 2) == "{\"a\": 1, \"c\": 3, \"b\": 2, \"d\": [4, 5]}"
  {
    EntryTexts();
    ListCompact();
  }

  /** The first case of the formatting test: no indent, keys as given. */
  lemma FormatCompactExample()
    ensures FormatJson(Decoded(Sample()), None, false) == Ok("{\"a\": 1, \"c\": 3, \"b\": 2, \"d\": [4, 5]}")
  {
    EncodeShaped(Compact, 'a', 1, 'c', 3, 'b', 2);
    CompactText();
  }

  // YAML

  lemma Mapping4(a: Member, b: Member, c: Member, d: Member)
    ensures Mapping([a, b, c, d], 0) ==
      a.key + ":" + Value(a.value, 0) + "\n" + (b.key + ":" + Value(b.value, 0) + "\n" +
        (c.key + ":" + Value(c.value, 0) + "\n" + (d.key + ":" + Value(d.value, 0))))
  {
    assert [a, b, c, d][1..] == [b, c, d];
    assert [b, c, d][1..] == [c, d];
    assert [c, d][1..] == [d];
    MappingCons([a, b, c, d]);
    MappingCons([b, c, d]);
    MappingCons([c, d]);
  }

  lemma MappingCons(ms: seq<Member>)
    requires |ms| > 1
    ensures Mapping(ms, 0) == ms[0].key + ":" + Value(ms[0].value, 0) + "\n" + Mapping(ms[1..], 0)
  {
    assert Spaces(0) == "";
  }

  lemma SequenceOfTwo(x: Json, y: Json)
    requires IsAtomic(x) && IsAtomic(y)
    ensures Value(Array([x, y]), 0) == "\n- " + YamlScalar(x) + "\n- " + YamlScalar(y)
  {
    var tx := YamlScalar(x);
    var ty := YamlScalar(y);
    TwoItems(x, y);
    SequenceValue([x, y]);
    TwoItemsText(tx, ty);
  }

  lemma SequenceValue(items: seq<Json>)
    requires items != []
    ensures Value(Array(items), 0) == "\n" + Sequence(items, 0)
  {
    assert Spaces(0) == "";
  }

  lemma TwoItems(x: Json, y: Json)
    requires IsAtomic(x) && IsAtomic(y)
    ensures Sequence([x, y], 0) == (("- " + YamlScalar(x)) + "\n") + ("- " + YamlScalar(y))
  {
    SequenceOfOne(y);
    assert [x, y][1..] == [y];
    assert Node(x, 2) == YamlScalar(x);
    assert Spaces(0) == "";
  }

  lemma TwoItemsText(a: string, b: string)
    ensures "\n" + ((("- " + a) + "\n") + ("- " + b)) == "\n- " + a + "\n- " + b
  {
    TwoItemsRegroup("\n", "- ", a, b);
    assert "\n" + "- " == "\n- ";
  }

  lemma TwoItemsRegroup(n: string, d: string, a: string, b: string)
    ensures n + (((d + a) + n) + (d + b)) == (((n + d) + a) + (n + d)) + b
  {
  }

  lemma SequenceOfOne(y: Json)
    requires IsAtomic(y)
    ensures Sequence([y], 0) == "- " + YamlScalar(y)
  {
    assert Node(y, 2) == YamlScalar(y);
  }

  /** A one-letter key is a plain YAML string: no reserved word has one letter. */
  lemma LetterKeySafe(k: char)
    requires 'a' <= k <= 'z'
    ensures PlainSafe([k])
  {
    assert forall w :: w in ReservedWords ==> |w| > 1;
  }

  lemma ShapedSafe(k1: char, i1: nat, k2: char, i2: nat, k3: char, i3: nat)
    requires 'a' <= k1 <= 'c' && 'a' <= k2 <= 'c' && 'a' <= k3 <= 'c' && k1 != k2 && k1 != k3 && k2 != k3
    ensures Valid(Shaped(k1, i1, k2, i2, k3, i3)) && YamlSafe(Shaped(k1, i1, k2, i2, k3, i3))
  {
    LetterKeySafe(k1);
    LetterKeySafe(k2);
    LetterKeySafe(k3);
    LetterKeySafe('d');
    var v := Shaped(k1, i1, k2, i2, k3, i3);
    assert YamlSafe(v.members[3].value);
  }

  lemma YamlShapedNode(k1: char, i1: nat, k2: char, i2: nat, k3: char, i3: nat)
    requires i1 < 10 && i2 < 10 && i3 < 10
    ensures Node(Shaped(k1, i1, k2, i2, k3, i3), 0) ==
      [k1] + ":" + (" " + [DigitChar(i1)]) + "\n" + ([k2] + ":" + (" " + [DigitChar(i2)]) + "\n" +
        ([k3] + ":" + (" " + [DigitChar(i3)]) + "\n" + ("d" + ":" + ("\n- " + "4" + "\n- " + "5"))))
  {
    Mapping4(Member([k1], Int(i1)), Member([k2], Int(i2)), Member([k3], Int(i3)), Member("d", Array([Int(4), Int(5)])));
    SequenceOfTwo(Int(4), Int(5));
    assert YamlScalar(Int(4)) == "4" && YamlScalar(Int(5)) == "5";
    assert Value(Int(i1), 0) == " " + [DigitChar(i1)];
    assert Value(Int(i2), 0) == " " + [DigitChar(i2)];
    assert Value(Int(i3), 0) == " " + [DigitChar(i3)];
  }

  lemma FourLines(a: string, b: string, c: string, d: string)
    ensures a + "\n" + (b + "\n" + (c + "\n" + d)) + "\n" == (a + "\n") + (b + "\n") + (c + "\n") + (d + "\n")
  {
  }

  lemma YamlShaped(k1: char, i1: nat, k2: char, i2: nat, k3: char, i3: nat)
    requires 'a' <= k1 <= 'c' && 'a' <= k2 <= 'c' && 'a' <= k3 <= 'c' && k1 != k2 && k1 != k3 && k2 != k3
    ensures Valid(Shaped(k1, i1, k2, i2, k3, i3)) && YamlSafe(Shaped(k1, i1, k2, i2, k3, i3))
    ensures ConvertJsonToYaml(Decoded(Shaped(k1, i1, k2, i2, k3, i3))) == Ok(Node(Shaped(k1, i1, k2, i2, k3, i3), 0) + "\n")
  {
    ShapedSafe(k1, i1, k2, i2, k3, i3);
    ToYamlIsNode(Shaped(k1, i1, k2, i2, k3, i3));
  }

  lemma EntryLine(k: char, i: nat, c: char)
    requires i < 10 && c == "0123456789"[i]
    ensures [k] + ":" + (" " + [DigitChar(i)]) + "\n" == [k, ':', ' ', c, '\n']
  {
  }

  /** The last case of the YAML test, on `Sample()`: keys in their own
      order, the list under `d` as `- ` lines at the key's indent. */
  lemma YamlSampleExample(k1: char, i1: nat, k2: char, i2: nat, k3: char, i3: nat)
    requires k1 == 'a' && i1 == 1 && k2 == 'c' && i2 == 3 && k3 == 'b' && i3 == 2
    ensures Shaped(k1, i1, k2, i2, k3, i3) == Sample()
    ensures YamlSafe(Shaped(k1, i1, k2, i2, k3, i3))
    ensures ConvertJsonToYaml(Decoded(Shaped(k1, i1, k2, i2, k3, i3))) ==
      Ok("a: 1\n" + "c: 3\n" + "b: 2\n" + "d:\n- 4\n- 5\n")
  {
    var l1 := [k1] + ":" + (" " + [DigitChar(i1)]);
    var l2 := [k2] + ":" + (" " + [DigitChar(i2)]);
    var l3 := [k3] + ":" + (" " + [DigitChar(i3)]);
    var l4 := "d" + ":" + ("\n- " + "4" + "\n- " + "5");
    EntryLine(k1, i1, '1');
    EntryLine(k2, i2, '3');
    EntryLine(k3, i3, '2');
    assert l4 + "\n" == "d:\n- 4\n- 5\n";
    FourLines(l1, l2, l3, l4);
    YamlShaped(k1, i1, k2, i2, k3, i3);
    YamlShapedNode(k1, i1, k2, i2, k3, i3);
  }

  /** A scalar, `[]` or `{}` at the root is its text and one newline. */
  lemma YamlAtomic(v: Json)
    requires IsAtomic(v) && Valid(v) && YamlSafe(v)
    ensures ConvertJsonToYaml(Decoded(v)) == Ok(YamlScalar(v) + "\n")
  {
    ToYamlIsNode(v);
  }

  /** The scalar cases of the YAML test, one pair of input value and
      expected text per case. */
  lemma YamlScalarExample(v: Json, text: string)
    requires || (v == Int(0) && text == "0\n")
             || (v == Str("a") && text == "a\n")
             || (v == Bool(true) && text == "true\n")
             || (v == Bool(false) && text == "false\n")
             || (v == Null && text == "null\n")
    ensures Valid(v) && YamlSafe(v)
    ensures ConvertJsonToYaml(Decoded(v)) == Ok(text)
  {
    if v == Str("a") {
      LetterKeySafe('a');
    }
    YamlAtomic(v);
    ScalarTexts(v, text);
  }

  lemma ScalarTexts(v: Json, text: string)
    requires || (v == Int(0) && text == "0\n")
             || (v == Str("a") && text == "a\n")
             || (v == Bool(true) && text == "true\n")
             || (v == Bool(false) && text == "false\n")
             || (v == Null && text == "null\n")
    ensures IsAtomic(v) && YamlScalar(v) + "\n" == text
  {
    if v == Int(0) {
      assert NatToString(0) == [DigitChar(0)];
    }
  }

  /** The empty list and the empty object at the root are written in flow
      style, as in the YAML test. */
  lemma YamlEmptyExample(v: Json, text: string)
    requires (v == Array([]) && text == "[]\n") || (v == Object([]) && text == "{}\n")
    ensures Valid(v) && YamlSafe(v)
    ensures ConvertJsonToYaml(Decoded(v)) == Ok(text)
  {
    YamlAtomic(v);
    assert YamlScalar(v) + "\n" == text;
  }

  // CSV

  function Car(model: string, year: int): Json {
    Object([Member("Model", Str(model)), Member("Year", Int(year))])
  }

  lemma DedupTwice(x: string, y: string)
    requires x != y
    ensures Dedup([x, y, x, y]) == [x, y]
  {
    assert [x, y, x, y][..3] == [x, y, x];
    assert [x, y, x][..2] == [x, y];
    assert [x, y][..1] == [x];
    assert [x][..0] == [];
    assert Dedup([x]) == [x];
    assert Dedup([x, y]) == [x, y];
  }

  lemma CarColumns(m1: string, y1: int, m2: string, y2: int)
    ensures AllFlat([Car(m1, y1), Car(m2, y2)])
    ensures Columns([Car(m1, y1), Car(m2, y2)]) == ["Model", "Year"]
  {
    var rows := [Car(m1, y1), Car(m2, y2)];
    var keys := ["Model", "Year"];
    assert rows[1..] == [Car(m2, y2)] && rows[1..][1..] == [];
    assert Keys(Car(m1, y1).members) == keys;
    assert Keys(Car(m2, y2).members) == keys;
    assert AllKeys(rows[1..][1..]) == [];
    assert AllKeys(rows[1..]) == keys + [];
    assert AllKeys(rows) == keys + (keys + []);
    assert keys + (keys + []) == ["Model", "Year", "Model", "Year"];
    DedupTwice("Model", "Year");
  }

  lemma CarFields(model: string, year: int)
    ensures Fields(Car(model, year), ["Model", "Year"]) == [model, IntToString(year)]
  {
    var ms := Car(model, year).members;
    assert Lookup(ms, "Model") == Some(Str(model));
    assert ms[1..] == [Member("Year", Int(year))];
    assert Lookup(ms, "Year") == Some(Int(year));
  }

  lemma CarTable(m1: string, y1: int, m2: string, y2: int)
    ensures AllFlat([Car(m1, y1), Car(m2, y2)])
    ensures Table([Car(m1, y1), Car(m2, y2)]) == [["Model", "Year"], [m1, IntToString(y1)], [m2, IntToString(y2)]]
  {
    CarColumns(m1, y1, m2, y2);
    CarFields(m1, y1);
    CarFields(m2, y2);
  }

  lemma Join2(a: string, b: string, sep: char)
    ensures Join([a, b], sep) == a + [sep] + b
  {
    assert [a, b][1..] == [b];
  }

  lemma Join3(a: string, b: string, c: string, sep: char)
    ensures Join([a, b, c], sep) == a + [sep] + (b + [sep] + c)
  {
    assert [a, b, c][1..] == [b, c];
    Join2(b, c, sep);
  }

  lemma CarText(m1: string, y1: int, m2: string, y2: int)
    requires m1 != "" && m2 != ""
    ensures ToCsv([Car(m1, y1), Car(m2, y2)]) ==
      "Model,Year" + "\n" + (m1 + "," + IntToString(y1) + "\n" + (m2 + "," + IntToString(y2))) + "\n"
  {
    CarTable(m1, y1, m2, y2);
    var t := Table([Car(m1, y1), Car(m2, y2)]);
    Join2("Model", "Year", ',');
    Join2(m1, IntToString(y1), ',');
    Join2(m2, IntToString(y2), ',');
    assert Record(t[0]) == "Model,Year";
    assert Record(t[1]) == m1 + "," + IntToString(y1);
    assert Record(t[2]) == m2 + "," + IntToString(y2);
    assert Lines(t) == ["Model,Year", m1 + "," + IntToString(y1), m2 + "," + IntToString(y2)];
    Join3("Model,Year", m1 + "," + IntToString(y1), m2 + "," + IntToString(y2), '\n');
  }

  lemma CarsValid(m1: string, y1: int, m2: string, y2: int)
    ensures Valid(Array([Car(m1, y1), Car(m2, y2)]))
  {
    assert "Model" != "Year";
    assert UniqueKeys(Car(m1, y1).members) && UniqueKeys(Car(m2, y2).members);
  }

  lemma CarsClean(m1: string, y1: int, m2: string, y2: int)
    requires CsvField(m1) && CsvField(m2)
    ensures AllFlat([Car(m1, y1), Car(m2, y2)])
    ensures forall i :: 0 <= i < 2 ==> CleanRecord([Car(m1, y1), Car(m2, y2)][i])
  {
    assert CsvField("Model") && CsvField("Year");
    assert CleanRecord(Car(m1, y1)) && CleanRecord(Car(m2, y2));
  }

  lemma CarLookups(model: string, year: int)
    ensures Lookup(Car(model, year).members, "Model") == Some(Str(model))
    ensures Lookup(Car(model, year).members, "Year") == Some(Int(year))
  {
    var ms := Car(model, year).members;
    assert ms[1..] == [Member("Year", Int(year))];
  }

  lemma CarsIntExact(m1: string, y1: int, m2: string, y2: int)
    ensures AllFlat([Car(m1, y1), Car(m2, y2)])
    ensures IntColumnExact([Car(m1, y1), Car(m2, y2)], "Model")
    ensures IntColumnExact([Car(m1, y1), Car(m2, y2)], "Year")
  {
    CarColumns(m1, y1, m2, y2);
    CarLookups(m1, y1);
    CarLookups(m2, y2);
  }

  lemma CarsAreRecords(m1: string, y1: int, m2: string, y2: int)
    requires CsvField(m1) && CsvField(m2)
    ensures RecordList(Array([Car(m1, y1), Car(m2, y2)]))
  {
    CarsValid(m1, y1, m2, y2);
    CarsClean(m1, y1, m2, y2);
    CarsIntExact(m1, y1, m2, y2);
    CarColumns(m1, y1, m2, y2);
  }

  lemma CarCsv(m1: string, y1: int, m2: string, y2: int)
    requires CsvField(m1) && CsvField(m2) && m1 != "" && m2 != ""
    ensures RecordList(Array([Car(m1, y1), Car(m2, y2)]))
    ensures ConvertJsonToCsv(Decoded(Array([Car(m1, y1), Car(m2, y2)]))) ==
      Ok("Model,Year" + "\n" + (m1 + "," + IntToString(y1) + "\n" + (m2 + "," + IntToString(y2))) + "\n")
  {
    CarsAreRecords(m1, y1, m2, y2);
    CarText(m1, y1, m2, y2);
  }

  /** Three lines joined by line breaks, regrouped as three ended lines. */
  lemma ThreeLines(h: string, l1: string, l2: string)
    ensures h + "\n" + (l1 + "\n" + l2) + "\n" == (h + "\n") + (l1 + "\n") + (l2 + "\n")
  {
  }

  lemma CarLines(m1: string, y1: int, m2: string, y2: int)
    requires m1 == "Corolla" && y1 == 2024 && m2 == "Camry" && y2 == 2025
    ensures m1 + "," + IntToString(y1) + "\n" == "Corolla,2024\n"
    ensures m2 + "," + IntToString(y2) + "\n" == "Camry,2025\n"
  {
    FourDigits(y1, 2, 0, 2, 4);
    FourDigits(y2, 2, 0, 2, 5);
    assert DigitChar(0) == '0' && DigitChar(2) == '2' && DigitChar(4) == '4' && DigitChar(5) == '5';
  }

  /** The CSV test: a header of the keys, one line per record, no index. */
  lemma CsvExample(m1: string, y1: int, m2: string, y2: int)
    requires m1 == "Corolla" && y1 == 2024 && m2 == "Camry" && y2 == 2025
    ensures RecordList(Array([Car(m1, y1), Car(m2, y2)]))
    ensures ConvertJsonToCsv(Decoded(Array([Car(m1, y1), Car(m2, y2)]))) ==
      Ok("Model,Year\n" + "Corolla,2024\n" + "Camry,2025\n")
  {
    assert CsvField(m1) && CsvField(m2);
    CarLines(m1, y1, m2, y2);
    var line1 := m1 + "," + IntToString(y1);
    var line2 := m2 + "," + IntToString(y2);
    assert "Model,Year" + "\n" == "Model,Year\n";
    ThreeLines("Model,Year", line1, line2);
    CarCsv(m1, y1, m2, y2);
  }

  /** The CSV refusal test: a single flat object. */
  lemma CsvRejectExample()
    ensures var v := Object([Member("Brand", Str("Toyota")), Member("Model", Str("Corolla")), Member("Year", Int(2020))]);
      WellFormed(Decoded(v)) && PandasRejects(v) &&
      ConvertJsonToCsv(Decoded(v)) == Err(ValueError("Invalid JSON for CSV conversion"))
  {
  }
}
