/** The indented layout of `json.dumps` seen line by line: a reference
    description, independent of the string-building encoder, of which line
    every bracket, element and member lands on and at which depth; and the
    proof that the encoder's text is exactly these lines, each preceded by
    `indent * depth` spaces, and, without an indent, exactly these lines
    run together. */
module JsonLayout {
  import opened Results
  import opened Strings
  import opened Decimal
  import opened JsonValue
  import opened KeyOrder
  import opened JsonString
  import opened JsonEncode

  /** One output line: its nesting depth and what follows the indentation. */
  datatype Line = Line(depth: nat, text: string)

  function AppendToLast(ls: seq<Line>, s: string): (r: seq<Line>)
    requires ls != []
    ensures |r| == |ls| && r[0].depth == ls[0].depth
  {
    ls[..|ls| - 1] + [Line(ls[|ls| - 1].depth, ls[|ls| - 1].text + s)]
  }

  function PrependToFirst(p: string, ls: seq<Line>): (r: seq<Line>)
    requires ls != []
    ensures |r| == |ls| && r[0].depth == ls[0].depth
  {
    [Line(ls[0].depth, p + ls[0].text)] + ls[1..]
  }

  /** The lines of `v` placed at `depth`: an atomic value is one line; a
      container opens on the current line, puts each element (each member,
      key first) on lines of their own one level deeper, ends every element
      but the last with a comma, and closes on a line at its own depth. */
  function Lines(v: Json, depth: nat): (ls: seq<Line>)
    ensures ls != [] && ls[0].depth == depth
  {
    match v
    case Array(items) =>
      if items == [] then [Line(depth, "[]")]
      else [Line(depth, "[")] + ItemLines(items, depth + 1) + [Line(depth, "]")]
    case Object(ms) =>
      if ms == [] then [Line(depth, "{}")]
      else [Line(depth, "{")] + MemberLines(ms, depth + 1) + [Line(depth, "}")]
    case _ => [Line(depth, ScalarText(v))]
  }

  function ItemLines(items: seq<Json>, depth: nat): (ls: seq<Line>)
    ensures items != [] ==> ls != [] && ls[0].depth == depth
  {
    if items == [] then []
    else if |items| == 1 then Lines(items[0], depth)
    else AppendToLast(Lines(items[0], depth), ",") + ItemLines(items[1..], depth)
  }

  function MemberLines(ms: seq<Member>, depth: nat): (ls: seq<Line>)
    ensures ms != [] ==> ls != [] && ls[0].depth == depth
  {
    if ms == [] then []
    else
      var first := PrependToFirst(Quote(ms[0].key) + ": ", Lines(ms[0].value, depth));
      if |ms| == 1 then first
      else AppendToLast(first, ",") + MemberLines(ms[1..], depth)
  }

  /** A line as printed: `width * depth` spaces, then its text. */
  function Indent(width: nat, l: Line): string {
    Spaces(width * l.depth) + l.text
  }

  /** Lines joined by newlines. */
  function Text(width: nat, ls: seq<Line>): string {
    if ls == [] then "" else Indent(width, ls[0]) + NewlineEach(width, ls[1..])
  }

  function NewlineEach(width: nat, ls: seq<Line>): string {
    if ls == [] then "" else "\n" + Indent(width, ls[0]) + NewlineEach(width, ls[1..])
  }

  lemma {:induction false} NewlineEachAppend(width: nat, a: seq<Line>, b: seq<Line>)
    ensures NewlineEach(width, a + b) == NewlineEach(width, a) + NewlineEach(width, b)
  {
    if a == [] {
      assert a + b == b;
    } else {
      assert (a + b)[1..] == a[1..] + b;
      NewlineEachAppend(width, a[1..], b);
    }
  }

  lemma TextAppend(width: nat, a: seq<Line>, b: seq<Line>)
    requires a != [] && b != []
    ensures Text(width, a + b) == Text(width, a) + "\n" + Text(width, b)
  {
    assert (a + b)[1..] == a[1..] + b;
    NewlineEachAppend(width, a[1..], b);
  }

  lemma {:induction false} NewlineEachAppendToLast(width: nat, ls: seq<Line>, s: string)
    requires ls != []
    ensures NewlineEach(width, AppendToLast(ls, s)) == NewlineEach(width, ls) + s
  {
    var r := AppendToLast(ls, s);
    if |ls| > 1 {
      assert r[1..] == AppendToLast(ls[1..], s);
      NewlineEachAppendToLast(width, ls[1..], s);
    }
  }

  lemma TextAppendToLast(width: nat, ls: seq<Line>, s: string)
    requires ls != []
    ensures Text(width, AppendToLast(ls, s)) == Text(width, ls) + s
  {
    var r := AppendToLast(ls, s);
    if |ls| > 1 {
      assert r[0] == ls[0];
      assert r[1..] == AppendToLast(ls[1..], s);
      NewlineEachAppendToLast(width, ls[1..], s);
      Assoc3(Indent(width, ls[0]), NewlineEach(width, ls[1..]), s);
    } else {
      assert r == [Line(ls[0].depth, ls[0].text + s)];
      Assoc3(Spaces(width * ls[0].depth), ls[0].text, s);
    }
  }

  /** A non-empty block of inner lines between an opening and a closing
      line at the enclosing depth. */
  lemma BracketText(width: nat, depth: nat, open: string, close: string, inner: seq<Line>, body: string)
    requires inner != []
    requires Text(width, inner) == Spaces(width * (depth + 1)) + body
    ensures Spaces(width * depth) + (open + ("\n" + Spaces(width * (depth + 1))) + body + ("\n" + Spaces(width * depth)) + close)
         == Text(width, [Line(depth, open)] + inner + [Line(depth, close)])
  {
    var a := Spaces(width * depth);
    var b := Spaces(width * (depth + 1));
    var opening := [Line(depth, open)];
    var closing := [Line(depth, close)];
    TextAppend(width, opening, inner + closing);
    TextAppend(width, inner, closing);
    assert opening + inner + closing == opening + (inner + closing);
    TextOfOne(width, depth, open);
    TextOfOne(width, depth, close);
    Regroup7(a, open, "\n", b, body, "\n", a + close);
    var x := open + ("\n" + b) + body;
    Assoc3(x, "\n" + a, close);
    Assoc3("\n", a, close);
  }

  lemma TextOfOne(width: nat, depth: nat, text: string)
    ensures Text(width, [Line(depth, text)]) == Spaces(width * depth) + text
  {
  }

  /** The indented encoder writes exactly the reference lines. */
  lemma {:induction false} EncodeIsLines(v: Json, width: nat, depth: nat)
    ensures Spaces(width * depth) + Encode(v, Indented(width), depth) == Text(width, Lines(v, depth))
    decreases v, 1
  {
    var lay := Indented(width);
    match v
    case Array(items) =>
      if items != [] {
        ItemsAreLines(items, width, depth + 1);
        BracketText(width, depth, "[", "]", ItemLines(items, depth + 1), EncodeItems(items, lay, depth + 1));
      }
    case Object(ms) =>
      if ms != [] {
        MembersAreLines(ms, width, depth + 1);
        BracketText(width, depth, "{", "}", MemberLines(ms, depth + 1), EncodeMembers(ms, lay, depth + 1));
      }
    case _ =>
  }

  /** Two blocks at the same depth, the first ended by a comma. */
  lemma SeparatedText(width: nat, depth: nat, first: seq<Line>, rest: seq<Line>, e1: string, e2: string)
    requires first != [] && rest != [] && first[0].depth == depth && rest[0].depth == depth
    requires Spaces(width * depth) + e1 == Text(width, first)
    requires Spaces(width * depth) + e2 == Text(width, rest)
    ensures Spaces(width * depth) + (e1 + ("," + ("\n" + Spaces(width * depth))) + e2)
         == Text(width, AppendToLast(first, ",") + rest)
  {
    var ind := Spaces(width * depth);
    TextAppend(width, AppendToLast(first, ","), rest);
    TextAppendToLast(width, first, ",");
    SeparatedRegroup(ind, e1, e2);
  }

  lemma SeparatedRegroup(ind: string, e1: string, e2: string)
    ensures ((ind + e1) + ",") + "\n" + (ind + e2) == ind + (e1 + ("," + ("\n" + ind)) + e2)
  {
  }

  lemma {:induction false} ItemsAreLines(items: seq<Json>, width: nat, depth: nat)
    requires items != []
    ensures Spaces(width * depth) + EncodeItems(items, Indented(width), depth) == Text(width, ItemLines(items, depth))
    decreases items, 0
  {
    EncodeIsLines(items[0], width, depth);
    if |items| > 1 {
      ItemsAreLines(items[1..], width, depth);
      SeparatedText(width, depth, Lines(items[0], depth), ItemLines(items[1..], depth),
        Encode(items[0], Indented(width), depth), EncodeItems(items[1..], Indented(width), depth));
    }
  }

  /** Writing `p` in front of a block's first line writes it right after
      that line's indentation. */
  lemma TextPrependToFirst(width: nat, p: string, ls: seq<Line>, e: string)
    requires ls != []
    requires Spaces(width * ls[0].depth) + e == Text(width, ls)
    ensures Spaces(width * ls[0].depth) + (p + e) == Text(width, PrependToFirst(p, ls))
  {
    var ind := Spaces(width * ls[0].depth);
    var tail := NewlineEach(width, ls[1..]);
    var first := PrependToFirst(p, ls);
    assert Text(width, ls) == ind + (ls[0].text + tail);
    CancelPrefix(ind, e, ls[0].text + tail);
    assert first[0] == Line(ls[0].depth, p + ls[0].text) && first[1..] == ls[1..];
    assert Text(width, first) == ind + (p + ls[0].text) + tail;
  }

  lemma MemberIsLines(m: Member, width: nat, depth: nat)
    ensures Spaces(width * depth) + EncodeMember(m, Indented(width), depth)
         == Text(width, PrependToFirst(Quote(m.key) + ": ", Lines(m.value, depth)))
  {
    EncodeIsLines(m.value, width, depth);
    TextPrependToFirst(width, Quote(m.key) + ": ", Lines(m.value, depth), Encode(m.value, Indented(width), depth));
  }

  lemma {:induction false} MembersAreLines(ms: seq<Member>, width: nat, depth: nat)
    requires ms != []
    ensures Spaces(width * depth) + EncodeMembers(ms, Indented(width), depth) == Text(width, MemberLines(ms, depth))
    decreases ms, 0
  {
    MemberIsLines(ms[0], width, depth);
    if |ms| > 1 {
      MembersAreLines(ms[1..], width, depth);
      SeparatedText(width, depth, PrependToFirst(Quote(ms[0].key) + ": ", Lines(ms[0].value, depth)),
        MemberLines(ms[1..], depth),
        EncodeMember(ms[0], Indented(width), depth), EncodeMembers(ms[1..], Indented(width), depth));
    }
  }

  /** A line's text is not empty, does not start with a space and holds no
      newline, so its indentation is exactly the spaces in front of it. */
  predicate TidyLines(ls: seq<Line>) {
    forall i :: 0 <= i < |ls| ==> |ls[i].text| > 0 && ls[i].text[0] != ' ' && OneLine(ls[i].text)
  }

  lemma TidyJoin(a: seq<Line>, b: seq<Line>)
    requires TidyLines(a) && TidyLines(b)
    ensures TidyLines(a + b)
  {
  }

  lemma TidyAppendToLast(ls: seq<Line>, s: string)
    requires ls != [] && TidyLines(ls) && OneLine(s)
    ensures TidyLines(AppendToLast(ls, s))
  {
    var last := ls[|ls| - 1].text;
    assert OneLine(last + s);
  }

  lemma TidyPrependToFirst(p: string, ls: seq<Line>)
    requires ls != [] && TidyLines(ls)
    requires |p| > 0 && p[0] != ' ' && OneLine(p)
    ensures TidyLines(PrependToFirst(p, ls))
  {
    assert OneLine(p + ls[0].text);
  }

  lemma {:induction false} LinesAreTidy(v: Json, depth: nat)
    requires Valid(v)
    ensures TidyLines(Lines(v, depth))
    decreases v, 1
  {
    match v
    case Array(items) =>
      if items != [] {
        ItemLinesAreTidy(items, depth + 1);
        TidyJoin([Line(depth, "[")], ItemLines(items, depth + 1));
        TidyJoin([Line(depth, "[")] + ItemLines(items, depth + 1), [Line(depth, "]")]);
      }
    case Object(ms) =>
      if ms != [] {
        MemberLinesAreTidy(ms, depth + 1);
        TidyJoin([Line(depth, "{")], MemberLines(ms, depth + 1));
        TidyJoin([Line(depth, "{")] + MemberLines(ms, depth + 1), [Line(depth, "}")]);
      }
    case _ =>
      ScalarTextOneLine(v);
  }

  lemma {:induction false} ItemLinesAreTidy(items: seq<Json>, depth: nat)
    requires forall i :: 0 <= i < |items| ==> Valid(items[i])
    ensures TidyLines(ItemLines(items, depth))
    decreases items, 0
  {
    if items != [] {
      LinesAreTidy(items[0], depth);
      if |items| > 1 {
        ItemLinesAreTidy(items[1..], depth);
        TidyAppendToLast(Lines(items[0], depth), ",");
        TidyJoin(AppendToLast(Lines(items[0], depth), ","), ItemLines(items[1..], depth));
      }
    }
  }

  lemma {:induction false} MemberLinesAreTidy(ms: seq<Member>, depth: nat)
    requires forall i :: 0 <= i < |ms| ==> Valid(ms[i].value)
    ensures TidyLines(MemberLines(ms, depth))
    decreases ms, 0
  {
    if ms != [] {
      var key := Quote(ms[0].key) + ": ";
      LinesAreTidy(ms[0].value, depth);
      TidyPrependToFirst(key, Lines(ms[0].value, depth));
      if |ms| > 1 {
        var first := PrependToFirst(key, Lines(ms[0].value, depth));
        MemberLinesAreTidy(ms[1..], depth);
        TidyAppendToLast(first, ",");
        TidyJoin(AppendToLast(first, ","), MemberLines(ms[1..], depth));
      }
    }
  }

  lemma SplitLinesOfText(width: nat, ls: seq<Line>)
    requires ls != [] && TidyLines(ls)
    ensures |Split(Text(width, ls), '\n')| == |ls|
    ensures forall i :: 0 <= i < |ls| ==> Split(Text(width, ls), '\n')[i] == Indent(width, ls[i])
    decreases |ls|
  {
    var first := Indent(width, ls[0]);
    assert Avoids(first, '\n') by {
      assert OneLine(ls[0].text);
    }
    if |ls| == 1 {
      assert Text(width, ls) == first;
      SplitOne(first, '\n');
    } else {
      var rest := Text(width, ls[1..]);
      TextCons(width, ls);
      SplitFirst(first, rest, '\n');
      SplitLinesOfText(width, ls[1..]);
    }
  }

  lemma TextCons(width: nat, ls: seq<Line>)
    requires |ls| > 1
    ensures Text(width, ls) == Indent(width, ls[0]) + ("\n" + Text(width, ls[1..]))
  {
    assert ls[1..][1..] == ls[2..] && ls[1..][0] == ls[1];
    Assoc3("\n", Indent(width, ls[1]), NewlineEach(width, ls[2..]));
  }

  /** With `indent=n` (n >= 0), line `i` of the output is the reference
      line `i` preceded by `n * depth` spaces; with `n = 0` no line starts
      with a space. */
  lemma IndentedOutputLines(v: Json, n: nat, sortKeys: bool)
    requires Valid(v)
    ensures var ls := Lines(if sortKeys then SortDeep(v) else v, 0);
            var out := Split(Dumps(v, Some(n), sortKeys), '\n');
            TidyLines(ls) && |out| == |ls| && forall i :: 0 <= i < |ls| ==> out[i] == Indent(n, ls[i])
  {
    DumpsIndented(v, n, sortKeys);
    if sortKeys {
      SortDeepValid(v);
    }
    EncodedLines(if sortKeys then SortDeep(v) else v, n);
  }

  lemma DumpsIndented(v: Json, n: nat, sortKeys: bool)
    ensures Dumps(v, Some(n), sortKeys) == Encode(if sortKeys then SortDeep(v) else v, Indented(n), 0)
  {
    assert LayoutOf(Some(n)) == Indented(n);
  }

  lemma EncodedLines(w: Json, n: nat)
    requires Valid(w)
    ensures var ls := Lines(w, 0);
            var out := Split(Encode(w, Indented(n), 0), '\n');
            TidyLines(ls) && |out| == |ls| &&
            forall i :: 0 <= i < |ls| ==> out[i] == Indent(n, ls[i])
  {
    var ls := Lines(w, 0);
    var text := Encode(w, Indented(n), 0);
    EncodeIsLines(w, n, 0);
    assert Spaces(n * 0) == "";
    assert text == Text(n, ls);
    LinesAreTidy(w, 0);
    SplitLinesOfText(n, ls);
  }

  /* The compact layout against the same reference lines. */

  predicate EndsInComma(s: string) {
    |s| > 0 && s[|s| - 1] == ','
  }

  /** A line as it is run into the next one on the compact output: a line
      ending in a comma is followed by one space, any other by nothing. */
  function Joined(l: Line): string {
    if EndsInComma(l.text) then l.text + " " else l.text
  }

  /** The lines run together on one line. */
  function Flat(ls: seq<Line>): string {
    if ls == [] then "" else Joined(ls[0]) + Flat(ls[1..])
  }

  /** A block whose last line does not end in a comma. */
  predicate OpenEnded(ls: seq<Line>) {
    ls != [] && !EndsInComma(ls[|ls| - 1].text)
  }

  lemma {:induction false} FlatAppend(a: seq<Line>, b: seq<Line>)
    ensures Flat(a + b) == Flat(a) + Flat(b)
  {
    if a == [] {
      assert a + b == b;
    } else {
      assert (a + b)[1..] == a[1..] + b;
      FlatAppend(a[1..], b);
      Assoc3(Joined(a[0]), Flat(a[1..]), Flat(b));
    }
  }

  lemma FlatOfOne(l: Line)
    ensures Flat([l]) == Joined(l)
  {
    assert [l][1..] == [];
  }

  /** The comma that ends an element is followed by a space. */
  lemma FlatAppendToLast(ls: seq<Line>)
    requires OpenEnded(ls)
    ensures Flat(AppendToLast(ls, ",")) == Flat(ls) + ", "
  {
    var n := |ls| - 1;
    var last := ls[n];
    assert ls == ls[..n] + [last];
    FlatAppend(ls[..n], [last]);
    FlatAppend(ls[..n], [Line(last.depth, last.text + ",")]);
    FlatOfOne(last);
    FlatOfOne(Line(last.depth, last.text + ","));
    assert EndsInComma(last.text + ",");
    Assoc3(Flat(ls[..n]), last.text, ",");
    Assoc3(Flat(ls[..n]), last.text + ",", " ");
  }

  /** A key written in front of a block's first line is written in front of
      its flat text. */
  lemma FlatPrependToFirst(p: string, ls: seq<Line>)
    requires ls != [] && p != [] && !EndsInComma(p)
    ensures Flat(PrependToFirst(p, ls)) == p + Flat(ls)
  {
    var t := ls[0].text;
    var r := PrependToFirst(p, ls);
    assert r[0] == Line(ls[0].depth, p + t) && r[1..] == ls[1..];
    if t == [] {
      assert p + t == p;
    } else {
      assert (p + t)[|p + t| - 1] == t[|t| - 1];
      if EndsInComma(t) {
        Assoc3(p, t, " ");
      }
    }
    Assoc3(p, Joined(ls[0]), Flat(ls[1..]));
  }

  lemma PrependOpenEnded(p: string, ls: seq<Line>)
    requires OpenEnded(ls) && p != [] && !EndsInComma(p)
    ensures OpenEnded(PrependToFirst(p, ls))
  {
    var t := ls[0].text;
    if |ls| == 1 && t != [] {
      assert (p + t)[|p + t| - 1] == t[|t| - 1];
    }
  }

  lemma ScalarOpenEnded(v: Json)
    requires IsScalar(v) && Valid(v)
    ensures !EndsInComma(ScalarText(v))
  {
    match v
    case Float(t) =>
      NumberTextShape(t);
    case Int(i) =>
      IntTextShape(i);
    case Null =>
    case Bool(_) =>
    case Str(_) =>
  }

  /** No value's block ends in a comma: a comma is only ever added after
      it. */
  lemma LinesOpenEnded(v: Json, depth: nat)
    requires Valid(v)
    ensures OpenEnded(Lines(v, depth))
  {
    match v
    case Array(items) =>
    case Object(ms) =>
    case _ =>
      ScalarOpenEnded(v);
  }

  lemma KeyOpenEnded(key: string)
    ensures var p := Quote(key) + ": "; p != [] && !EndsInComma(p)
  {
    var p := Quote(key) + ": ";
    assert p[|p| - 1] == ' ';
  }

  /** A non-empty block of inner lines between an opening and a closing
      bracket, run together. */
  lemma FlatBracket(depth: nat, open: string, close: string, inner: seq<Line>)
    requires !EndsInComma(open) && !EndsInComma(close)
    ensures Flat([Line(depth, open)] + inner + [Line(depth, close)]) == open + Flat(inner) + close
  {
    FlatAppend([Line(depth, open)] + inner, [Line(depth, close)]);
    FlatAppend([Line(depth, open)], inner);
    FlatOfOne(Line(depth, open));
    FlatOfOne(Line(depth, close));
  }

  /** Without an indent the encoder writes the reference lines run
      together: no line breaks, `", "` after every element and member but
      the last, `": "` after each key. */
  lemma {:induction false} CompactIsFlatLines(v: Json, depth: nat)
    requires Valid(v)
    ensures Encode(v, Compact, depth) == Flat(Lines(v, depth))
    decreases v, 1
  {
    match v
    case Array(items) =>
      if items != [] {
        CompactItemsFlat(items, depth + 1);
        FlatBracket(depth, "[", "]", ItemLines(items, depth + 1));
        CompactBracket("[", EncodeItems(items, Compact, depth + 1), "]");
      }
    case Object(ms) =>
      if ms != [] {
        CompactMembersFlat(ms, depth + 1);
        FlatBracket(depth, "{", "}", MemberLines(ms, depth + 1));
        CompactBracket("{", EncodeMembers(ms, Compact, depth + 1), "}");
      }
    case _ =>
      ScalarOpenEnded(v);
      FlatOfOne(Line(depth, ScalarText(v)));
  }

  lemma CompactBracket(open: string, body: string, close: string)
    ensures open + "" + body + "" + close == open + body + close
  {
  }

  lemma {:induction false} CompactItemsFlat(items: seq<Json>, depth: nat)
    requires items != [] && forall i :: 0 <= i < |items| ==> Valid(items[i])
    ensures EncodeItems(items, Compact, depth) == Flat(ItemLines(items, depth))
    decreases items, 0
  {
    CompactIsFlatLines(items[0], depth);
    if |items| > 1 {
      var first := Lines(items[0], depth);
      CompactItemsFlat(items[1..], depth);
      LinesOpenEnded(items[0], depth);
      FlatAppendToLast(first);
      FlatAppend(AppendToLast(first, ","), ItemLines(items[1..], depth));
    }
  }

  lemma CompactMemberFlat(m: Member, depth: nat)
    requires Valid(m.value)
    ensures EncodeMember(m, Compact, depth) == Flat(PrependToFirst(Quote(m.key) + ": ", Lines(m.value, depth)))
  {
    CompactIsFlatLines(m.value, depth);
    KeyOpenEnded(m.key);
    FlatPrependToFirst(Quote(m.key) + ": ", Lines(m.value, depth));
  }

  lemma {:induction false} CompactMembersFlat(ms: seq<Member>, depth: nat)
    requires ms != [] && forall i :: 0 <= i < |ms| ==> Valid(ms[i].value)
    ensures EncodeMembers(ms, Compact, depth) == Flat(MemberLines(ms, depth))
    decreases ms, 0
  {
    CompactMemberFlat(ms[0], depth);
    if |ms| > 1 {
      var key := Quote(ms[0].key) + ": ";
      var first := PrependToFirst(key, Lines(ms[0].value, depth));
      CompactMembersFlat(ms[1..], depth);
      LinesOpenEnded(ms[0].value, depth);
      KeyOpenEnded(ms[0].key);
      PrependOpenEnded(key, Lines(ms[0].value, depth));
      FlatAppendToLast(first);
      FlatAppend(AppendToLast(first, ","), MemberLines(ms[1..], depth));
    }
  }

  /** `json.dumps` without an indent writes the reference lines of the
      (key-sorted, when asked) value run together. */
  lemma CompactDumpsFlat(v: Json, sortKeys: bool)
    requires Valid(v)
    ensures Dumps(v, None, sortKeys) == Flat(Lines(if sortKeys then SortDeep(v) else v, 0))
  {
    if sortKeys {
      SortDeepValid(v);
    }
    CompactIsFlatLines(if sortKeys then SortDeep(v) else v, 0);
  }
}
