/** A reader for JSON text (sections 2 to 7 of RFC 8259, without surrogate
    pairs in `\u` escapes), used as the inverse of the encoder: reading
    what `json.dumps` wrote gives back the tree it was given. It reports
    no positions or diagnostics; those belong to `json.loads`. */
module JsonDecode {
  import opened Results
  import opened Strings
  import opened Decimal
  import opened JsonValue
  import opened KeyOrder
  import opened JsonString
  import opened JsonEncode

  /** Insignificant whitespace, section 2 of RFC 8259. */
  predicate IsWhitespace(c: char) {
    c == ' ' || c == '\t' || c == '\n' || c == '\r'
  }

  predicate AllWhitespace(s: string) {
    forall k :: 0 <= k < |s| ==> IsWhitespace(s[k])
  }

  function SkipWhitespace(s: string): (r: string)
    ensures |r| <= |s|
    ensures r == [] || !IsWhitespace(r[0])
  {
    if s != [] && IsWhitespace(s[0]) then SkipWhitespace(s[1..]) else s
  }

  /** Length of the run of number characters at the head of `s`. */
  function NumberRun(s: string): (n: nat)
    ensures n <= |s|
  {
    if s != [] && IsNumberChar(s[0]) then 1 + NumberRun(s[1..]) else 0
  }

  function HexValue(c: char): Option<nat> {
    if '0' <= c <= '9' then Some(c as int - '0' as int)
    else if 'a' <= c <= 'f' then Some(c as int - 'a' as int + 10)
    else if 'A' <= c <= 'F' then Some(c as int - 'A' as int + 10)
    else None
  }

  /** The code unit of four hex digits. */
  function Hex4(s: string): Option<nat>
    requires |s| == 4
  {
    match (HexValue(s[0]), HexValue(s[1]), HexValue(s[2]), HexValue(s[3]))
    case (Some(a), Some(b), Some(c), Some(d)) => Some(((a * 16 + b) * 16 + c) * 16 + d)
    case _ => None
  }

  /** The character an escape denotes; `s` starts after the backslash. */
  function ReadEscape(s: string): (r: Option<(char, string)>)
    ensures r.Some? ==> |r.value.1| < |s|
  {
    if s == [] then None
    else if s[0] == '"' || s[0] == '\\' || s[0] == '/' then Some((s[0], s[1..]))
    else if s[0] == 'b' then Some((8 as char, s[1..]))
    else if s[0] == 'f' then Some((12 as char, s[1..]))
    else if s[0] == 'n' then Some(('\n', s[1..]))
    else if s[0] == 'r' then Some(('\r', s[1..]))
    else if s[0] == 't' then Some(('\t', s[1..]))
    else if s[0] == 'u' && |s| >= 5 then
      match Hex4(s[1..5])
      case Some(code) =>
        if code < 0xD800 || 0xE000 <= code then Some((code as char, s[5..])) else None
      case None => None
    else None
  }

  /** The characters of a string literal up to its closing quotation mark;
      `s` starts after the opening one. */
  function ReadString(s: string): (r: Option<(string, string)>)
    ensures r.Some? ==> |r.value.1| < |s|
    decreases |s|
  {
    if s == [] then None
    else if s[0] == '"' then Some(([], s[1..]))
    else if s[0] == '\\' then
      match ReadEscape(s[1..])
      case None => None
      case Some((c, after)) =>
        match ReadString(after)
        case None => None
        case Some((tail, rest)) => Some(([c] + tail, rest))
    else if s[0] < ' ' then None
    else
      match ReadString(s[1..])
      case None => None
      case Some((tail, rest)) => Some(([s[0]] + tail, rest))
  }

  /** A number token: an integer becomes `Int`, anything with a fraction
      or exponent keeps its text as `Float`. */
  function ReadNumber(t: string): (r: Option<(Json, string)>)
    ensures r.Some? ==> |r.value.1| < |t|
  {
    var n := NumberRun(t);
    var token := t[..n];
    match ReadInt(token)
    case Some(i) => Some((Int(i), t[n..]))
    case None => if IsFloatText(token) then Some((Float(token), t[n..])) else None
  }

  /** One value after optional whitespace, and what follows it. */
  function ReadValue(s: string): (r: Option<(Json, string)>)
    ensures r.Some? ==> |r.value.1| < |s|
    decreases |s|, 0
  {
    var t := SkipWhitespace(s);
    if t == [] then None
    else if t[0] == '[' then ReadArray(t[1..])
    else if t[0] == '{' then ReadObject(t[1..])
    else if t[0] == '"' then
      match ReadString(t[1..])
      case None => None
      case Some((str, rest)) => Some((Str(str), rest))
    else if |t| >= 4 && t[..4] == "true" then Some((Bool(true), t[4..]))
    else if |t| >= 5 && t[..5] == "false" then Some((Bool(false), t[5..]))
    else if |t| >= 4 && t[..4] == "null" then Some((Null, t[4..]))
    else ReadNumber(t)
  }

  /** An array after its `[`. */
  function ReadArray(s: string): (r: Option<(Json, string)>)
    ensures r.Some? ==> |r.value.1| < |s|
    decreases |s|, 2
  {
    var t := SkipWhitespace(s);
    if t != [] && t[0] == ']' then Some((Array([]), t[1..]))
    else
      match ReadElements(t)
      case None => None
      case Some((items, rest)) => Some((Array(items), rest))
  }

  /** Comma-separated values up to and including the closing `]`. */
  function ReadElements(s: string): (r: Option<(seq<Json>, string)>)
    ensures r.Some? ==> |r.value.1| < |s|
    decreases |s|, 1
  {
    match ReadValue(s)
    case None => None
    case Some((v, after)) =>
      var t := SkipWhitespace(after);
      if t == [] then None
      else if t[0] == ']' then Some(([v], t[1..]))
      else if t[0] == ',' then
        match ReadElements(t[1..])
        case None => None
        case Some((vs, rest)) => Some(([v] + vs, rest))
      else None
  }

  /** An object after its `{`. */
  function ReadObject(s: string): (r: Option<(Json, string)>)
    ensures r.Some? ==> |r.value.1| < |s|
    decreases |s|, 2
  {
    var t := SkipWhitespace(s);
    if t != [] && t[0] == '}' then Some((Object([]), t[1..]))
    else
      match ReadMembers(t)
      case None => None
      case Some((ms, rest)) => Some((Object(ms), rest))
  }

  /** One `"key": value` pair after optional whitespace. */
  function ReadMember(s: string): (r: Option<(Member, string)>)
    ensures r.Some? ==> |r.value.1| < |s|
    decreases |s|, 0
  {
    var t := SkipWhitespace(s);
    if t == [] || t[0] != '"' then None
    else
      match ReadString(t[1..])
      case None => None
      case Some((key, after)) =>
        var u := SkipWhitespace(after);
        if u == [] || u[0] != ':' then None
        else
          match ReadValue(u[1..])
          case None => None
          case Some((v, rest)) => Some((Member(key, v), rest))
  }

  /** Comma-separated members up to and including the closing `}`. */
  function ReadMembers(s: string): (r: Option<(seq<Member>, string)>)
    ensures r.Some? ==> |r.value.1| < |s|
    decreases |s|, 1
  {
    match ReadMember(s)
    case None => None
    case Some((m, after)) =>
      var t := SkipWhitespace(after);
      if t == [] then None
      else if t[0] == '}' then Some(([m], t[1..]))
      else if t[0] == ',' then
        match ReadMembers(t[1..])
        case None => None
        case Some((ms, rest)) => Some(([m] + ms, rest))
      else None
  }

  /** A whole JSON text: one value with nothing but whitespace after it. */
  function Read(s: string): Option<Json> {
    match ReadValue(s)
    case Some((v, rest)) => if SkipWhitespace(rest) == [] then Some(v) else None
    case None => None
  }

  // Reading back what the encoder wrote.

  lemma {:induction false} SkipLeadingWhitespace(ws: string, s: string)
    requires AllWhitespace(ws)
    ensures SkipWhitespace(ws + s) == SkipWhitespace(s)
  {
    if ws != [] {
      assert (ws + s)[1..] == ws[1..] + s;
      SkipLeadingWhitespace(ws[1..], s);
    } else {
      assert ws + s == s;
    }
  }

  lemma ReadValueAfterWhitespace(ws: string, s: string)
    requires AllWhitespace(ws)
    ensures ReadValue(ws + s) == ReadValue(s)
  {
    SkipLeadingWhitespace(ws, s);
  }

  lemma ReadElementsAfterWhitespace(ws: string, s: string)
    requires AllWhitespace(ws)
    ensures ReadElements(ws + s) == ReadElements(s)
  {
    ReadValueAfterWhitespace(ws, s);
  }

  lemma ReadMembersAfterWhitespace(ws: string, s: string)
    requires AllWhitespace(ws)
    ensures ReadMembers(ws + s) == ReadMembers(s)
  {
    SkipLeadingWhitespace(ws, s);
  }

  lemma {:induction false} NumberRunOf(t: string, rest: string)
    requires forall k :: 0 <= k < |t| ==> IsNumberChar(t[k])
    requires rest == [] || !IsNumberChar(rest[0])
    ensures NumberRun(t + rest) == |t|
  {
    if t != [] {
      assert (t + rest)[1..] == t[1..] + rest;
      NumberRunOf(t[1..], rest);
    } else {
      assert t + rest == rest;
    }
  }

  lemma HexRoundTrip(n: nat)
    requires n < 16
    ensures HexValue(HexDigit(n)) == Some(n)
  {
  }

  lemma {:induction false} EscapeCharRead(c: char, tail: string)
    requires MustEscape(c)
    ensures ReadEscape(EscapeChar(c)[1..] + tail) == Some((c, tail))
  {
    var e := EscapeChar(c);
    if c < ' ' && c as int != 8 && c as int != 12 && c != '\n' && c != '\r' && c != '\t' {
      var hi := c as int / 16;
      var lo := c as int % 16;
      HexRoundTrip(hi);
      HexRoundTrip(lo);
      var s := e[1..] + tail;
      assert s[1..5] == ['0', '0', HexDigit(hi), HexDigit(lo)];
      assert Hex4(s[1..5]) == Some(c as int);
      assert s[5..] == tail;
    }
  }

  /** Reading an escaped string literal gives back the string. */
  lemma {:induction false} ReadEscaped(str: string, rest: string)
    ensures ReadString(Escape(str) + ("\"" + rest)) == Some((str, rest))
  {
    if str == [] {
      assert Escape(str) + ("\"" + rest) == "\"" + rest;
    } else {
      var after := Escape(str[1..]) + ("\"" + rest);
      Assoc3(EscapeChar(str[0]), Escape(str[1..]), "\"" + rest);
      ReadEscaped(str[1..], rest);
      ReadStringStep(str[0], after, str[1..], rest);
      ConsHeadTail(str);
    }
  }

  lemma ConsHeadTail(s: string)
    requires s != []
    ensures [s[0]] + s[1..] == s
  {
  }

  /** One escaped character, then the rest of a string literal. */
  lemma ReadStringStep(c: char, after: string, tail: string, rest: string)
    requires ReadString(after) == Some((tail, rest))
    ensures ReadString(EscapeChar(c) + after) == Some(([c] + tail, rest))
  {
    var e := EscapeChar(c);
    if MustEscape(c) {
      EscapeCharRead(c, after);
      assert (e + after)[1..] == e[1..] + after;
    } else {
      assert (e + after)[1..] == after;
    }
  }

  lemma FloatTextIsNotInt(t: string)
    requires IsFloatText(t)
    ensures ReadInt(t) == None
  {
    var k :| 0 <= k < |t| && (t[k] == '.' || t[k] == 'e' || t[k] == 'E');
    if |t| > 0 && t[0] == '-' {
      assert t[1..][k - 1] == t[k];
    }
  }

  /** A number token followed by a character that cannot continue it. */
  lemma ReadNumberOf(t: string, rest: string, v: Json)
    requires v.Int? || v.Float?
    requires v.Int? ==> t == IntToString(v.i)
    requires v.Float? ==> t == v.text && IsFloatText(t)
    requires rest == [] || !IsNumberChar(rest[0])
    ensures ReadNumber(t + rest) == Some((v, rest))
  {
    if v.Int? {
      IntTextShape(v.i);
      NumberRunOf(t, rest);
      ReadIntOfIntToString(v.i);
    } else {
      NumberTextShape(t);
      NumberRunOf(t, rest);
      FloatTextIsNotInt(t);
    }
    assert (t + rest)[..|t|] == t && (t + rest)[|t|..] == rest;
  }

  /** Text that opens with a number character reads as a number token. */
  lemma ReadValueOfNumberStart(t: string)
    requires t != [] && IsNumberChar(t[0])
    ensures ReadValue(t) == ReadNumber(t)
  {
    assert SkipWhitespace(t) == t;
    assert !(|t| >= 4 && t[..4] == "true") by {
      if |t| >= 4 { assert t[..4][0] == t[0]; }
    }
    assert !(|t| >= 5 && t[..5] == "false") by {
      if |t| >= 5 { assert t[..5][0] == t[0]; }
    }
    assert !(|t| >= 4 && t[..4] == "null") by {
      if |t| >= 4 { assert t[..4][0] == t[0]; }
    }
  }

  lemma ReadKeyword(w: string, v: Json, rest: string)
    requires (w == "true" && v == Bool(true)) || (w == "false" && v == Bool(false)) || (w == "null" && v == Null)
    ensures ReadValue(w + rest) == Some((v, rest))
  {
    var t := w + rest;
    assert SkipWhitespace(t) == t;
    assert t[..|w|] == w && t[|w|..] == rest;
    if |t| >= 4 {
      assert t[..4][0] == t[0];
      if w == "false" {
        assert t[..4] != "true";
      }
    }
    if |t| >= 5 {
      assert t[..5][0] == t[0];
    }
  }

  /** Reading the text of a scalar back. */
  lemma ReadScalarText(v: Json, rest: string)
    requires IsScalar(v) && Valid(v)
    requires rest == [] || !IsNumberChar(rest[0])
    ensures ReadValue(ScalarText(v) + rest) == Some((v, rest))
  {
    match v
    case Null =>
      ReadKeyword("null", v, rest);
    case Bool(b) =>
      if b { ReadKeyword("true", v, rest); } else { ReadKeyword("false", v, rest); }
    case Int(i) =>
      ReadNumberText(IntToString(i), rest, v);
    case Float(t) =>
      ReadNumberText(t, rest, v);
    case Str(str) =>
      ReadStringText(str, rest);
  }

  lemma ReadNumberText(t: string, rest: string, v: Json)
    requires v.Int? || v.Float?
    requires v.Int? ==> t == IntToString(v.i)
    requires v.Float? ==> t == v.text && IsFloatText(t)
    requires rest == [] || !IsNumberChar(rest[0])
    ensures ReadValue(t + rest) == Some((v, rest))
  {
    if v.Int? {
      IntTextShape(v.i);
    } else {
      NumberTextShape(t);
    }
    ReadNumberOf(t, rest, v);
    ReadValueOfNumberStart(t + rest);
  }

  lemma ReadStringText(str: string, rest: string)
    ensures ReadValue(Quote(str) + rest) == Some((Str(str), rest))
  {
    var t := Quote(str) + rest;
    assert t == "\"" + (Escape(str) + ("\"" + rest));
    assert SkipWhitespace(t) == t;
    ReadEscaped(str, rest);
  }

  lemma BreakIsWhitespace(layout: Layout, depth: nat)
    ensures AllWhitespace(Break(layout, depth))
  {
  }

  lemma SeparatorShape(layout: Layout, depth: nat)
    ensures |Separator(layout, depth)| >= 1 && Separator(layout, depth)[0] == ','
    ensures AllWhitespace(Separator(layout, depth)[1..])
  {
  }

  /** An encoded value opens with neither whitespace nor a closing bracket. */
  lemma EncodeOpening(v: Json, layout: Layout, depth: nat)
    requires Valid(v)
    ensures |Encode(v, layout, depth)| > 0
    ensures var c := Encode(v, layout, depth)[0]; !IsWhitespace(c) && c != ']' && c != '}' && c != ','
  {
    match v
    case Array(_) =>
    case Object(_) =>
    case Int(i) =>
      IntTextShape(i);
    case Float(t) =>
      NumberTextShape(t);
    case Null =>
    case Bool(_) =>
    case Str(_) =>
  }

  lemma ItemsOpening(items: seq<Json>, layout: Layout, depth: nat)
    requires items != [] && forall i :: 0 <= i < |items| ==> Valid(items[i])
    ensures |EncodeItems(items, layout, depth)| > 0
    ensures var c := EncodeItems(items, layout, depth)[0]; !IsWhitespace(c) && c != ']'
  {
    EncodeOpening(items[0], layout, depth);
  }

  lemma MembersOpening(ms: seq<Member>, layout: Layout, depth: nat)
    requires ms != []
    ensures |EncodeMembers(ms, layout, depth)| > 0 && EncodeMembers(ms, layout, depth)[0] == '"'
  {
    var q := Quote(ms[0].key);
    var e := EncodeMember(ms[0], layout, depth);
    assert |q| > 0 && q[0] == '"';
    assert |e| > 0 && e[0] == '"';
    if |ms| > 1 {
      assert EncodeMembers(ms, layout, depth)[0] == e[0];
    }
  }

  lemma ArrayStep(b: string, y: string, items: seq<Json>, rest: string)
    requires AllWhitespace(b) && y != [] && !IsWhitespace(y[0]) && y[0] != ']'
    requires ReadElements(y) == Some((items, rest))
    ensures ReadValue("[" + (b + y)) == Some((Array(items), rest))
  {
    var t := "[" + (b + y);
    SkipNothing(t);
    TailOfAppend("[", b + y);
    SkipLeadingWhitespace(b, y);
    SkipNothing(y);
  }

  lemma ObjectStep(b: string, y: string, ms: seq<Member>, rest: string)
    requires AllWhitespace(b) && y != [] && !IsWhitespace(y[0]) && y[0] != '}'
    requires ReadMembers(y) == Some((ms, rest))
    ensures ReadValue("{" + (b + y)) == Some((Object(ms), rest))
  {
    var t := "{" + (b + y);
    SkipNothing(t);
    TailOfAppend("{", b + y);
    SkipLeadingWhitespace(b, y);
    SkipNothing(y);
  }

  lemma EmptyStep(open: char, close: char, rest: string)
    requires (open == '[' && close == ']') || (open == '{' && close == '}')
    ensures ReadValue([open, close] + rest) == Some((if open == '[' then Array([]) else Object([]), rest))
  {
    var t := [open, close] + rest;
    SkipNothing(t);
    assert t[1..] == [close] + rest;
    SkipNothing(t[1..]);
    assert t[1..][1..] == rest;
  }

  lemma SkipNothing(s: string)
    requires s == [] || !IsWhitespace(s[0])
    ensures SkipWhitespace(s) == s
  {
  }

  /** The text of a non-empty array, read back from what its items read to. */
  lemma ArrayCase(items: seq<Json>, layout: Layout, depth: nat, rest: string)
    requires items != [] && forall i :: 0 <= i < |items| ==> Valid(items[i])
    requires ReadElements(EncodeItems(items, layout, depth + 1) + (Break(layout, depth) + ("]" + rest))) == Some((items, rest))
    ensures ReadValue(Encode(Array(items), layout, depth) + rest) == Some((Array(items), rest))
  {
    var b1 := Break(layout, depth + 1);
    var y := EncodeItems(items, layout, depth + 1) + (Break(layout, depth) + ("]" + rest));
    Assoc6("[", b1, EncodeItems(items, layout, depth + 1), Break(layout, depth), "]", rest);
    BreakIsWhitespace(layout, depth + 1);
    ItemsOpening(items, layout, depth + 1);
    HeadOfAppend(EncodeItems(items, layout, depth + 1), Break(layout, depth) + ("]" + rest));
    ArrayStep(b1, y, items, rest);
  }

  lemma ObjectCase(ms: seq<Member>, layout: Layout, depth: nat, rest: string)
    requires ms != []
    requires ReadMembers(EncodeMembers(ms, layout, depth + 1) + (Break(layout, depth) + ("}" + rest))) == Some((ms, rest))
    ensures ReadValue(Encode(Object(ms), layout, depth) + rest) == Some((Object(ms), rest))
  {
    var b1 := Break(layout, depth + 1);
    var y := EncodeMembers(ms, layout, depth + 1) + (Break(layout, depth) + ("}" + rest));
    Assoc6("{", b1, EncodeMembers(ms, layout, depth + 1), Break(layout, depth), "}", rest);
    BreakIsWhitespace(layout, depth + 1);
    MembersOpening(ms, layout, depth + 1);
    HeadOfAppend(EncodeMembers(ms, layout, depth + 1), Break(layout, depth) + ("}" + rest));
    ObjectStep(b1, y, ms, rest);
  }

  /** The last element: whitespace, then the closing bracket. */
  lemma ElementsLast(s: string, v: Json, ws: string, rest: string)
    requires AllWhitespace(ws)
    requires ReadValue(s) == Some((v, ws + ("]" + rest)))
    ensures ReadElements(s) == Some(([v], rest))
  {
    SkipLeadingWhitespace(ws, "]" + rest);
    SkipNothing("]" + rest);
    TailOfAppend("]", rest);
  }

  /** An element followed by a separator and more elements. */
  lemma ElementsNext(s: string, v: Json, sep: string, z: string, vs: seq<Json>, rest: string)
    requires sep != [] && sep[0] == ',' && AllWhitespace(sep[1..])
    requires ReadValue(s) == Some((v, sep + z))
    requires ReadElements(z) == Some((vs, rest))
    ensures ReadElements(s) == Some(([v] + vs, rest))
  {
    HeadOfAppend(sep, z);
    SkipNothing(sep + z);
    TailOfAppend(sep, z);
    ReadElementsAfterWhitespace(sep[1..], z);
  }

  lemma MembersLast(s: string, m: Member, ws: string, rest: string)
    requires AllWhitespace(ws)
    requires ReadMember(s) == Some((m, ws + ("}" + rest)))
    ensures ReadMembers(s) == Some(([m], rest))
  {
    SkipLeadingWhitespace(ws, "}" + rest);
    SkipNothing("}" + rest);
    TailOfAppend("}", rest);
  }

  lemma MembersNext(s: string, m: Member, sep: string, z: string, ms: seq<Member>, rest: string)
    requires sep != [] && sep[0] == ',' && AllWhitespace(sep[1..])
    requires ReadMember(s) == Some((m, sep + z))
    requires ReadMembers(z) == Some((ms, rest))
    ensures ReadMembers(s) == Some(([m] + ms, rest))
  {
    HeadOfAppend(sep, z);
    SkipNothing(sep + z);
    TailOfAppend(sep, z);
    ReadMembersAfterWhitespace(sep[1..], z);
  }

  /** A key, the `": "` after it, and a value that reads back. */
  lemma MemberStep(key: string, e: string, after: string, v: Json)
    requires ReadValue(e + after) == Some((v, after))
    ensures ReadMember(Quote(key) + (": " + (e + after))) == Some((Member(key, v), after))
  {
    var u := ": " + (e + after);
    var t := "\"" + (Escape(key) + ("\"" + u));
    assert Quote(key) + u == t;
    SkipNothing(t);
    TailOfAppend("\"", Escape(key) + ("\"" + u));
    ReadEscaped(key, u);
    SkipNothing(u);
    TailOfAppend(": ", e + after);
    assert ": "[1..] == " ";
    ReadValueAfterWhitespace(" ", e + after);
  }

  /** Reading what the encoder wrote gives back the value, whatever follows
      it as long as that cannot continue a number. */
  lemma {:induction false} ReadEncoded(v: Json, layout: Layout, depth: nat, rest: string)
    requires Valid(v)
    requires rest == [] || !IsNumberChar(rest[0])
    ensures ReadValue(Encode(v, layout, depth) + rest) == Some((v, rest))
    decreases v, 2
  {
    match v
    case Array(items) =>
      if items == [] {
        EmptyStep('[', ']', rest);
      } else {
        BreakIsWhitespace(layout, depth);
        ReadEncodedItems(items, layout, depth + 1, Break(layout, depth), rest);
        ArrayCase(items, layout, depth, rest);
      }
    case Object(ms) =>
      if ms == [] {
        EmptyStep('{', '}', rest);
      } else {
        BreakIsWhitespace(layout, depth);
        ReadEncodedMembers(ms, layout, depth + 1, Break(layout, depth), rest);
        ObjectCase(ms, layout, depth, rest);
      }
    case Null =>
      ReadScalarText(v, rest);
    case Bool(_) =>
      ReadScalarText(v, rest);
    case Int(_) =>
      ReadScalarText(v, rest);
    case Float(_) =>
      ReadScalarText(v, rest);
    case Str(_) =>
      ReadScalarText(v, rest);
  }

  lemma {:induction false} ReadEncodedItems(items: seq<Json>, layout: Layout, depth: nat, ws: string, rest: string)
    requires items != [] && forall i :: 0 <= i < |items| ==> Valid(items[i])
    requires AllWhitespace(ws)
    ensures ReadElements(EncodeItems(items, layout, depth) + (ws + ("]" + rest))) == Some((items, rest))
    decreases items, 1
  {
    var close := ws + ("]" + rest);
    if |items| == 1 {
      assert EncodeItems(items, layout, depth) + close == Encode(items[0], layout, depth) + close;
      assert close != [] && !IsNumberChar(close[0]);
      ReadEncoded(items[0], layout, depth, close);
      ElementsLast(Encode(items[0], layout, depth) + close, items[0], ws, rest);
      assert [items[0]] == items;
    } else {
      var sep := Separator(layout, depth);
      var z := EncodeItems(items[1..], layout, depth) + close;
      Assoc4(Encode(items[0], layout, depth), sep, EncodeItems(items[1..], layout, depth), close);
      SeparatorShape(layout, depth);
      HeadOfAppend(sep, z);
      ReadEncoded(items[0], layout, depth, sep + z);
      ReadEncodedItems(items[1..], layout, depth, ws, rest);
      ElementsNext(Encode(items[0], layout, depth) + (sep + z), items[0], sep, z, items[1..], rest);
      assert [items[0]] + items[1..] == items;
    }
  }

  lemma {:induction false} ReadEncodedMember(m: Member, layout: Layout, depth: nat, after: string)
    requires Valid(m.value)
    requires after == [] || !IsNumberChar(after[0])
    ensures ReadMember(EncodeMember(m, layout, depth) + after) == Some((m, after))
    decreases m, 0
  {
    var e := Encode(m.value, layout, depth);
    Assoc4(Quote(m.key), ": ", e, after);
    ReadEncoded(m.value, layout, depth, after);
    MemberStep(m.key, e, after, m.value);
  }

  lemma {:induction false} ReadEncodedMembers(ms: seq<Member>, layout: Layout, depth: nat, ws: string, rest: string)
    requires ms != [] && forall i :: 0 <= i < |ms| ==> Valid(ms[i].value)
    requires AllWhitespace(ws)
    ensures ReadMembers(EncodeMembers(ms, layout, depth) + (ws + ("}" + rest))) == Some((ms, rest))
    decreases ms, 1
  {
    var close := ws + ("}" + rest);
    if |ms| == 1 {
      assert EncodeMembers(ms, layout, depth) + close == EncodeMember(ms[0], layout, depth) + close;
      assert close != [] && !IsNumberChar(close[0]);
      ReadEncodedMember(ms[0], layout, depth, close);
      MembersLast(EncodeMember(ms[0], layout, depth) + close, ms[0], ws, rest);
      assert [ms[0]] == ms;
    } else {
      var sep := Separator(layout, depth);
      var z := EncodeMembers(ms[1..], layout, depth) + close;
      Assoc4(EncodeMember(ms[0], layout, depth), sep, EncodeMembers(ms[1..], layout, depth), close);
      SeparatorShape(layout, depth);
      HeadOfAppend(sep, z);
      ReadEncodedMember(ms[0], layout, depth, sep + z);
      ReadEncodedMembers(ms[1..], layout, depth, ws, rest);
      MembersNext(EncodeMember(ms[0], layout, depth) + (sep + z), ms[0], sep, z, ms[1..], rest);
      assert [ms[0]] + ms[1..] == ms;
    }
  }

  /** `json.loads(json.dumps(v, ...))` is `v`, with its objects sorted when
      `sort_keys` was set. */
  lemma ReadDumps(v: Json, indent: Option<int>, sortKeys: bool)
    requires Valid(v)
    ensures Read(Dumps(v, indent, sortKeys)) == Some(if sortKeys then SortDeep(v) else v)
  {
    var w := if sortKeys then SortDeep(v) else v;
    if sortKeys {
      SortDeepValid(v);
    }
    var e := Dumps(v, indent, sortKeys);
    assert e + [] == e;
    ReadEncoded(w, LayoutOf(indent), 0, []);
  }
}
