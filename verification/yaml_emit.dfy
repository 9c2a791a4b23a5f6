/** `yaml.dump(value, sort_keys=False)` as PyYAML's emitter writes it in its
    default block style (indent 2, no flow collections except `[]` and
    `{}`), for values whose strings need no quoting; and a reader for that
    output, used as the emitter's inverse. */
module YamlEmit {
  import opened Results
  import opened Strings
  import opened Decimal
  import opened JsonValue
  import opened JsonEncode

  predicate IsLetter(c: char) {
    'a' <= c <= 'z' || 'A' <= c <= 'Z'
  }

  predicate IsKeyChar(c: char) {
    IsLetter(c) || IsDigit(c) || c == '_'
  }

  /** The words PyYAML's resolver reads as booleans or null (YAML 1.1):
      a string spelled like one of them cannot be written plain. */
  const ReservedWords: set<string> := {
    "yes", "Yes", "YES", "no", "No", "NO",
    "true", "True", "TRUE", "false", "False", "FALSE",
    "on", "On", "ON", "off", "Off", "OFF",
    "null", "Null", "NULL"
  }

  /** Strings the emitter writes plain, without quotes: a letter first,
      then letters, digits and underscores, not a reserved word, and short
      enough to be a simple mapping key. */
  predicate PlainSafe(s: string) {
    0 < |s| < 128 && IsLetter(s[0]) && (forall k :: 0 <= k < |s| ==> IsKeyChar(s[k])) && s !in ReservedWords
  }

  /** The values this model of the emitter covers. */
  predicate YamlSafe(v: Json) {
    match v
    case Str(s) => PlainSafe(s)
    case Float(t) => IsFloatText(t)
    case Array(items) => forall i :: 0 <= i < |items| ==> YamlSafe(items[i])
    case Object(ms) =>
      UniqueKeys(ms) && forall i :: 0 <= i < |ms| ==> PlainSafe(ms[i].key) && YamlSafe(ms[i].value)
    case _ => true
  }

  function LowerChar(c: char): char {
    if 'A' <= c <= 'Z' then (c as int - 'A' as int + 'a' as int) as char else c
  }

  function Lower(s: string): (r: string)
    ensures |r| == |s| && forall k :: 0 <= k < |s| ==> r[k] == LowerChar(s[k])
  {
    if s == [] then [] else [LowerChar(s[0])] + Lower(s[1..])
  }

  /** PyYAML's float spelling: `repr` in lower case, with `.0` put before
      the exponent when there is no fraction (`1e+16` becomes `1.0e+16`). */
  function YamlFloatText(t: string): string {
    var l := Lower(t);
    if IndexOf(l, '.') == |l| && IndexOf(l, 'e') < |l| then
      var i := IndexOf(l, 'e');
      l[..i] + ".0" + l[i..]
    else l
  }

  /** The plain text of a scalar or of an empty collection. */
  function YamlScalar(v: Json): string
    requires IsAtomic(v)
  {
    match v
    case Null => "null"
    case Bool(b) => if b then "true" else "false"
    case Int(i) => IntToString(i)
    case Float(t) => YamlFloatText(t)
    case Str(s) => s
    case Array(_) => "[]"
    case Object(_) => "{}"
  }

  /** A node whose first line is already under way (at the root, or after
      `- `); later lines are indented by `i`. */
  function Node(v: Json, i: nat): string
    decreases v, 1
  {
    if IsAtomic(v) then YamlScalar(v)
    else if v.Object? then Mapping(v.members, i)
    else Sequence(v.items, i)
  }

  /** What follows `key:` in a mapping at indent `j`: a scalar after a
      space, a nested mapping indented two more on the next line, or a
      sequence on the next line at the key's own indent. */
  function Value(v: Json, j: nat): string
    decreases v, 1
  {
    if IsAtomic(v) then " " + YamlScalar(v)
    else if v.Object? then "\n" + Spaces(j + 2) + Mapping(v.members, j + 2)
    else "\n" + Spaces(j) + Sequence(v.items, j)
  }

  /** `key:` lines at indent `j`, in the members' own order. */
  function Mapping(ms: seq<Member>, j: nat): string
    decreases ms, 0
  {
    if ms == [] then ""
    else
      var first := ms[0].key + ":" + Value(ms[0].value, j);
      if |ms| == 1 then first else first + "\n" + Spaces(j) + Mapping(ms[1..], j)
  }

  /** `- item` lines at indent `j`; an item's own lines go two further in. */
  function Sequence(items: seq<Json>, j: nat): string
    decreases items, 0
  {
    if items == [] then ""
    else
      var first := "- " + Node(items[0], j + 2);
      if |items| == 1 then first else first + "\n" + Spaces(j) + Sequence(items[1..], j)
  }

  /** `yaml.dump`: a plain scalar at the root is an open-ended document,
      which PyYAML closes with a `...` line. */
  function Dump(v: Json): string {
    Node(v, 0) + "\n" + (if IsScalar(v) then "...\n" else "")
  }

  function RemoveSuffix(s: string, suffix: string): (r: string)
    ensures |suffix| <= |s| && s[|s| - |suffix|..] == suffix ==> r == s[..|s| - |suffix|]
    ensures !(|suffix| <= |s| && s[|s| - |suffix|..] == suffix) ==> r == s
  {
    if |suffix| <= |s| && s[|s| - |suffix|..] == suffix then s[..|s| - |suffix|] else s
  }

  /** `convert_json_to_yaml` on a decoded value. */
  function ToYaml(v: Json): string {
    RemoveSuffix(Dump(v), "...\n")
  }

  // A reader for the emitter's output.

  predicate AllSpaces(s: string) {
    forall k :: 0 <= k < |s| ==> s[k] == ' '
  }

  /** Number of spaces at the head of `s`. */
  function Lead(s: string): (n: nat)
    ensures n <= |s| && AllSpaces(s[..n])
    ensures n < |s| ==> s[n] != ' '
  {
    if s != [] && s[0] == ' ' then
      var n := 1 + Lead(s[1..]);
      assert s[..n] == [s[0]] + s[1..][..n - 1];
      n
    else 0
  }

  /** Length of the run of key characters at the head of `s`. */
  function KeyRun(s: string): (n: nat)
    ensures n <= |s| && forall k :: 0 <= k < n ==> IsKeyChar(s[k])
    ensures n < |s| ==> !IsKeyChar(s[n])
  {
    if s != [] && IsKeyChar(s[0]) then 1 + KeyRun(s[1..]) else 0
  }

  /** Index of the end of the first line of `s`. */
  function LineEnd(s: string): (n: nat)
    ensures n <= |s| && forall k :: 0 <= k < n ==> s[k] != '\n'
    ensures n < |s| ==> s[n] == '\n'
  {
    IndexOf(s, '\n')
  }

  /** The value a one-line scalar token denotes. */
  function ScalarOf(t: string): Option<Json> {
    if t == "[]" then Some(Array([]))
    else if t == "{}" then Some(Object([]))
    else if t == "null" then Some(Null)
    else if t == "true" then Some(Bool(true))
    else if t == "false" then Some(Bool(false))
    else
      match ReadInt(t)
      case Some(i) => Some(Int(i))
      case None =>
        if t != [] && (IsDigit(t[0]) || t[0] == '-') then Some(Float(t))
        else if PlainSafe(t) then Some(Str(t))
        else None
  }

  function ReadScalar(s: string): (r: Option<(Json, string)>)
    ensures r.Some? ==> |r.value.1| <= |s|
  {
    var n := LineEnd(s);
    match ScalarOf(s[..n])
    case Some(v) => Some((v, s[n..]))
    case None => None
  }

  /** `rest` opens a new line at indent `j` whose first character satisfies
      the mark: how a mapping or a sequence at `j` goes on. */
  predicate LineAt(rest: string, j: nat, dash: bool) {
    |rest| > j + 1 && rest[0] == '\n' && AllSpaces(rest[1..j + 1]) &&
    (if dash then rest[j + 1] == '-' else IsLetter(rest[j + 1]))
  }

  /** A node after `- ` or at the root: a nested sequence, a mapping whose
      first key is on this line, or a scalar. */
  function ReadNode(s: string, i: nat): (r: Option<(Json, string)>)
    ensures r.Some? ==> |r.value.1| <= |s|
    decreases |s|, 1
  {
    if |s| >= 2 && s[0] == '-' && s[1] == ' ' then
      match ReadSequence(s, i)
      case None => None
      case Some((items, rest)) => Some((Array(items), rest))
    else if 0 < KeyRun(s) < |s| && s[KeyRun(s)] == ':' && IsLetter(s[0]) then
      match ReadMapping(s, i)
      case None => None
      case Some((ms, rest)) => Some((Object(ms), rest))
    else ReadScalar(s)
  }

  /** What follows `key:` in a mapping at indent `j`. */
  function ReadValue(s: string, j: nat): (r: Option<(Json, string)>)
    ensures r.Some? ==> |r.value.1| < |s|
    decreases |s|, 0
  {
    if s != [] && s[0] == ' ' then ReadScalar(s[1..])
    else if LineAt(s, j, true) then
      match ReadSequence(s[j + 1..], j)
      case None => None
      case Some((items, rest)) => Some((Array(items), rest))
    else if |s| > j + 3 && s[0] == '\n' && AllSpaces(s[1..j + 3]) then
      match ReadMapping(s[j + 3..], j + 2)
      case None => None
      case Some((ms, rest)) => Some((Object(ms), rest))
    else None
  }

  /** `key:` lines at indent `j`, the first one starting at the head of `s`. */
  function ReadMapping(s: string, j: nat): (r: Option<(seq<Member>, string)>)
    ensures r.Some? ==> |r.value.1| < |s|
    decreases |s|, 0
  {
    var n := KeyRun(s);
    if n == 0 || n >= |s| || s[n] != ':' then None
    else
      match ReadValue(s[n + 1..], j)
      case None => None
      case Some((v, rest)) =>
        var m := Member(s[..n], v);
        if LineAt(rest, j, false) then
          match ReadMapping(rest[j + 1..], j)
          case None => None
          case Some((ms, r)) => Some(([m] + ms, r))
        else Some(([m], rest))
  }

  /** `- item` lines at indent `j`, the first one starting at the head of `s`. */
  function ReadSequence(s: string, j: nat): (r: Option<(seq<Json>, string)>)
    ensures r.Some? ==> |r.value.1| < |s|
    decreases |s|, 0
  {
    if |s| < 2 || s[0] != '-' || s[1] != ' ' then None
    else
      match ReadNode(s[2..], j + 2)
      case None => None
      case Some((v, rest)) =>
        if LineAt(rest, j, true) then
          match ReadSequence(rest[j + 1..], j)
          case None => None
          case Some((vs, r)) => Some(([v] + vs, r))
        else Some(([v], rest))
  }

  /** A whole document: one node and the final line break. */
  function ReadYaml(text: string): Option<Json> {
    if text == [] || text[|text| - 1] != '\n' then None
    else
      match ReadNode(text[..|text| - 1], 0)
      case Some((v, rest)) => if rest == [] then Some(v) else None
      case None => None
  }

  // What reading the emitter's output gives back.

  /** The tree the reader sees: floats carry the text PyYAML wrote for
      them, everything else is unchanged. */
  function YamlNormal(v: Json): (r: Json)
    decreases v, 1
  {
    match v
    case Float(t) => Float(YamlFloatText(t))
    case Array(items) => Array(NormalItems(items))
    case Object(ms) => Object(NormalMembers(ms))
    case _ => v
  }

  function NormalItems(items: seq<Json>): (r: seq<Json>)
    ensures |r| == |items| && forall i :: 0 <= i < |items| ==> r[i] == YamlNormal(items[i])
    decreases items, 0
  {
    if items == [] then [] else [YamlNormal(items[0])] + NormalItems(items[1..])
  }

  function NormalMembers(ms: seq<Member>): (r: seq<Member>)
    ensures |r| == |ms| && forall i :: 0 <= i < |ms| ==> r[i] == Member(ms[i].key, YamlNormal(ms[i].value))
    decreases ms, 0
  {
    if ms == [] then [] else [Member(ms[0].key, YamlNormal(ms[0].value))] + NormalMembers(ms[1..])
  }

  /** Any character other than a digit after the first position keeps a
      text from reading as an integer. */
  lemma NotAnInt(s: string, k: nat)
    requires 1 <= k < |s| && !IsDigit(s[k])
    ensures ReadInt(s) == None
  {
    assert s[1..][k - 1] == s[k];
  }

  /** A number text opens with a digit, or with a minus sign and a digit. */
  lemma NumberTextHead(t: string)
    requires IsNumberText(t)
    ensures |t| > 0 && (IsDigit(t[0]) || (t[0] == '-' && |t| >= 2 && IsDigit(t[1])))
  {
    var a := if |t| > 0 && t[0] == '-' then t[1..] else t;
    var n := DigitRun(a);
    assert IsCanonicalDigits(a[..n]);
    assert a[..n][0] == a[0];
  }

  /** Lower-casing a number text only turns `E` into `e`. */
  lemma LowerNumber(t: string)
    requires forall k :: 0 <= k < |t| ==> IsNumberChar(t[k])
    ensures var l := Lower(t);
      (forall k :: 0 <= k < |l| ==> IsNumberChar(l[k])) &&
      (forall k :: 0 <= k < |l| && t[k] != 'E' ==> l[k] == t[k]) &&
      (forall k :: 0 <= k < |l| && t[k] == 'E' ==> l[k] == 'e')
  {
  }

  /** Putting `.0` in front of position `i` of a number text. */
  lemma InsertPoint(l: string, i: nat)
    requires 1 <= i < |l| && forall k :: 0 <= k < |l| ==> IsNumberChar(l[k])
    ensures var y := l[..i] + ".0" + l[i..];
      |y| == |l| + 2 && y[0] == l[0] && (i >= 2 ==> y[1] == l[1]) && y[i] == '.' &&
      y[|y| - 1] == l[|l| - 1] && forall k :: 0 <= k < |y| ==> IsNumberChar(y[k])
  {
    var y := l[..i] + ".0" + l[i..];
    assert forall k :: 0 <= k < i ==> y[k] == l[k];
    assert forall k :: i + 2 <= k < |y| ==> y[k] == l[k - 2];
  }

  /** A text with a digit, or a sign and a digit, at its head. */
  predicate SignedStart(y: string) {
    |y| >= 2 && (IsDigit(y[0]) || y[0] == '-') && (y[0] == '-' ==> IsDigit(y[1]))
  }

  /** The shape of a number text as PyYAML writes it. */
  predicate FloatShape(y: string) {
    SignedStart(y) && IsDigit(y[|y| - 1]) && ReadInt(y) == None &&
    forall k :: 0 <= k < |y| ==> IsNumberChar(y[k])
  }

  lemma FloatTextShape(t: string)
    requires IsFloatText(t)
    ensures FloatShape(YamlFloatText(t))
  {
    var l := Lower(t);
    if IndexOf(l, '.') == |l| && IndexOf(l, 'e') < |l| {
      FloatWithoutPoint(t);
    } else {
      FloatWithPoint(t);
    }
  }

  lemma FloatWithoutPoint(t: string)
    requires IsFloatText(t)
    requires IndexOf(Lower(t), '.') == |Lower(t)| && IndexOf(Lower(t), 'e') < |Lower(t)|
    ensures FloatShape(YamlFloatText(t))
  {
    NumberTextShape(t);
    NumberTextHead(t);
    LowerNumber(t);
    var l := Lower(t);
    var i := IndexOf(l, 'e');
    assert YamlFloatText(t) == l[..i] + ".0" + l[i..];
    InsertedShape(l, i);
  }

  lemma InsertedShape(l: string, i: nat)
    requires 1 <= i < |l| && l[i] == 'e' && IsDigit(l[|l| - 1])
    requires IsDigit(l[0]) || (l[0] == '-' && |l| >= 2 && IsDigit(l[1]))
    requires forall k :: 0 <= k < |l| ==> IsNumberChar(l[k])
    ensures FloatShape(l[..i] + ".0" + l[i..])
  {
    var y := l[..i] + ".0" + l[i..];
    InsertPoint(l, i);
    assert l[0] == '-' ==> i >= 2;
    NotAnInt(y, i);
  }

  lemma FloatWithPoint(t: string)
    requires IsFloatText(t)
    requires !(IndexOf(Lower(t), '.') == |Lower(t)| && IndexOf(Lower(t), 'e') < |Lower(t)|)
    ensures FloatShape(YamlFloatText(t))
  {
    NumberTextShape(t);
    NumberTextHead(t);
    var w :| 0 <= w < |t| && (t[w] == '.' || t[w] == 'e' || t[w] == 'E');
    LoweredShape(t, w);
  }

  /** A number text with a fraction or an exponent, lower-cased, is no
      int; when it has no `.` that is because it has no `e` either. */
  lemma LoweredShape(t: string, w: nat)
    requires w < |t| && (t[w] == '.' || t[w] == 'e' || t[w] == 'E')
    requires IsDigit(t[|t| - 1]) && (IsDigit(t[0]) || (t[0] == '-' && |t| >= 2 && IsDigit(t[1])))
    requires forall k :: 0 <= k < |t| ==> IsNumberChar(t[k])
    requires !(IndexOf(Lower(t), '.') == |Lower(t)| && IndexOf(Lower(t), 'e') < |Lower(t)|)
    ensures FloatShape(YamlFloatText(t))
  {
    LowerNumber(t);
    var l := Lower(t);
    assert l[w] == '.' || l[w] == 'e';
    assert l[0] == t[0];
    assert l[|l| - 1] == t[|t| - 1];
    assert t[0] == '-' ==> l[1] == t[1];
    LowerFloatShape(l, w);
  }

  /** The same, stated on the lower-cased text. */
  lemma LowerFloatShape(l: string, w: nat)
    requires w < |l| && (l[w] == '.' || l[w] == 'e')
    requires IsDigit(l[|l| - 1]) && (IsDigit(l[0]) || (l[0] == '-' && |l| >= 2 && IsDigit(l[1])))
    requires forall k :: 0 <= k < |l| ==> IsNumberChar(l[k])
    requires !(IndexOf(l, '.') == |l| && IndexOf(l, 'e') < |l|)
    ensures FloatShape(l)
  {
    var i := IndexOf(l, '.');
    if l[w] == '.' {
      assert i <= w;
    } else {
      assert IndexOf(l, 'e') <= w;
    }
    assert i < |l| && l[i] == '.';
    NotAnInt(l, i);
  }

  /** Shape of the text of a scalar: one line, no leading space, a
      negative number has a digit after its sign, a text starting with a
      letter is all key characters, and it does not end with a full stop. */
  predicate OneLineScalar(t: string) {
    |t| > 0 && t[0] != ' ' && t[|t| - 1] != '.' &&
    (forall k :: 0 <= k < |t| ==> t[k] != '\n') &&
    (t[0] == '-' ==> |t| >= 2 && IsDigit(t[1])) &&
    (IsLetter(t[0]) ==> forall k :: 0 <= k < |t| ==> IsKeyChar(t[k]))
  }

  lemma ScalarShape(v: Json)
    requires IsAtomic(v) && YamlSafe(v)
    ensures OneLineScalar(YamlScalar(v))
  {
    match v
    case Int(i) =>
      IntScalarShape(i);
    case Float(x) =>
      FloatScalarShape(x);
    case Str(s) =>
      StrScalarShape(s);
    case Null =>
    case Bool(_) =>
    case Array(_) =>
    case Object(_) =>
  }

  lemma IntScalarShape(i: int)
    ensures OneLineScalar(IntToString(i))
  {
    IntTextShape(i);
    var t := IntToString(i);
    assert forall k :: 0 <= k < |t| ==> t[k] != '\n';
  }

  lemma FloatScalarShape(x: string)
    requires IsFloatText(x)
    ensures OneLineScalar(YamlFloatText(x))
  {
    FloatTextShape(x);
    var t := YamlFloatText(x);
    assert forall k :: 0 <= k < |t| ==> t[k] != '\n';
    assert !IsLetter(t[0]);
  }

  lemma StrScalarShape(s: string)
    requires PlainSafe(s)
    ensures OneLineScalar(s)
  {
    assert IsKeyChar(s[|s| - 1]);
  }

  /** A scalar's text denotes the scalar. */
  lemma ScalarOfText(v: Json)
    requires IsAtomic(v) && YamlSafe(v)
    ensures ScalarOf(YamlScalar(v)) == Some(YamlNormal(v))
  {
    match v
    case Int(i) =>
      IntScalarOf(i);
    case Float(x) =>
      FloatScalarOf(x);
    case Str(s) =>
      StrScalarOf(s);
    case Null =>
    case Bool(_) =>
    case Array(_) =>
    case Object(_) =>
  }

  lemma IntScalarOf(i: int)
    ensures ScalarOf(IntToString(i)) == Some(Int(i))
  {
    var t := IntToString(i);
    IntScalarShape(i);
    assert t[0] != '[' && t[0] != '{' && t[0] != 'n' && t[0] != 't' && t[0] != 'f';
    ReadIntOfIntToString(i);
  }

  lemma FloatScalarOf(x: string)
    requires IsFloatText(x)
    ensures ScalarOf(YamlFloatText(x)) == Some(Float(YamlFloatText(x)))
  {
    FloatTextShape(x);
    ShapedScalarOf(YamlFloatText(x));
  }

  lemma ShapedScalarOf(t: string)
    requires FloatShape(t)
    ensures ScalarOf(t) == Some(Float(t))
  {
    assert t[0] != '[' && t[0] != '{' && t[0] != 'n' && t[0] != 't' && t[0] != 'f';
    assert t != "[]" && t != "{}" && t != "null" && t != "true" && t != "false";
  }

  lemma StrScalarOf(s: string)
    requires PlainSafe(s)
    ensures ScalarOf(s) == Some(Str(s))
  {
    assert s != "null" && s != "true" && s != "false";
    assert s[0] != '[' && s[0] != '{';
    assert !IsDigit(s[0]) && s[0] != '-';
    assert !IsCanonicalDigits(s);
  }

  lemma {:induction false} LeadOf(s: string, n: nat)
    requires n < |s| && AllSpaces(s[..n]) && s[n] != ' '
    ensures Lead(s) == n
  {
    if n > 0 {
      assert s[0] == s[..n][0];
      assert s[1..][..n - 1] == s[..n][1..];
      LeadOf(s[1..], n - 1);
    }
  }

  /** A line that goes on at indent `j` is indented by exactly `j`. */
  lemma LineAtLead(rest: string, j: nat, dash: bool)
    requires LineAt(rest, j, dash)
    ensures Lead(rest[1..]) == j
  {
    assert rest[1..][..j] == rest[1..j + 1];
    LeadOf(rest[1..], j);
  }

  /** What may follow a node whose later lines are indented by `i`: the
      end, or a line indented less. */
  predicate Closed(rest: string, i: nat) {
    rest == [] || (rest[0] == '\n' && Lead(rest[1..]) < i)
  }

  /** What may follow the value of a key at indent `j`: as above, or the
      next key at `j`. */
  predicate ValueClosed(rest: string, j: nat) {
    Closed(rest, j) || LineAt(rest, j, false)
  }

  lemma {:induction false} KeyRunOf(k: string, rest: string)
    requires forall i :: 0 <= i < |k| ==> IsKeyChar(k[i])
    requires rest == [] || !IsKeyChar(rest[0])
    ensures KeyRun(k + rest) == |k|
  {
    if k != [] {
      TailOfAppend(k, rest);
      KeyRunOf(k[1..], rest);
    } else {
      assert k + rest == rest;
    }
  }

  lemma LineEndOf(t: string, rest: string)
    requires forall k :: 0 <= k < |t| ==> t[k] != '\n'
    requires rest == [] || rest[0] == '\n'
    ensures LineEnd(t + rest) == |t|
  {
    assert forall k :: 0 <= k < |t| ==> (t + rest)[k] == t[k];
    assert |t| < |t + rest| ==> (t + rest)[|t|] == rest[0];
  }

  lemma ReadScalarOf(v: Json, rest: string)
    requires IsAtomic(v) && YamlSafe(v)
    requires rest == [] || rest[0] == '\n'
    ensures ReadScalar(YamlScalar(v) + rest) == Some((YamlNormal(v), rest))
  {
    var t := YamlScalar(v);
    ScalarShape(v);
    LineEndOf(t, rest);
    SplitAt(t, rest);
    ScalarOfText(v);
  }

  /** A scalar read as a node is neither a sequence nor a mapping. */
  lemma ReadNodeOfScalar(v: Json, i: nat, rest: string)
    requires IsAtomic(v) && YamlSafe(v)
    requires rest == [] || rest[0] == '\n'
    ensures ReadNode(YamlScalar(v) + rest, i) == Some((YamlNormal(v), rest))
  {
    var t := YamlScalar(v);
    var s := t + rest;
    ScalarShape(v);
    HeadOfAppend(t, rest);
    if t[0] == '-' {
      assert s[1] == t[1];
    }
    if IsLetter(t[0]) {
      KeyRunOf(t, rest);
      if |t| < |s| {
        assert s[|t|] == rest[0];
      }
    }
    ReadScalarOf(v, rest);
  }

  lemma ClosedStops(rest: string, j: nat, dash: bool)
    requires Closed(rest, j)
    ensures !LineAt(rest, j, dash)
  {
    if LineAt(rest, j, dash) {
      LineAtLead(rest, j, dash);
    }
  }

  /** Whatever may follow a key's value also closes a node indented
      further, and ends the sequence at the key's indent. */
  lemma ValueClosedNested(rest: string, j: nat)
    requires ValueClosed(rest, j)
    ensures Closed(rest, j + 2) && !LineAt(rest, j, true)
    ensures rest == [] || rest[0] == '\n'
  {
    if LineAt(rest, j, false) {
      LineAtLead(rest, j, false);
    } else {
      ClosedStops(rest, j, true);
    }
  }

  /** A new line at indent `j` opening with `x`. */
  lemma LineAtOf(j: nat, x: string, dash: bool)
    requires x != [] && (if dash then x[0] == '-' else IsLetter(x[0]))
    ensures var s := "\n" + (Spaces(j) + x); LineAt(s, j, dash) && s[j + 1..] == x
  {
    var s := "\n" + (Spaces(j) + x);
    assert s[1..j + 1] == Spaces(j);
    assert s[j + 1..] == x;
  }

  function MappingRest(ms: seq<Member>, j: nat, rest: string): string
    requires ms != []
  {
    if |ms| == 1 then rest else "\n" + (Spaces(j) + (Mapping(ms[1..], j) + rest))
  }

  function SequenceRest(items: seq<Json>, j: nat, rest: string): string
    requires items != []
  {
    if |items| == 1 then rest else "\n" + (Spaces(j) + (Sequence(items[1..], j) + rest))
  }

  lemma MappingSplit(ms: seq<Member>, j: nat, rest: string)
    requires ms != []
    ensures Mapping(ms, j) + rest == ms[0].key + (":" + (Value(ms[0].value, j) + MappingRest(ms, j, rest)))
  {
    var k := ms[0].key;
    var x := Value(ms[0].value, j);
    if |ms| == 1 {
      Assoc4(k, ":", x, rest);
    } else {
      var m := Mapping(ms[1..], j);
      assert Mapping(ms, j) == k + ":" + x + "\n" + Spaces(j) + m;
      Assoc6(k, ":", x, "\n", Spaces(j), m);
      Assoc3(k + (":" + (x + ("\n" + (Spaces(j) + m)))), rest, "");
    }
  }

  lemma SequenceSplit(items: seq<Json>, j: nat, rest: string)
    requires items != []
    ensures Sequence(items, j) + rest == "- " + (Node(items[0], j + 2) + SequenceRest(items, j, rest))
  {
    var x := Node(items[0], j + 2);
    if |items| == 1 {
      Assoc3("- ", x, rest);
    } else {
      var q := Sequence(items[1..], j);
      assert Sequence(items, j) == "- " + x + "\n" + Spaces(j) + q;
      Assoc6("- ", x, "\n", Spaces(j), q, rest);
    }
  }

  lemma MappingHead(ms: seq<Member>, j: nat, rest: string)
    requires ms != [] && PlainSafe(ms[0].key)
    ensures var s := Mapping(ms, j) + rest; var k := ms[0].key;
      s != [] && IsLetter(s[0]) && KeyRun(s) == |k| && |k| < |s| && s[|k|] == ':'
  {
    var k := ms[0].key;
    var x := ":" + (Value(ms[0].value, j) + MappingRest(ms, j, rest));
    MappingSplit(ms, j, rest);
    KeyRunOf(k, x);
    SplitAt(k, x);
    HeadOfAppend(k, x);
  }

  lemma SequenceHead(items: seq<Json>, j: nat, rest: string)
    requires items != []
    ensures var s := Sequence(items, j) + rest; |s| >= 2 && s[0] == '-' && s[1] == ' '
  {
    SequenceSplit(items, j, rest);
  }

  lemma MappingLast(k: string, x: string, j: nat, v: Json, after: string)
    requires k != [] && forall i :: 0 <= i < |k| ==> IsKeyChar(k[i])
    requires ReadValue(x, j) == Some((v, after)) && !LineAt(after, j, false)
    ensures ReadMapping(k + (":" + x), j) == Some(([Member(k, v)], after))
  {
    var s := k + (":" + x);
    KeyRunOf(k, ":" + x);
    SplitAt(k, ":" + x);
    assert s[|k| + 1..] == x;
  }

  lemma MappingNext(k: string, x: string, j: nat, v: Json, after: string, ms: seq<Member>, r: string)
    requires k != [] && forall i :: 0 <= i < |k| ==> IsKeyChar(k[i])
    requires ReadValue(x, j) == Some((v, after)) && LineAt(after, j, false)
    requires ReadMapping(after[j + 1..], j) == Some((ms, r))
    ensures ReadMapping(k + (":" + x), j) == Some(([Member(k, v)] + ms, r))
  {
    var s := k + (":" + x);
    KeyRunOf(k, ":" + x);
    SplitAt(k, ":" + x);
    assert s[|k| + 1..] == x;
  }

  lemma SequenceLast(x: string, j: nat, v: Json, after: string)
    requires ReadNode(x, j + 2) == Some((v, after)) && !LineAt(after, j, true)
    ensures ReadSequence("- " + x, j) == Some(([v], after))
  {
    assert ("- " + x)[2..] == x;
  }

  lemma SequenceNext(x: string, j: nat, v: Json, after: string, vs: seq<Json>, r: string)
    requires ReadNode(x, j + 2) == Some((v, after)) && LineAt(after, j, true)
    requires ReadSequence(after[j + 1..], j) == Some((vs, r))
    ensures ReadSequence("- " + x, j) == Some(([v] + vs, r))
  {
    assert ("- " + x)[2..] == x;
  }

  lemma ValueScalarStep(x: string, j: nat)
    ensures ReadValue(" " + x, j) == ReadScalar(x)
  {
    assert (" " + x)[1..] == x;
  }

  lemma ValueMappingStep(j: nat, x: string, ms: seq<Member>, r: string)
    requires x != [] && IsLetter(x[0])
    requires ReadMapping(x, j + 2) == Some((ms, r))
    ensures ReadValue("\n" + (Spaces(j + 2) + x), j) == Some((Object(ms), r))
  {
    var s := "\n" + (Spaces(j + 2) + x);
    IndentedParts(j + 2, x);
    assert s[j + 1] == Spaces(j + 2)[j];
    assert !LineAt(s, j, true);
    assert AllSpaces(s[1..j + 3]);
  }

  /** The pieces of a new line indented by `n`. */
  lemma IndentedParts(n: nat, x: string)
    ensures var s := "\n" + (Spaces(n) + x);
      |s| == n + 1 + |x| && s[0] == '\n' && s[1..n + 1] == Spaces(n) && s[n + 1..] == x
  {
    var s := "\n" + (Spaces(n) + x);
    assert s[1..] == Spaces(n) + x;
    assert s[1..][..n] == Spaces(n);
    assert s[1..][n..] == x;
  }

  lemma ValueSequenceStep(j: nat, x: string, items: seq<Json>, r: string)
    requires x != [] && x[0] == '-'
    requires ReadSequence(x, j) == Some((items, r))
    ensures ReadValue("\n" + (Spaces(j) + x), j) == Some((Array(items), r))
  {
    LineAtOf(j, x, true);
  }

  /** Reading a node the emitter wrote gives back the node (with PyYAML's
      float spelling), and stops where the node ends. */
  lemma {:induction false} ReadNodeOf(v: Json, i: nat, rest: string)
    requires YamlSafe(v) && Closed(rest, i)
    ensures ReadNode(Node(v, i) + rest, i) == Some((YamlNormal(v), rest))
    decreases v, 2
  {
    if IsAtomic(v) {
      ReadNodeOfScalar(v, i, rest);
    } else if v.Object? {
      ReadMappingOf(v.members, i, rest);
      MappingHead(v.members, i, rest);
    } else {
      ReadSequenceOf(v.items, i, rest);
      SequenceHead(v.items, i, rest);
    }
  }

  lemma {:induction false} ReadValueOf(v: Json, j: nat, rest: string)
    requires YamlSafe(v) && ValueClosed(rest, j)
    ensures ReadValue(Value(v, j) + rest, j) == Some((YamlNormal(v), rest))
    decreases v, 2
  {
    ValueClosedNested(rest, j);
    if IsAtomic(v) {
      Assoc3(" ", YamlScalar(v), rest);
      ReadScalarOf(v, rest);
      ValueScalarStep(YamlScalar(v) + rest, j);
    } else if v.Object? {
      var m := Mapping(v.members, j + 2);
      ReadMappingOf(v.members, j + 2, rest);
      Assoc4("\n", Spaces(j + 2), m, rest);
      MappingHead(v.members, j + 2, rest);
      ValueMappingStep(j, m + rest, NormalMembers(v.members), rest);
    } else {
      var q := Sequence(v.items, j);
      ReadSequenceOf(v.items, j, rest);
      Assoc4("\n", Spaces(j), q, rest);
      SequenceHead(v.items, j, rest);
      ValueSequenceStep(j, q + rest, NormalItems(v.items), rest);
    }
  }

  lemma {:induction false} ReadMappingOf(ms: seq<Member>, j: nat, rest: string)
    requires ms != [] && forall i :: 0 <= i < |ms| ==> PlainSafe(ms[i].key) && YamlSafe(ms[i].value)
    requires Closed(rest, j)
    ensures ReadMapping(Mapping(ms, j) + rest, j) == Some((NormalMembers(ms), rest))
    decreases ms, 1
  {
    var k := ms[0].key;
    var v := ms[0].value;
    var after := MappingRest(ms, j, rest);
    var x := Value(v, j) + after;
    MappingSplit(ms, j, rest);
    if |ms| == 1 {
      ReadValueOf(v, j, rest);
      ClosedStops(rest, j, false);
      MappingLast(k, x, j, YamlNormal(v), rest);
      assert NormalMembers(ms) == [Member(k, YamlNormal(v))];
    } else {
      var m := Mapping(ms[1..], j);
      MappingHead(ms[1..], j, rest);
      LineAtOf(j, m + rest, false);
      ReadValueOf(v, j, after);
      ReadMappingOf(ms[1..], j, rest);
      MappingNext(k, x, j, YamlNormal(v), after, NormalMembers(ms[1..]), rest);
      assert NormalMembers(ms) == [Member(k, YamlNormal(v))] + NormalMembers(ms[1..]);
    }
  }

  lemma {:induction false} ReadSequenceOf(items: seq<Json>, j: nat, rest: string)
    requires items != [] && forall i :: 0 <= i < |items| ==> YamlSafe(items[i])
    requires ValueClosed(rest, j)
    ensures ReadSequence(Sequence(items, j) + rest, j) == Some((NormalItems(items), rest))
    decreases items, 1
  {
    var after := SequenceRest(items, j, rest);
    var x := Node(items[0], j + 2) + after;
    SequenceSplit(items, j, rest);
    if |items| == 1 {
      ValueClosedNested(rest, j);
      ReadNodeOf(items[0], j + 2, rest);
      SequenceLast(x, j, YamlNormal(items[0]), rest);
      assert NormalItems(items) == [YamlNormal(items[0])];
    } else {
      var q := Sequence(items[1..], j);
      SequenceHead(items[1..], j, rest);
      LineAtOf(j, q + rest, true);
      LineAtLead(after, j, true);
      ReadNodeOf(items[0], j + 2, after);
      ReadSequenceOf(items[1..], j, rest);
      SequenceNext(x, j, YamlNormal(items[0]), after, NormalItems(items[1..]), rest);
      assert NormalItems(items) == [YamlNormal(items[0])] + NormalItems(items[1..]);
    }
  }

  /** A text that does not end with a full stop. */
  predicate EndsWell(s: string) {
    |s| > 0 && s[|s| - 1] != '.'
  }

  lemma EndsWellAppend(a: string, b: string)
    requires EndsWell(b)
    ensures EndsWell(a + b)
  {
    LastOfAppend(a, b);
  }

  lemma {:induction false} NodeEndsWell(v: Json, i: nat)
    requires YamlSafe(v)
    ensures EndsWell(Node(v, i))
    decreases v, 2
  {
    if IsAtomic(v) {
      ScalarShape(v);
    } else if v.Object? {
      MappingEndsWell(v.members, i);
    } else {
      SequenceEndsWell(v.items, i);
    }
  }

  lemma {:induction false} ValueEndsWell(v: Json, j: nat)
    requires YamlSafe(v)
    ensures EndsWell(Value(v, j))
    decreases v, 2
  {
    if IsAtomic(v) {
      ScalarShape(v);
      EndsWellAppend(" ", YamlScalar(v));
    } else if v.Object? {
      MappingEndsWell(v.members, j + 2);
      EndsWellAppend("\n" + Spaces(j + 2), Mapping(v.members, j + 2));
    } else {
      SequenceEndsWell(v.items, j);
      EndsWellAppend("\n" + Spaces(j), Sequence(v.items, j));
    }
  }

  lemma {:induction false} MappingEndsWell(ms: seq<Member>, j: nat)
    requires ms != [] && forall i :: 0 <= i < |ms| ==> YamlSafe(ms[i].value)
    ensures EndsWell(Mapping(ms, j))
    decreases ms, 1
  {
    var first := ms[0].key + ":" + Value(ms[0].value, j);
    if |ms| == 1 {
      ValueEndsWell(ms[0].value, j);
      EndsWellAppend(ms[0].key + ":", Value(ms[0].value, j));
    } else {
      MappingEndsWell(ms[1..], j);
      EndsWellAppend(first + "\n" + Spaces(j), Mapping(ms[1..], j));
    }
  }

  lemma {:induction false} SequenceEndsWell(items: seq<Json>, j: nat)
    requires items != [] && forall i :: 0 <= i < |items| ==> YamlSafe(items[i])
    ensures EndsWell(Sequence(items, j))
    decreases items, 1
  {
    var first := "- " + Node(items[0], j + 2);
    if |items| == 1 {
      NodeEndsWell(items[0], j + 2);
      EndsWellAppend("- ", Node(items[0], j + 2));
    } else {
      SequenceEndsWell(items[1..], j);
      EndsWellAppend(first + "\n" + Spaces(j), Sequence(items[1..], j));
    }
  }

  /** `convert_json_to_yaml` writes the node and one line break: the `...`
      line PyYAML adds after a scalar document is removed, and no other
      document ends with one. */
  lemma ToYamlIsNode(v: Json)
    requires YamlSafe(v)
    ensures ToYaml(v) == Node(v, 0) + "\n"
  {
    var n := Node(v, 0);
    var d := Dump(v);
    NodeEndsWell(v, 0);
    if IsScalar(v) {
      assert d == (n + "\n") + "...\n";
      SplitAt(n + "\n", "...\n");
    } else {
      assert d == n + "\n";
      if |d| >= 4 {
        assert d[|d| - 4..][2] == n[|n| - 1];
      }
    }
  }

  /** Reading the YAML back gives the value, members in their original
      order, floats in PyYAML's spelling. */
  lemma ReadToYaml(v: Json)
    requires YamlSafe(v)
    ensures ReadYaml(ToYaml(v)) == Some(YamlNormal(v))
  {
    var n := Node(v, 0);
    ToYamlIsNode(v);
    assert (n + "\n")[..|n + "\n"| - 1] == n + [];
    ReadNodeOf(v, 0, []);
  }

  predicate FloatFree(v: Json) {
    match v
    case Float(_) => false
    case Array(items) => forall i :: 0 <= i < |items| ==> FloatFree(items[i])
    case Object(ms) => forall i :: 0 <= i < |ms| ==> FloatFree(ms[i].value)
    case _ => true
  }

  lemma {:induction false} NormalOfFloatFree(v: Json)
    requires FloatFree(v)
    ensures YamlNormal(v) == v
    decreases v
  {
    match v
    case Array(items) =>
      forall i | 0 <= i < |items|
        ensures NormalItems(items)[i] == items[i]
      {
        NormalOfFloatFree(items[i]);
      }
    case Object(ms) =>
      forall i | 0 <= i < |ms|
        ensures NormalMembers(ms)[i] == ms[i]
      {
        NormalOfFloatFree(ms[i].value);
      }
    case _ =>
  }

  /** Without floats the YAML reads back as exactly the value: the emitter
      neither sorts, drops nor repeats keys or items. */
  lemma ToYamlKeepsOrder(v: Json)
    requires YamlSafe(v) && FloatFree(v)
    ensures ReadYaml(ToYaml(v)) == Some(v)
  {
    ReadToYaml(v);
    NormalOfFloatFree(v);
  }
}
