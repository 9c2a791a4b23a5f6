/** `json.dumps(value, indent=indent, sort_keys=sort_keys, ensure_ascii=False)`
    on the value tree: the compact layout with `", "` and `": "` separators,
    and the indented layout with `","` at line ends, `": "` after keys and
    `indent * depth` spaces at the start of every line. */
module JsonEncode {
  import opened Results
  import opened Decimal
  import opened JsonValue
  import opened KeyOrder
  import opened JsonString

  datatype Layout = Compact | Indented(width: nat)

  /** Python turns an int `indent` into `' ' * indent`, so a negative
      indent lays out like 0; `None` keeps everything on one line. */
  function LayoutOf(indent: Option<int>): (l: Layout)
    ensures indent.None? <==> l.Compact?
    ensures indent.Some? && indent.value >= 0 ==> l == Indented(indent.value)
    ensures indent.Some? && indent.value < 0 ==> l == Indented(0)
  {
    match indent
    case None => Compact
    case Some(n) => Indented(if n < 0 then 0 else n)
  }

  function Spaces(n: nat): (s: string)
    ensures |s| == n && forall k :: 0 <= k < n ==> s[k] == ' '
  {
    if n == 0 then "" else " " + Spaces(n - 1)
  }

  /** What opens a new line at `depth` in the indented layout; nothing in
      the compact one. */
  function Break(layout: Layout, depth: nat): string {
    match layout
    case Compact => ""
    case Indented(w) => "\n" + Spaces(w * depth)
  }

  /** The item separator: `", "` compact, `","` then a new line indented. */
  function Separator(layout: Layout, depth: nat): string {
    match layout
    case Compact => ", "
    case Indented(_) => "," + Break(layout, depth)
  }

  function ScalarText(v: Json): string
    requires IsScalar(v)
  {
    match v
    case Null => "null"
    case Bool(b) => if b then "true" else "false"
    case Int(i) => IntToString(i)
    case Float(t) => t
    case Str(s) => Quote(s)
  }

  /** The text of `v` when it starts at nesting level `depth`. */
  function Encode(v: Json, layout: Layout, depth: nat): string {
    match v
    case Array(items) =>
      if items == [] then "[]"
      else "[" + Break(layout, depth + 1) + EncodeItems(items, layout, depth + 1) + Break(layout, depth) + "]"
    case Object(ms) =>
      if ms == [] then "{}"
      else "{" + Break(layout, depth + 1) + EncodeMembers(ms, layout, depth + 1) + Break(layout, depth) + "}"
    case _ => ScalarText(v)
  }

  function EncodeItems(items: seq<Json>, layout: Layout, depth: nat): string {
    if items == [] then ""
    else if |items| == 1 then Encode(items[0], layout, depth)
    else Encode(items[0], layout, depth) + Separator(layout, depth) + EncodeItems(items[1..], layout, depth)
  }

  function EncodeMember(m: Member, layout: Layout, depth: nat): string {
    Quote(m.key) + ": " + Encode(m.value, layout, depth)
  }

  function EncodeMembers(ms: seq<Member>, layout: Layout, depth: nat): string {
    if ms == [] then ""
    else if |ms| == 1 then EncodeMember(ms[0], layout, depth)
    else EncodeMember(ms[0], layout, depth) + Separator(layout, depth) + EncodeMembers(ms[1..], layout, depth)
  }

  /** `json.dumps`. Python sorts each object's items as it encodes them;
      encoding the tree whose objects are all sorted beforehand writes the
      same text. */
  function Dumps(v: Json, indent: Option<int>, sortKeys: bool): string {
    Encode(if sortKeys then SortDeep(v) else v, LayoutOf(indent), 0)
  }

  predicate OneLine(s: string) {
    forall k :: 0 <= k < |s| ==> s[k] != '\n'
  }

  lemma ScalarTextOneLine(v: Json)
    requires IsScalar(v) && Valid(v)
    ensures |ScalarText(v)| > 0 && ScalarText(v)[0] != ' ' && OneLine(ScalarText(v))
  {
    match v
    case Float(t) =>
      NumberTextShape(t);
    case Int(i) =>
      if i >= 0 {
        assert IntToString(i) == NatToString(i);
      }
    case Null =>
    case Bool(_) =>
    case Str(_) =>
  }

  /** Without an indent the whole text is one line. */
  lemma {:induction false} CompactIsOneLine(v: Json, depth: nat)
    requires Valid(v)
    ensures OneLine(Encode(v, Compact, depth))
    decreases v, 1
  {
    match v
    case Array(items) =>
      CompactItemsOneLine(items, depth + 1);
    case Object(ms) =>
      CompactMembersOneLine(ms, depth + 1);
    case _ =>
      ScalarTextOneLine(v);
  }

  lemma {:induction false} CompactItemsOneLine(items: seq<Json>, depth: nat)
    requires forall i :: 0 <= i < |items| ==> Valid(items[i])
    ensures OneLine(EncodeItems(items, Compact, depth))
    decreases items, 0
  {
    if items != [] {
      CompactIsOneLine(items[0], depth);
      if |items| > 1 {
        CompactItemsOneLine(items[1..], depth);
      }
    }
  }

  lemma {:induction false} CompactMembersOneLine(ms: seq<Member>, depth: nat)
    requires forall i :: 0 <= i < |ms| ==> Valid(ms[i].value)
    ensures OneLine(EncodeMembers(ms, Compact, depth))
    decreases ms, 0
  {
    if ms != [] {
      CompactIsOneLine(ms[0].value, depth);
      if |ms| > 1 {
        CompactMembersOneLine(ms[1..], depth);
      }
    }
  }

  /** Scalars, `[]` and `{}` are written the same way whatever the options. */
  lemma AtomicIgnoresOptions(v: Json, indent1: Option<int>, sort1: bool, indent2: Option<int>, sort2: bool)
    requires IsAtomic(v)
    ensures Dumps(v, indent1, sort1) == Dumps(v, indent2, sort2)
  {
    if v.Object? {
      assert SortDeep(v) == v;
    }
  }

  /** With `sort_keys` the text is the unsorted text of a tree that differs
      from the input only in the order of object members, and whose keys
      ascend at every depth. */
  lemma SortKeysOnlyReorders(v: Json, indent: Option<int>)
    requires Valid(v)
    ensures SameUpToKeyOrder(v, SortDeep(v)) && SortedDeep(SortDeep(v)) && Valid(SortDeep(v))
    ensures Dumps(v, indent, true) == Dumps(SortDeep(v), indent, false)
  {
    SortDeepOnlyReorders(v);
    SortDeepValid(v);
  }
}
