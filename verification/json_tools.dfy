/** The four JSON tools: deserialising with a readable error, formatting,
    and conversion to YAML and to CSV. `json.loads` itself is not modelled
    here: its outcome, a value or a decode error with its position, is the
    input of every tool. */
module JsonTools {
  import opened Results
  import opened Strings
  import opened Decimal
  import opened JsonValue
  import opened KeyOrder
  import opened JsonEncode
  import opened JsonDecode
  import opened YamlEmit
  import opened CsvEmit

  /** What `json.loads` gave for the input text: the value, a
      `JSONDecodeError` with its message, line and column, or any other
      exception it raised (the `ValueError` of an integer literal longer
      than the interpreter's digit limit, a `RecursionError` on very deep
      nesting). */
  datatype ParseOutcome =
    | Decoded(value: Json)
    | DecodeError(msg: string, lineno: nat, colno: nat)
    | Raised(exception: Error)

  /** An exception leaving a tool: the `ValueError` the tools raise
      themselves, or an exception of another class, by its class name. */
  datatype Error = ValueError(message: string) | OtherError(name: string, message: string)

  /** A decoded value is one `json.loads` can return. */
  predicate WellFormed(p: ParseOutcome) {
    p.Decoded? ==> Valid(p.value)
  }

  const LinePrefix: string := "Invalid JSON at line "
  const ColumnInfix: string := ", column "
  const CsvErrorMessage: string := "Invalid JSON for CSV conversion"

  function DecodeErrorMessage(msg: string, lineno: nat, colno: nat): string {
    LinePrefix + NatToString(lineno) + ColumnInfix + NatToString(colno) + ": " + msg
  }

  /** The number written by the digits at the head of `s`, and the rest. */
  function ReadNat(s: string): Option<(nat, string)> {
    var n := DigitRun(s);
    if n == 0 then None else Some((DigitsValue(s[..n]), s[n..]))
  }

  /** Recovers line, column and message from a decode error message. */
  function ReadDecodeErrorMessage(m: string): Option<(nat, nat, string)> {
    match AfterLiteral(m, LinePrefix)
    case None => None
    case Some(a) =>
      match ReadNat(a)
      case None => None
      case Some((line, b)) =>
        match AfterLiteral(b, ColumnInfix)
        case None => None
        case Some(c) =>
          match ReadNat(c)
          case None => None
          case Some((column, d)) =>
            match AfterLiteral(d, ": ")
            case None => None
            case Some(msg) => Some((line, column, msg))
  }

  lemma ReadNatOf(n: nat, rest: string)
    requires rest == [] || !IsDigit(rest[0])
    ensures ReadNat(NatToString(n) + rest) == Some((n, rest))
  {
    var d := NatToString(n);
    DigitRunOfDigits(d, rest);
    assert (d + rest)[..|d|] == d;
    assert (d + rest)[|d|..] == rest;
  }

  /** The message names the line, the column and the decoder's own
      message, and all three can be read back from it. */
  lemma DecodeErrorMessageRoundTrip(msg: string, lineno: nat, colno: nat)
    ensures ReadDecodeErrorMessage(DecodeErrorMessage(msg, lineno, colno)) == Some((lineno, colno, msg))
  {
    var tail := ": " + msg;
    var c := NatToString(colno) + tail;
    var b := ColumnInfix + c;
    var a := NatToString(lineno) + b;
    assert DecodeErrorMessage(msg, lineno, colno) == LinePrefix + a;
    AfterLiteralOf(LinePrefix, a);
    ReadNatOf(lineno, b);
    AfterLiteralOf(ColumnInfix, c);
    ReadNatOf(colno, tail);
    AfterLiteralOf(": ", msg);
  }

  /** `deserialize_json`: the value, a `ValueError` whose message reports
      where and why decoding failed, or any other exception of the decoder
      as it was raised. */
  function Deserialize(p: ParseOutcome): (r: Result<Json, Error>)
    ensures r.Ok? <==> p.Decoded?
    ensures r.Ok? ==> r.value == p.value
    ensures p.DecodeError? ==>
      r.Err? && r.error.ValueError? && ReadDecodeErrorMessage(r.error.message) == Some((p.lineno, p.colno, p.msg))
    ensures p.Raised? ==> r == Err(p.exception)
  {
    match p
    case Decoded(v) => Ok(v)
    case DecodeError(msg, lineno, colno) =>
      DecodeErrorMessageRoundTrip(msg, lineno, colno);
      Err(ValueError(DecodeErrorMessage(msg, lineno, colno)))
    case Raised(e) => Err(e)
  }

  /** `format_json`: the value written again by `json.dumps`. Reading the
      result gives the input value, with its keys sorted at every depth
      when `sortKeys` is set. */
  function FormatJson(p: ParseOutcome, indent: Option<int>, sortKeys: bool): (r: Result<string, Error>)
    requires WellFormed(p)
    ensures r.Ok? <==> p.Decoded?
    ensures r.Err? ==> r.error == Deserialize(p).error
    ensures r.Ok? ==> Read(r.value) == Some(if sortKeys then SortDeep(p.value) else p.value)
  {
    var v :- Deserialize(p);
    ReadDumps(v, indent, sortKeys);
    Ok(Dumps(v, indent, sortKeys))
  }

  /** `convert_json_to_yaml`: the YAML document of the value, which reads
      back as the value (floats in YAML's spelling). */
  function ConvertJsonToYaml(p: ParseOutcome): (r: Result<string, Error>)
    requires WellFormed(p) && (p.Decoded? ==> YamlSafe(p.value))
    ensures r.Ok? <==> p.Decoded?
    ensures r.Err? ==> r.error == Deserialize(p).error
    ensures r.Ok? ==> ReadYaml(r.value) == Some(YamlNormal(p.value))
    ensures r.Ok? && FloatFree(p.value) ==> ReadYaml(r.value) == Some(p.value)
  {
    var v :- Deserialize(p);
    ReadToYaml(v);
    if FloatFree(v) then ToYamlKeepsOrder(v); Ok(ToYaml(v))
    else Ok(ToYaml(v))
  }

  /** `convert_json_to_csv`: the table of a list of records, or the one
      fixed message whenever pandas refuses the value. Decoding happens
      before the `try`, so whatever it raises leaves unchanged. */
  function ConvertJsonToCsv(p: ParseOutcome): (r: Result<string, Error>)
    requires WellFormed(p) && (p.Decoded? ==> RecordList(p.value) || PandasRejects(p.value))
    ensures r.Ok? <==> p.Decoded? && RecordList(p.value)
    ensures !p.Decoded? ==> r.Err? && r.error == Deserialize(p).error
    ensures p.Decoded? && PandasRejects(p.value) ==> r == Err(ValueError(CsvErrorMessage))
    ensures r.Ok? ==> ReadCsv(r.value) == Some(Table(p.value.items))
  {
    var v :- Deserialize(p);
    match DataFrameCsv(v)
    case Some(text) => Ok(text)
    case None => Err(ValueError(CsvErrorMessage))
  }

  /** An exception of the decoder other than a decode error leaves every
      tool as it was raised; in particular the CSV tool does not turn it
      into its own message. */
  lemma RaisedPassesThrough(e: Error, indent: Option<int>, sortKeys: bool)
    ensures FormatJson(Raised(e), indent, sortKeys) == Err(e)
    ensures ConvertJsonToYaml(Raised(e)) == Err(e)
    ensures ConvertJsonToCsv(Raised(e)) == Err(e)
  {
  }

  /** The CSV refusal cannot be mistaken for a decode error. */
  lemma CsvErrorIsNotDecodeError()
    ensures ReadDecodeErrorMessage(CsvErrorMessage) == None
  {
    assert CsvErrorMessage[13] != LinePrefix[13];
  }

  /** Formatting the output again with the same options changes nothing. */
  lemma FormatIdempotent(v: Json, indent: Option<int>, sortKeys: bool)
    requires Valid(v)
    ensures var t := FormatJson(Decoded(v), indent, sortKeys).value;
      Read(t).Some? && Valid(Read(t).value) && FormatJson(Decoded(Read(t).value), indent, sortKeys) == Ok(t)
  {
    if sortKeys {
      SortDeepValid(v);
      SortDeepIdempotent(v);
    }
  }

  /** A text that is already the sorted, two-space layout of its value is
      left as it is. */
  lemma CanonicalUnchanged(v: Json)
    requires Valid(v) && SortedDeep(v)
    ensures var t := Dumps(v, Some(2), false);
      Read(t) == Some(v) && FormatJson(Decoded(v), Some(2), true) == Ok(t)
  {
    ReadDumps(v, Some(2), false);
    SortDeepOfSorted(v);
  }
}
