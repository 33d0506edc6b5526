/**
  JSON-like values: request parameters, the `banking_data` document and the
  rows the audit trigger sees. Numbers are kept exactly to the hundredth.
*/
module JsonValues {
  import opened Wrappers
  import opened Text
  import opened Faults

  datatype Json =
    | JNull
    | JBool(b: bool)
    | JNum(hundredths: int)
    | JStr(str: string)
    | JArr(items: seq<Json>)
    | JObj(fields: map<string, Json>)

  /** ActiveSupport's `present?`. */
  predicate Present(j: Json)
  {
    match j
    case JNull => false
    case JBool(b) => b
    case JNum(_) => true
    case JStr(s) => !Blank(s)
    case JArr(items) => items != []
    case JObj(fields) => fields != map[]
  }

  /** `params[:k] || params["k"]` on a hash with indifferent access: nil when absent. */
  function Field(fields: map<string, Json>, key: string): Json
  {
    if key in fields then fields[key] else JNull
  }

  /** `v = v.first if v.is_a?(Array)`. */
  function FirstIfArray(j: Json): Json
  {
    match j
    case JArr(items) => if items == [] then JNull else items[0]
    case _ => j
  }

  /** `hash.dig(outer, inner)`: nil through a missing level, TypeError through a non-hash. */
  function Dig(fields: map<string, Json>, outer: string, inner: string): Result<Json, Fault>
  {
    match Field(fields, outer)
    case JNull => Success(JNull)
    case JObj(m) => Success(Field(m, inner))
    case _ => Failure(TypeError)
  }

  /** `dig` through a hash reads the inner key of it. */
  lemma DigInto(fields: map<string, Json>, outer: string, inner: string, m: map<string, Json>)
    requires Field(fields, outer) == JObj(m)
    ensures Dig(fields, outer, inner) == Success(Field(m, inner))
  {
  }

  /** `to_i`: strings are read as numerals, numbers truncated toward zero; booleans, arrays and hashes lack it. */
  function ToI(j: Json): Result<int, Fault>
  {
    match j
    case JNull => Success(0)
    case JStr(s) => Success(StringToI(s))
    case JNum(h) => Success(if h >= 0 then h / 100 else -((-h) / 100))
    case _ => Failure(NoMethodError("to_i"))
  }

  // ---------------------------------------------------------------- to_s

  /** The fraction of a float, hundredths without trailing zeros after a point; nothing for an integer. */
  function FractionText(f: nat): (r: string)
    requires f < 100
    ensures r == [] || r[0] == '.'
  {
    if f == 0 then ""
    else "." + (if f % 10 == 0 then [DigitChar(f / 10)] else [DigitChar(f / 10), DigitChar(f % 10)])
  }

  /**
    `to_s` of a JSON number: an integer prints its digits, a float its whole
    part, a point and its fraction.
  */
  function NumberToString(h: int): string
  {
    if h < 0 then "-" + (NatToString((-h) / 100) + FractionText((-h) % 100))
    else NatToString(h / 100) + FractionText(h % 100)
  }

  /**
    `to_s` as string interpolation applies it: nil renders as nothing, a
    boolean as its name, a number in decimal, text as itself. Arrays and
    hashes render through `inspect`, which is not modelled: None.
  */
  function Render(j: Json): (r: Option<string>)
    ensures r.Some? <==> !j.JArr? && !j.JObj?
  {
    match j
    case JNull => Some("")
    case JBool(b) => Some(if b then "true" else "false")
    case JNum(h) => Some(NumberToString(h))
    case JStr(s) => Some(s)
    case _ => None
  }

  /** `to_i` of a printed number is the number's whole part, as `to_i` of the number itself truncates it. */
  lemma NumberReadsBack(h: int)
    ensures StringToI(NumberToString(h)) == if h >= 0 then h / 100 else -((-h) / 100)
  {
    if h < 0 {
      NegativeNumeralReads((-h) / 100, FractionText((-h) % 100));
    } else {
      NumeralReads(h / 100, FractionText(h % 100));
    }
  }

  /** A value that is present renders as non-blank text, when it renders at all. */
  lemma PresentRendersNonBlank(j: Json)
    requires Present(j) && Render(j).Some?
    ensures !Blank(Render(j).value)
  {
    match j
    case JNum(h) =>
      var s := NumberToString(h);
      if h < 0 {
        assert s[0] == '-';
      } else {
        assert s[0] == NatToString(h / 100)[0];
      }
    case JBool(_) =>
      assert !IsSpace(Render(j).value[0]);
    case JStr(_) =>
  }
}
