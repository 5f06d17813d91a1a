/** The exchange format as the engine sees it once ArduinoJson has parsed or
    before it serialises: typed values, an inbound object as a map from key to
    value, and an outbound object as an ordered list of key/value pairs. */
module Json {
  import Ascii

  datatype Value = Null | Bool(b: bool) | Int(i: int) | Num(x: real) | Str(s: string)

  /** A parsed inbound object; a key is present iff `containsKey` holds. */
  type Document = map<string, Value>

  /** An outbound object, keys in the order they are inserted. */
  type Pairs = seq<(string, Value)>

  predicate DistinctKeys(p: Pairs) {
    forall i, j :: 0 <= i < j < |p| ==> p[i].0 != p[j].0
  }

  /** The object a list of pairs denotes. */
  function AsDocument(p: Pairs): (d: Document)
    requires DistinctKeys(p)
  {
    map i | 0 <= i < |p| :: p[i].0 := p[i].1
  }

  lemma AsDocumentAt(p: Pairs, i: int)
    requires DistinctKeys(p)
    requires 0 <= i < |p|
    ensures p[i].0 in AsDocument(p)
    ensures AsDocument(p)[p[i].0] == p[i].1
  {
    var d := AsDocument(p);
    assert p[i].0 in d;
  }

  /** The decimal digit of `d`. */
  function Digit(d: int): (c: char)
    requires 0 <= d < 10
    ensures Ascii.IsDigit(c)
  {
    ('0' as int + d) as char
  }

  /** The decimal text of a natural number, most significant digit first. */
  function NatText(n: nat): (s: string)
    ensures |s| > 0 && Ascii.IsDigit(s[|s| - 1])
    decreases n
  {
    if n < 10 then [Digit(n)] else NatText(n / 10) + [Digit(n % 10)]
  }

  /** The JSON text of an integer. */
  function IntText(i: int): (s: string)
    ensures Ascii.HasDigit(s)
  {
    var s := if i < 0 then "-" + NatText(-i) else NatText(i);
    assert Ascii.IsDigit(s[|s| - 1]);
    s
  }

  /** The JSON text of a number, down to its sign and integer part. */
  function NumText(x: real): (s: string)
    ensures Ascii.HasDigit(s)
  {
    var s := if x < 0.0 then "-" + NatText((-x).Floor) else NatText(x.Floor);
    assert Ascii.IsDigit(s[|s| - 1]);
    s
  }

  /** Conversion of a value to the text parameter of a setter: a string is
      its own text, any other value the JSON text that denotes it. Only a
      string can yield a word without digits other than the three literals. */
  function AsText(v: Value): (s: string)
    ensures v.Str? ==> s == v.s
    ensures v.Int? || v.Num? ==> Ascii.HasDigit(s)
    ensures v.Null? || v.Bool? ==> s in {"null", "true", "false"}
    ensures v.Null? || v.Bool? ==> (s == "true" <==> AsBool(v))
  {
    match v
    case Str(s) => s
    case Null => "null"
    case Bool(b) => if b then "true" else "false"
    case Int(i) => IntText(i)
    case Num(x) => NumText(x)
  }

  /** Conversion of a value to an `int` parameter: a fractional number is
      truncated toward zero. */
  function AsInt(v: Value): (n: int)
    ensures v.Int? ==> n == v.i
    ensures v.Bool? ==> n == (if v.b then 1 else 0)
    ensures v.Num? && v.x >= 0.0 ==> n as real <= v.x < n as real + 1.0
    ensures v.Num? && v.x < 0.0 ==> n as real - 1.0 < v.x <= n as real
    ensures v.Null? || v.Str? ==> n == 0
  {
    match v
    case Int(i) => i
    case Bool(b) => if b then 1 else 0
    case Num(x) => if x >= 0.0 then x.Floor else -((-x).Floor)
    case _ => 0
  }

  /** Conversion of a value to a `bool` parameter: false exactly for null,
      strings, `false` and zero; on integers and booleans it agrees with
      `AsInt(v) != 0`. */
  function AsBool(v: Value): (b: bool)
    ensures v.Bool? ==> b == v.b
    ensures !b <==> v.Null? || v.Str? || v == Bool(false) || v == Int(0) || v == Num(0.0)
    ensures v.Int? || v.Bool? ==> b == (AsInt(v) != 0)
  {
    match v
    case Bool(b) => b
    case Int(i) => i != 0
    case Num(x) => x != 0.0
    case _ => false
  }
}
