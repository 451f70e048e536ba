/** `_to_float`: numeric coercion of one loose value. */
module Coerce {
  import opened PyValue
  import opened Builtins

  /** The text `_to_float` hands to `float` for a string: surrounding
      whitespace removed and every comma turned into a dot, so that a decimal
      comma reads as a decimal point. */
  function DecimalText(s: string): (t: string)
    ensures ',' !in t
    ensures t != [] ==> !IsSpace(t[0]) && !IsSpace(t[|t| - 1])
    ensures |t| <= |s|
    ensures t == Replace(Strip(s), ',', '.')
  {
    ReplaceRemovesAll(Strip(s), ',', '.');
    Replace(Strip(s), ',', '.')
  }

  /** Preparing the text a second time changes nothing. */
  lemma DecimalTextIdempotent(s: string)
    ensures DecimalText(DecimalText(s)) == DecimalText(s)
  {
    var t := Strip(s);
    StripReplace(t, ',', '.');
    StripIdempotent(s);
    ReplaceRemovesAll(t, ',', '.');
  }

  /** `_to_float(v)`: a bool, int or float gives its value as a float, a
      string is stripped, has its commas replaced by dots and is parsed by
      `float`, and anything else raises TypeError. */
  function ToFloat(v: Value, parse: FloatParser): (r: Result<real>)
    ensures !v.Str? ==> r == PyFloat(v, parse)
    ensures v.Str? ==> r == PyFloat(Str(DecimalText(v.s)), parse)
  {
    if v.Bool? || v.Int? || v.Float? then PyFloat(v, parse)
    else if v.Str? then PyFloat(Str(DecimalText(v.s)), parse)
    else Err(TypeError)
  }

  /** The two ways `_to_float` fails: TypeError exactly for a value that is
      neither a number nor a string, ValueError exactly for a string whose
      prepared text does not parse. */
  lemma ToFloatErrors(v: Value, parse: FloatParser)
    ensures ToFloat(v, parse) == Err(TypeError) <==> !(v.Bool? || v.Int? || v.Float? || v.Str?)
    ensures ToFloat(v, parse) == Err(ValueError) <==> v.Str? && parse(DecimalText(v.s)).None?
    ensures ToFloat(v, parse).Err? ==> ToFloat(v, parse).error in {TypeError, ValueError}
  {
  }

  /** Numbers come back unchanged: a float is its own value, and so is a
      float produced earlier by `_to_float`. */
  lemma ToFloatNumbers(x: real, n: int, b: bool, parse: FloatParser)
    ensures ToFloat(Float(x), parse) == Ok(x)
    ensures ToFloat(Int(n), parse) == Ok(n as real)
    ensures ToFloat(Bool(b), parse) == Ok(if b then 1.0 else 0.0)
  {
  }

  /** A decimal comma and a decimal point read alike. */
  lemma ToFloatCommaInsensitive(s: string, parse: FloatParser)
    ensures ToFloat(Str(s), parse) == ToFloat(Str(Replace(s, ',', '.')), parse)
  {
    StripReplace(s, ',', '.');
    ReplaceRemovesAll(Strip(s), ',', '.');
  }

  /** Surrounding whitespace does not matter. */
  lemma ToFloatStripInsensitive(s: string, parse: FloatParser)
    ensures ToFloat(Str(s), parse) == ToFloat(Str(Strip(s)), parse)
  {
    StripIdempotent(s);
  }
}
