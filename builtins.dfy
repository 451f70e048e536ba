/** The Python built-ins the utilities call: `str.strip`, `str.replace` of
    one character by another, `str.lower` and `float(...)`. */
module Builtins {
  import opened PyValue

  /** The decimal-text parsing inside `float(s)` for a string `s`, left
      abstract: it gives a real number, or nothing when `float` would raise
      ValueError. */
  type FloatParser = string -> Option<real>

  /** `c.isspace()`: the characters `str.strip()` removes. */
  predicate IsSpace(c: char) {
    var n := c as int;
    (9 <= n <= 13) || (28 <= n <= 32) || n == 0x85 || n == 0xA0 || n == 0x1680
    || (0x2000 <= n <= 0x200A) || n == 0x2028 || n == 0x2029 || n == 0x202F
    || n == 0x205F || n == 0x3000
  }

  /** Among ASCII characters, whitespace is tab, line feed, vertical tab,
      form feed, carriage return, the four separators 28 to 31 and space;
      neither the decimal comma nor the decimal point is whitespace. */
  lemma AsciiSpace(c: char)
    ensures c as int < 128 ==> (IsSpace(c) <==> c as int in {9, 10, 11, 12, 13, 28, 29, 30, 31, 32})
    ensures !IsSpace(',') && !IsSpace('.')
  {
  }

  /** `s.lstrip()` */
  function LStrip(s: string): (r: string)
    ensures |r| <= |s| && r == s[|s| - |r|..]
    ensures r != [] ==> !IsSpace(r[0])
    ensures forall i :: 0 <= i < |s| - |r| ==> IsSpace(s[i])
  {
    if s != [] && IsSpace(s[0]) then LStrip(s[1..]) else s
  }

  /** `s.rstrip()` */
  function RStrip(s: string): (r: string)
    ensures |r| <= |s| && r == s[..|r|]
    ensures r != [] ==> !IsSpace(r[|r| - 1])
    ensures forall i :: |r| <= i < |s| ==> IsSpace(s[i])
  {
    if s != [] && IsSpace(s[|s| - 1]) then RStrip(s[..|s| - 1]) else s
  }

  /** `s.strip()`: the longest slice of `s` that neither starts nor ends with
      whitespace, obtained by removing only whitespace. */
  function Strip(s: string): (r: string)
    ensures exists a, b ::
      && 0 <= a <= b <= |s| && r == s[a..b]
      && (forall i :: 0 <= i < a ==> IsSpace(s[i]))
      && (forall i :: b <= i < |s| ==> IsSpace(s[i]))
    ensures r != [] ==> !IsSpace(r[0]) && !IsSpace(r[|r| - 1])
  {
    var l := LStrip(s);
    var r := RStrip(l);
    assert r == s[|s| - |l|..|s| - |l| + |r|];
    r
  }

  /** Removing whitespace again removes nothing. */
  lemma {:induction false} StripIdempotent(s: string)
    ensures Strip(Strip(s)) == Strip(s)
  {
    var t := Strip(s);
    if t != [] {
      assert !IsSpace(t[0]);
      assert LStrip(t) == t;
      assert !IsSpace(t[|t| - 1]);
      assert RStrip(t) == t;
    }
  }

  /** `s.replace(from, to)` for one-character `from` and `to`. */
  function Replace(s: string, from: char, to: char): (r: string)
    ensures |r| == |s|
    ensures forall i :: 0 <= i < |s| ==> r[i] == if s[i] == from then to else s[i]
  {
    seq(|s|, i requires 0 <= i < |s| => if s[i] == from then to else s[i])
  }

  /** After replacing `from` by another character, no `from` is left, and a
      second replacement changes nothing. */
  lemma ReplaceRemovesAll(s: string, from: char, to: char)
    requires from != to
    ensures from !in Replace(s, from, to)
    ensures Replace(Replace(s, from, to), from, to) == Replace(s, from, to)
  {
  }

  /** Replacing one non-whitespace character by another commutes with
      stripping whitespace. */
  lemma {:induction false} LStripReplace(s: string, from: char, to: char)
    requires !IsSpace(from) && !IsSpace(to)
    ensures LStrip(Replace(s, from, to)) == Replace(LStrip(s), from, to)
  {
    if s != [] && IsSpace(s[0]) {
      assert Replace(s, from, to)[1..] == Replace(s[1..], from, to);
      LStripReplace(s[1..], from, to);
    }
  }

  lemma {:induction false} RStripReplace(s: string, from: char, to: char)
    requires !IsSpace(from) && !IsSpace(to)
    ensures RStrip(Replace(s, from, to)) == Replace(RStrip(s), from, to)
  {
    if s != [] && IsSpace(s[|s| - 1]) {
      assert Replace(s, from, to)[..|s| - 1] == Replace(s[..|s| - 1], from, to);
      RStripReplace(s[..|s| - 1], from, to);
    }
  }

  lemma StripReplace(s: string, from: char, to: char)
    requires !IsSpace(from) && !IsSpace(to)
    ensures Strip(Replace(s, from, to)) == Replace(Strip(s), from, to)
  {
    LStripReplace(s, from, to);
    RStripReplace(LStrip(s), from, to);
  }

  /** The lower-case form of one character (ASCII letters only). */
  function LowerChar(c: char): (r: char)
    ensures 'a' <= r <= 'z' <==> ('a' <= c <= 'z' || 'A' <= c <= 'Z')
    ensures 'A' <= c <= 'Z' ==> r as int == c as int + 32
    ensures !('A' <= c <= 'Z') ==> r == c
  {
    if 'A' <= c <= 'Z' then (c as int + 32) as char else c
  }

  /** `s.lower()` */
  function Lower(s: string): (r: string)
    ensures |r| == |s|
    ensures forall i :: 0 <= i < |s| ==> r[i] == LowerChar(s[i])
  {
    seq(|s|, i requires 0 <= i < |s| => LowerChar(s[i]))
  }

  /** A string lowers to one lower-case letter exactly when it is that
      letter in either case. */
  lemma LowerIsLetter(s: string, c: char)
    requires 'a' <= c <= 'z'
    ensures Lower(s) == [c] <==> s == [c] || s == [(c as int - 32) as char]
  {
    if Lower(s) == [c] {
      assert |s| == 1 && LowerChar(s[0]) == c;
    }
  }

  /** `float(v)`: booleans and integers become their real value, a string is
      parsed, and every other value raises TypeError. */
  function PyFloat(v: Value, parse: FloatParser): (r: Result<real>)
    ensures r.Err? <==> !(v.Bool? || v.Int? || v.Float?) && !(v.Str? && parse(v.s).Some?)
    ensures r.Err? && v.Str? ==> r.error == ValueError
    ensures r.Err? && !v.Str? ==> r.error == TypeError
    ensures v.Bool? ==> r == Ok(if v.b then 1.0 else 0.0)
    ensures v.Int? ==> r == Ok(v.i as real)
    ensures v.Float? ==> r == Ok(v.f)
    ensures v.Str? && parse(v.s).Some? ==> r == Ok(parse(v.s).value)
  {
    match v
    case Bool(b) => Ok(if b then 1.0 else 0.0)
    case Int(n) => Ok(n as real)
    case Float(x) => Ok(x)
    case Str(s) =>
      (match parse(s)
       case Some(x) => Ok(x)
       case None => Err(ValueError))
    case _ => Err(TypeError)
  }
}
