/** `normalize_point` and `normalize_points`: turning loosely written curve
    points into `{"x": float, "y": float}` dicts. */
module Points {
  import opened PyValue
  import opened Builtins
  import opened Coerce

  /** Key `k` is a string equal to `key` when both are lower-cased. */
  predicate CaselessMatch(k: Key, key: string) {
    k.StrKey? && Lower(k.name) == Lower(key)
  }

  /** The loop of `get`: the value under the first key, in insertion order,
      that matches `key` ignoring case. */
  function FindCaseless(es: seq<Entry>, key: string): (r: Option<Value>)
    ensures r.None? <==> forall i :: 0 <= i < |es| ==> !CaselessMatch(es[i].key, key)
    ensures r.Some? ==> exists i :: 0 <= i < |es| && CaselessMatch(es[i].key, key) && es[i].val == r.value
                                 && forall j :: 0 <= j < i ==> !CaselessMatch(es[j].key, key)
  {
    if es == [] then None
    else if CaselessMatch(es[0].key, key) then Some(es[0].val)
    else
      var r := FindCaseless(es[1..], key);
      if r.Some? then
        ghost var i :| 0 <= i < |es[1..]| && CaselessMatch(es[1..][i].key, key) && es[1..][i].val == r.value
                       && forall j :: 0 <= j < i ==> !CaselessMatch(es[1..][j].key, key);
        assert CaselessMatch(es[i + 1].key, key) && forall j :: 0 <= j < i + 1 ==> !CaselessMatch(es[j].key, key);
        r
      else
        r
  }

  /** The inner `get` of `normalize_point`: the value under `key` itself if
      the dict holds it, otherwise under the first key equal to it ignoring
      case, otherwise KeyError. */
  function Get(es: seq<Entry>, key: string): (r: Result<Value>)
    ensures HasKey(es, StrKey(key)) ==> r == Ok(Find(es, StrKey(key)).value)
    ensures !HasKey(es, StrKey(key)) ==> r.Ok? == FindCaseless(es, key).Some?
    ensures !HasKey(es, StrKey(key)) && r.Ok? ==> r == Ok(FindCaseless(es, key).value)
    ensures r.Err? <==> forall i :: 0 <= i < |es| ==> !CaselessMatch(es[i].key, key)
    ensures r.Err? ==> r.error == KeyError(key)
  {
    match Find(es, StrKey(key))
    case Some(v) => Ok(v)
    case None =>
      match FindCaseless(es, key)
      case Some(v) => Ok(v)
      case None => Err(KeyError(key))
  }

  /** The dict `{"x": x, "y": y}` that a normalized point is. */
  function PointValue(x: real, y: real): Value {
    Dict([Entry(StrKey("x"), Float(x)), Entry(StrKey("y"), Float(y))])
  }

  /** A dict with exactly the keys "x" and "y", in that order, both holding
      floats. */
  predicate IsPoint(v: Value) {
    && v.Dict? && |v.entries| == 2
    && v.entries[0].key == StrKey("x") && v.entries[1].key == StrKey("y")
    && v.entries[0].val.Float? && v.entries[1].val.Float?
  }

  /** `{"x": _to_float(x), "y": _to_float(y)}`, x converted first. */
  function PointOf(x: Value, y: Value, parse: FloatParser): (r: Result<Value>)
    ensures r.Ok? <==> ToFloat(x, parse).Ok? && ToFloat(y, parse).Ok?
    ensures r.Ok? ==> r.value == PointValue(ToFloat(x, parse).value, ToFloat(y, parse).value)
    ensures r.Err? ==> r.error == if ToFloat(x, parse).Err? then ToFloat(x, parse).error else ToFloat(y, parse).error
  {
    var fx :- ToFloat(x, parse);
    var fy :- ToFloat(y, parse);
    Ok(PointValue(fx, fy))
  }

  /** `isinstance(p, (list, tuple)) and len(p) == 2` */
  predicate IsPair(p: Value) {
    (p.List? || p.Tuple?) && |p.items| == 2
  }

  /** `hasattr(p, "x") and hasattr(p, "y")`: only attribute objects carry
      attributes named x and y. */
  predicate HasPointAttrs(p: Value) {
    p.Obj? && "x" in p.attrs && "y" in p.attrs
  }

  /** `normalize_point(p)`: a dict is read through `get`, a two-element list
      or tuple by position, an object through its attributes, in that order
      of preference; anything else raises ValueError. */
  function NormalizePoint(p: Value, parse: FloatParser): (r: Result<Value>)
    ensures r.Ok? ==> IsPoint(r.value)
    ensures r.Err? ==> r.error == TypeError || r.error == ValueError || (p.Dict? && r.error in {KeyError("x"), KeyError("y")})
  {
    if p.Dict? then
      var x :- Get(p.entries, "x");
      var y :- Get(p.entries, "y");
      PointOf(x, y, parse)
    else if IsPair(p) then
      PointOf(p.items[0], p.items[1], parse)
    else if HasPointAttrs(p) then
      PointOf(p.attrs["x"], p.attrs["y"], parse)
    else
      Err(ValueError)
  }

  /** The dict holds a key that is `c` in either case. */
  ghost predicate HasCoordinate(es: seq<Entry>, c: char)
    requires 'a' <= c <= 'z'
  {
    exists i :: 0 <= i < |es| && (es[i].key == StrKey([c]) || es[i].key == StrKey([(c as int - 32) as char]))
  }

  lemma {:induction false} GetCoordinate(es: seq<Entry>, c: char)
    requires 'a' <= c <= 'z'
    ensures Get(es, [c]).Err? <==> !HasCoordinate(es, c)
  {
    assert Lower([c]) == [c];
    if Get(es, [c]).Err? {
      if HasCoordinate(es, c) {
        var i :| 0 <= i < |es| && (es[i].key == StrKey([c]) || es[i].key == StrKey([(c as int - 32) as char]));
        LowerIsLetter(es[i].key.name, c);
        assert CaselessMatch(es[i].key, [c]);
        assert false;
      }
    } else {
      var i :| 0 <= i < |es| && CaselessMatch(es[i].key, [c]);
      LowerIsLetter(es[i].key.name, c);
    }
  }

  /** A dict raises KeyError("x") exactly when no key is "x" or "X", and
      KeyError("y") exactly when it has such a key but none that is "y" or
      "Y"; the lookups happen before any conversion. */
  lemma NormalizePointKeyErrors(es: seq<Entry>, parse: FloatParser)
    ensures NormalizePoint(Dict(es), parse) == Err(KeyError("x")) <==> !HasCoordinate(es, 'x')
    ensures NormalizePoint(Dict(es), parse) == Err(KeyError("y")) <==> HasCoordinate(es, 'x') && !HasCoordinate(es, 'y')
  {
    GetCoordinate(es, 'x');
    GetCoordinate(es, 'y');
    var r := NormalizePoint(Dict(es), parse);
    if Get(es, "x").Ok? && Get(es, "y").Ok? {
      NormalizeDict(es, parse);
      ToFloatErrors(Get(es, "x").value, parse);
      ToFloatErrors(Get(es, "y").value, parse);
    }
  }

  /** The exact key wins over a key that differs only in case, wherever
      the two stand in the dict. */
  lemma NormalizePointPrefersExactKey(es: seq<Entry>, parse: FloatParser)
    requires HasKey(es, StrKey("x")) && HasKey(es, StrKey("y"))
    ensures NormalizePoint(Dict(es), parse) == PointOf(Find(es, StrKey("x")).value, Find(es, StrKey("y")).value, parse)
  {
  }

  /** The same coordinates give the same point whether they are written as
      a dict with lower- or upper-case keys, a list, a tuple or an object. */
  lemma NormalizePointShapesAgree(a: Value, b: Value, parse: FloatParser)
    ensures var r := PointOf(a, b, parse);
      && NormalizePoint(Dict([Entry(StrKey("x"), a), Entry(StrKey("y"), b)]), parse) == r
      && NormalizePoint(Dict([Entry(StrKey("X"), a), Entry(StrKey("Y"), b)]), parse) == r
      && NormalizePoint(List([a, b]), parse) == r
      && NormalizePoint(Tuple([a, b]), parse) == r
      && NormalizePoint(Obj(map["x" := a, "y" := b]), parse) == r
  {
    LowerCaseDict(a, b, parse);
    UpperCaseDict(a, b, parse);
    NormalizeSequences(a, b, parse);
    TwoAttributeObject(a, b, parse);
  }

  lemma TwoAttributeObject(a: Value, b: Value, parse: FloatParser)
    ensures NormalizePoint(Obj(map["x" := a, "y" := b]), parse) == PointOf(a, b, parse)
  {
    var o := Obj(map["x" := a, "y" := b]);
    assert HasPointAttrs(o) && o.attrs["x"] == a && o.attrs["y"] == b;
    NormalizeObject(o, parse);
  }

  /** A dict in which both lookups succeed is the point of what they find. */
  lemma NormalizeDict(es: seq<Entry>, parse: FloatParser)
    requires Get(es, "x").Ok? && Get(es, "y").Ok?
    ensures NormalizePoint(Dict(es), parse) == PointOf(Get(es, "x").value, Get(es, "y").value, parse)
  {
  }

  lemma NormalizeSequences(a: Value, b: Value, parse: FloatParser)
    ensures NormalizePoint(List([a, b]), parse) == PointOf(a, b, parse)
    ensures NormalizePoint(Tuple([a, b]), parse) == PointOf(a, b, parse)
  {
    assert IsPair(List([a, b])) && IsPair(Tuple([a, b]));
  }

  /** An object with x and y attributes, whatever others it has, is the
      point of those two. */
  lemma NormalizeObject(p: Value, parse: FloatParser)
    requires HasPointAttrs(p)
    ensures NormalizePoint(p, parse) == PointOf(p.attrs["x"], p.attrs["y"], parse)
  {
  }

  lemma LowerCaseDict(a: Value, b: Value, parse: FloatParser)
    ensures NormalizePoint(Dict([Entry(StrKey("x"), a), Entry(StrKey("y"), b)]), parse) == PointOf(a, b, parse)
  {
    LowerCaseGet(a, b);
    NormalizeDict([Entry(StrKey("x"), a), Entry(StrKey("y"), b)], parse);
  }

  lemma UpperCaseDict(a: Value, b: Value, parse: FloatParser)
    ensures NormalizePoint(Dict([Entry(StrKey("X"), a), Entry(StrKey("Y"), b)]), parse) == PointOf(a, b, parse)
  {
    UpperCaseGet(a, b);
    NormalizeDict([Entry(StrKey("X"), a), Entry(StrKey("Y"), b)], parse);
  }

  lemma LowerCaseGet(a: Value, b: Value)
    ensures var es := [Entry(StrKey("x"), a), Entry(StrKey("y"), b)];
      Get(es, "x") == Ok(a) && Get(es, "y") == Ok(b)
  {
    var es := [Entry(StrKey("x"), a), Entry(StrKey("y"), b)];
    IndexOfKeyAt(es, StrKey("x"), 0);
    IndexOfKeyAt(es, StrKey("y"), 1);
  }

  lemma UpperCaseGet(a: Value, b: Value)
    ensures var es := [Entry(StrKey("X"), a), Entry(StrKey("Y"), b)];
      Get(es, "x") == Ok(a) && Get(es, "y") == Ok(b)
  {
    var es := [Entry(StrKey("X"), a), Entry(StrKey("Y"), b)];
    assert Keys(es) == [StrKey("X"), StrKey("Y")];
    assert Lower("X") == "x" && Lower("Y") == "y" && Lower("x") == "x" && Lower("y") == "y";
    assert CaselessMatch(es[0].key, "x") && !CaselessMatch(es[0].key, "y");
    assert CaselessMatch(es[1].key, "y") && es[1..] == [es[1]];
    assert FindCaseless(es[1..], "y") == Some(b);
  }

  /** A value that is neither a dict, nor a list or tuple of two, nor an
      object with x and y attributes is refused with ValueError; so is a
      list or tuple of any length but two. */
  lemma NormalizePointRejectsShape(p: Value, parse: FloatParser)
    requires !p.Dict? && !IsPair(p) && !HasPointAttrs(p)
    ensures NormalizePoint(p, parse) == Err(ValueError)
  {
  }

  /** `normalize_points(points)`: None gives the empty list; otherwise each
      element is normalized in order and the first failure is raised. */
  function NormalizePoints(points: Value, parse: FloatParser): (r: Result<seq<Value>>)
    ensures points.Null? ==> r == Ok([])
    ensures !points.Null? && Iterate(points).Err? ==> r == Err(TypeError)
    ensures !points.Null? && Iterate(points).Ok? ==>
      var ps := Iterate(points).value;
      && (r.Ok? <==> forall i :: 0 <= i < |ps| ==> NormalizePoint(ps[i], parse).Ok?)
      && (r.Ok? ==> |r.value| == |ps| && forall i :: 0 <= i < |ps| ==> NormalizePoint(ps[i], parse) == Ok(r.value[i]))
      && (r.Err? ==> exists i :: 0 <= i < |ps| && NormalizePoint(ps[i], parse) == Err(r.error)
                                && forall j :: 0 <= j < i ==> NormalizePoint(ps[j], parse).Ok?)
    ensures r.Ok? ==> forall i :: 0 <= i < |r.value| ==> IsPoint(r.value[i])
  {
    if points.Null? then Ok([])
    else
      var ps :- Iterate(points);
      MapAll(ps, p => NormalizePoint(p, parse))
  }
}
