/** `normalize_value_inputs`: turning loose per-scenario records into the
    `{scenario, series, constant}` value-input records the remote API
    accepts. */
module ValueInputs {
  import opened PyValue
  import opened Builtins

  /** `v.get(name)` when it is not None. */
  function Given(es: seq<Entry>, name: string): (r: Option<Value>)
    ensures r.Some? <==> Find(es, StrKey(name)).Some? && Find(es, StrKey(name)).value != Null
    ensures r.Some? ==> r.value == Find(es, StrKey(name)).value
  {
    match Find(es, StrKey(name))
    case Some(x) => if x == Null then None else Some(x)
    case None => None
  }

  /** Reals as a list of Python floats. */
  function Floats(fs: seq<real>): (r: seq<Value>)
    ensures |r| == |fs| && forall i :: 0 <= i < |fs| ==> r[i] == Float(fs[i])
  {
    seq(|fs|, i requires 0 <= i < |fs| => Float(fs[i]))
  }

  /** `[float(x) for x in s]`: every element converted by the built-in
      `float`, which unlike `_to_float` does not turn commas into dots. */
  function FloatSeries(s: Value, parse: FloatParser): (r: Result<Value>)
    ensures r.Ok? ==> Iterate(s).Ok? && r.value.List? && |r.value.items| == |Iterate(s).value|
    ensures r.Ok? ==> forall i :: 0 <= i < |r.value.items| ==>
      r.value.items[i].Float? && PyFloat(Iterate(s).value[i], parse) == Ok(r.value.items[i].f)
    ensures r.Err? <==> Iterate(s).Err? || exists i :: 0 <= i < |Iterate(s).value| && PyFloat(Iterate(s).value[i], parse).Err?
    ensures Iterate(s).Err? ==> r == Err(TypeError)
    ensures Iterate(s).Ok? && r.Err? ==>
      var xs := Iterate(s).value;
      exists i :: 0 <= i < |xs| && PyFloat(xs[i], parse) == Err(r.error) && forall j :: 0 <= j < i ==> PyFloat(xs[j], parse).Ok?
  {
    var xs :- Iterate(s);
    var fs :- MapAll(xs, x => PyFloat(x, parse));
    Ok(List(Floats(fs)))
  }

  /** Where a value-input key stands in the record: scenario, then series,
      then constant. */
  function Rank(k: Key): int {
    if k == StrKey("scenario") then 0
    else if k == StrKey("series") then 1
    else if k == StrKey("constant") then 2
    else 3
  }

  /** The error `v.get(...)` raises on a value that is not a dict: plain
      values have no `get` attribute, and an attribute object's `get`, if it
      has one, is data and cannot be called. */
  function GetMissing(v: Value): (e: Error)
    ensures e == TypeError || e == AttributeError("get")
    ensures !v.Obj? ==> e == AttributeError("get")
    ensures v.Obj? ==> (e == TypeError <==> "get" in v.attrs)
  {
    if v.Obj? && "get" in v.attrs then TypeError else AttributeError("get")
  }

  /** `vi["scenario"]`, present when the scenario is given. */
  function ScenarioPart(es: seq<Entry>): (part: seq<Entry>)
    ensures |part| <= 1 && forall e :: e in part ==> e.key == StrKey("scenario")
    ensures part == [] <==> Given(es, "scenario").None?
    ensures part != [] ==> part[0].val == Given(es, "scenario").value
  {
    match Given(es, "scenario")
    case Some(s) => [Entry(StrKey("scenario"), s)]
    case None => []
  }

  /** `vi["series"]`, present when the series is given. */
  function SeriesPart(es: seq<Entry>, parse: FloatParser): (part: Result<seq<Entry>>)
    ensures part.Ok? ==> |part.value| <= 1 && forall e :: e in part.value ==> e.key == StrKey("series")
    ensures part.Ok? ==> (part.value == [] <==> Given(es, "series").None?)
    ensures part.Ok? && part.value != [] ==> FloatSeries(Given(es, "series").value, parse) == Ok(part.value[0].val)
  {
    match Given(es, "series")
    case Some(s) =>
      var l :- FloatSeries(s, parse);
      Ok([Entry(StrKey("series"), l)])
    case None => Ok([])
  }

  /** `vi["constant"]`, present when the constant is given. */
  function ConstantPart(es: seq<Entry>, parse: FloatParser): (part: Result<seq<Entry>>)
    ensures part.Ok? ==> |part.value| <= 1 && forall e :: e in part.value ==> e.key == StrKey("constant")
    ensures part.Ok? ==> (part.value == [] <==> Given(es, "constant").None?)
    ensures part.Ok? && part.value != [] ==>
      part.value[0].val.Float? && PyFloat(Given(es, "constant").value, parse) == Ok(part.value[0].val.f)
  {
    match Given(es, "constant")
    case Some(c) =>
      var f :- PyFloat(c, parse);
      Ok([Entry(StrKey("constant"), Float(f))])
    case None => Ok([])
  }

  /** One record of `normalize_value_inputs`: the scenario as it is, the
      series with every element made a float, and the constant made a
      float, each only when it is given and not None, in that order; the
      series is converted before the constant. */
  function ValueInput(v: Value, parse: FloatParser): (r: Result<Value>)
    ensures !v.Dict? ==> r == Err(GetMissing(v))
    ensures r.Ok? ==> r.value.Dict?
  {
    if !v.Dict? then Err(GetMissing(v))
    else
      var series :- SeriesPart(v.entries, parse);
      var constant :- ConstantPart(v.entries, parse);
      Ok(Dict(ScenarioPart(v.entries) + series + constant))
  }

  /** Where the keys of a normalized record lie: only the three value-input
      keys, each at most once, in the order scenario, series, constant. */
  ghost predicate RankedRecord(out: seq<Entry>) {
    && (forall e :: e in out ==> Rank(e.key) < 3)
    && (forall i, j :: 0 <= i < j < |out| ==> Rank(out[i].key) < Rank(out[j].key))
  }

  /** A successful record holds exactly the given keys, in the order
      scenario, series, constant: the scenario unchanged, the series as
      `float` of each of its elements, the constant as `float` of it. */
  lemma ValueInputShape(es: seq<Entry>, parse: FloatParser)
    requires ValueInput(Dict(es), parse).Ok?
    ensures var out := ValueInput(Dict(es), parse).value.entries;
      && RankedRecord(out)
      && UniqueKeys(out)
      && Find(out, StrKey("scenario")) == Given(es, "scenario")
      && (HasKey(out, StrKey("series")) <==> Given(es, "series").Some?)
      && (HasKey(out, StrKey("constant")) <==> Given(es, "constant").Some?)
      && (HasKey(out, StrKey("series")) ==>
            FloatSeries(Given(es, "series").value, parse) == Ok(Find(out, StrKey("series")).value))
      && (HasKey(out, StrKey("constant")) ==>
            var c := Find(out, StrKey("constant")).value;
            c.Float? && PyFloat(Given(es, "constant").value, parse) == Ok(c.f))
  {
    ValueInputParts(es, parse);
    PartsShape(ScenarioPart(es), SeriesPart(es, parse).value, ConstantPart(es, parse).value);
  }

  /** A successful record is its three parts in order. */
  lemma ValueInputParts(es: seq<Entry>, parse: FloatParser)
    requires ValueInput(Dict(es), parse).Ok?
    ensures SeriesPart(es, parse).Ok? && ConstantPart(es, parse).Ok?
    ensures ValueInput(Dict(es), parse).value.entries
         == ScenarioPart(es) + SeriesPart(es, parse).value + ConstantPart(es, parse).value
  {
  }

  /** Three optional parts, each holding at most its own key, make a
      ranked record in which each key is found in its part. */
  lemma PartsShape(sc: seq<Entry>, se: seq<Entry>, co: seq<Entry>)
    requires |sc| <= 1 && forall e :: e in sc ==> e.key == StrKey("scenario")
    requires |se| <= 1 && forall e :: e in se ==> e.key == StrKey("series")
    requires |co| <= 1 && forall e :: e in co ==> e.key == StrKey("constant")
    ensures var out := sc + se + co;
      && RankedRecord(out)
      && UniqueKeys(out)
      && Find(out, StrKey("scenario")) == (if sc == [] then None else Some(sc[0].val))
      && Find(out, StrKey("series")) == (if se == [] then None else Some(se[0].val))
      && Find(out, StrKey("constant")) == (if co == [] then None else Some(co[0].val))
  {
    var out := sc + se + co;
    PartsRanked(sc, se, co);
    RankedUnique(out);
    FindPart(sc, se + co, StrKey("scenario"));
    assert out == sc + (se + co);
    FindPart(se, co, StrKey("series"));
    AfterOthers(sc, se + co, StrKey("series"));
    FindPart(co, [], StrKey("constant"));
    assert co + [] == co;
    AfterOthers(sc + se, co, StrKey("constant"));
  }

  /** A ranked record has distinct keys. */
  lemma RankedUnique(out: seq<Entry>)
    requires RankedRecord(out)
    ensures UniqueKeys(out)
  {
  }

  /** A part of at most one pair, all holding `k`, at the front of a dict
      with no other `k`, is what the dict finds for `k`. */
  lemma FindPart(part: seq<Entry>, rest: seq<Entry>, k: Key)
    requires |part| <= 1 && forall e :: e in part ==> e.key == k
    requires forall e :: e in rest ==> Rank(e.key) > Rank(k)
    ensures Find(part + rest, k) == (if part == [] then None else Some(part[0].val))
  {
    var out := part + rest;
    if part != [] {
      assert out[0] == part[0];
      IndexOfKeyAt(out, k, 0);
    } else {
      forall i | 0 <= i < |out| ensures out[i].key != k {
        assert out[i] in rest;
      }
      AbsentKey(out, k);
    }
  }

  /** Finding a key is unaffected by pairs of other keys in front of it. */
  lemma AfterOthers(front: seq<Entry>, back: seq<Entry>, k: Key)
    requires forall e :: e in front ==> Rank(e.key) < Rank(k)
    ensures Find(front + back, k) == Find(back, k)
  {
    var out := front + back;
    forall i | 0 <= i < |front| ensures out[i].key != k {
      assert out[i] in front;
    }
    if HasKey(back, k) {
      var j := IndexOfKey(back, k);
      assert out[|front| + j] == back[j];
      IndexOfKeyAt(out, k, |front| + j);
    } else {
      forall i | 0 <= i < |out| ensures out[i].key != k {
        if i >= |front| {
          assert out[i] == back[i - |front|];
          assert Keys(back)[i - |front|] == back[i - |front|].key;
        }
      }
      AbsentKey(out, k);
    }
  }

  /** Three optional parts, each holding at most its own key, make a
      ranked record. */
  lemma PartsRanked(sc: seq<Entry>, se: seq<Entry>, co: seq<Entry>)
    requires |sc| <= 1 && forall e :: e in sc ==> e.key == StrKey("scenario")
    requires |se| <= 1 && forall e :: e in se ==> e.key == StrKey("series")
    requires |co| <= 1 && forall e :: e in co ==> e.key == StrKey("constant")
    ensures RankedRecord(sc + se + co)
    ensures forall e :: e in se + co ==> Rank(e.key) > 0
    ensures forall e :: e in co ==> Rank(e.key) > 1
    ensures forall e :: e in sc ==> Rank(e.key) < 1
    ensures forall e :: e in sc + se ==> Rank(e.key) < 2
  {
    var out := sc + se + co;
    assert Rank(StrKey("scenario")) == 0 && Rank(StrKey("series")) == 1 && Rank(StrKey("constant")) == 2;
    forall i | 0 <= i < |out| ensures Rank(out[i].key) == if i < |sc| then 0 else if i < |sc| + |se| then 1 else 2 {
      if i < |sc| {
        assert out[i] in sc;
      } else if i < |sc| + |se| {
        assert out[i] == se[i - |sc|];
      } else {
        assert out[i] == co[i - |sc| - |se|];
      }
    }
  }

  /** A key that no pair carries is not in the dict. */
  lemma AbsentKey(out: seq<Entry>, k: Key)
    requires forall i :: 0 <= i < |out| ==> out[i].key != k
    ensures !HasKey(out, k)
  {
  }

  /** A record fails exactly when its given series or its given constant
      does not convert, and a failing series is reported first. */
  lemma ValueInputErrors(es: seq<Entry>, parse: FloatParser)
    ensures ValueInput(Dict(es), parse).Err? <==>
      || (Given(es, "series").Some? && FloatSeries(Given(es, "series").value, parse).Err?)
      || (Given(es, "constant").Some? && PyFloat(Given(es, "constant").value, parse).Err?)
    ensures Given(es, "series").Some? && FloatSeries(Given(es, "series").value, parse).Err? ==>
      ValueInput(Dict(es), parse) == Err(FloatSeries(Given(es, "series").value, parse).error)
    ensures
      && (Given(es, "series").None? || FloatSeries(Given(es, "series").value, parse).Ok?)
      && Given(es, "constant").Some? && PyFloat(Given(es, "constant").value, parse).Err?
      ==>
      ValueInput(Dict(es), parse) == Err(PyFloat(Given(es, "constant").value, parse).error)
  {
  }

  /** A record holding only a constant becomes `{"constant": float(c)}`
      with no scenario and no series. */
  lemma ValueInputOnlyConstant(c: Value, parse: FloatParser)
    requires c != Null && PyFloat(c, parse).Ok?
    ensures ValueInput(Dict([Entry(StrKey("constant"), c)]), parse)
         == Ok(Dict([Entry(StrKey("constant"), Float(PyFloat(c, parse).value))]))
  {
    var es := [Entry(StrKey("constant"), c)];
    AbsentKey(es, StrKey("scenario"));
    AbsentKey(es, StrKey("series"));
    IndexOfKeyAt(es, StrKey("constant"), 0);
    var out := [Entry(StrKey("constant"), Float(PyFloat(c, parse).value))];
    assert ScenarioPart(es) == [] && SeriesPart(es, parse) == Ok([]) && ConstantPart(es, parse) == Ok(out);
    assert ScenarioPart(es) + SeriesPart(es, parse).value + ConstantPart(es, parse).value == out;
  }

  /** Assigning a key the dict does not hold appends it. */
  lemma SetNewKey(vi: seq<Entry>, k: Key, x: Value)
    requires forall e :: e in vi ==> e.key != k
    ensures SetItem(vi, k, x) == vi + [Entry(k, x)]
  {
    AbsentKey(vi, k);
  }

  /** The body of the loop of `normalize_value_inputs`: the dict `vi` is
      built key by key from the record `v`. */
  method NormalizeRecord(v: Value, parse: FloatParser) returns (r: Result<Value>)
    ensures r == ValueInput(v, parse)
  {
    if !v.Dict? {
      return Err(GetMissing(v));
    }
    var es := v.entries;
    var vi: seq<Entry> := [];
    var scenario := Given(es, "scenario");
    if scenario.Some? {
      SetNewKey(vi, StrKey("scenario"), scenario.value);
      vi := SetItem(vi, StrKey("scenario"), scenario.value);
    }
    assert vi == ScenarioPart(es);
    var series := Given(es, "series");
    if series.Some? {
      var s := FloatSeries(series.value, parse);
      if s.Err? {
        assert ValueInput(v, parse) == Err(s.error);
        return Err(s.error);
      }
      SetNewKey(vi, StrKey("series"), s.value);
      vi := SetItem(vi, StrKey("series"), s.value);
    }
    assert vi == ScenarioPart(es) + SeriesPart(es, parse).value;
    var constant := Given(es, "constant");
    if constant.Some? {
      var c := PyFloat(constant.value, parse);
      if c.Err? {
        assert ValueInput(v, parse) == Err(c.error);
        return Err(c.error);
      }
      SetNewKey(vi, StrKey("constant"), Float(c.value));
      vi := SetItem(vi, StrKey("constant"), Float(c.value));
    }
    assert vi == ScenarioPart(es) + SeriesPart(es, parse).value + ConstantPart(es, parse).value;
    return Ok(Dict(vi));
  }

  /** `normalize_value_inputs(arr)`: a falsy `arr` (None, an empty list)
      gives the empty list; otherwise each element becomes one value-input
      record, in order, and the first element that fails ends the call with
      its error. */
  method NormalizeValueInputs(arr: Value, parse: FloatParser) returns (r: Result<seq<Value>>)
    ensures !Truthy(arr) ==> r == Ok([])
    ensures Truthy(arr) && Iterate(arr).Err? ==> r == Err(TypeError)
    ensures Truthy(arr) && Iterate(arr).Ok? ==>
      var items := Iterate(arr).value;
      && (r.Ok? <==> forall i :: 0 <= i < |items| ==> ValueInput(items[i], parse).Ok?)
      && (r.Ok? ==> |r.value| == |items| && forall i :: 0 <= i < |items| ==> ValueInput(items[i], parse) == Ok(r.value[i]))
      && (r.Err? ==> exists i :: 0 <= i < |items| && ValueInput(items[i], parse) == Err(r.error)
                                && forall j :: 0 <= j < i ==> ValueInput(items[j], parse).Ok?)
  {
    var items: seq<Value>;
    if !Truthy(arr) {
      items := [];
    } else {
      var it := Iterate(arr);
      if it.Err? {
        return Err(TypeError);
      }
      items := it.value;
    }
    var norm: seq<Value> := [];
    var i := 0;
    while i < |items|
      invariant 0 <= i <= |items| && |norm| == i
      invariant forall j :: 0 <= j < i ==> ValueInput(items[j], parse) == Ok(norm[j])
    {
      var vi := NormalizeRecord(items[i], parse);
      if vi.Err? {
        assert ValueInput(items[i], parse) == Err(vi.error);
        return Err(vi.error);
      }
      norm := norm + [vi.value];
      i := i + 1;
    }
    r := Ok(norm);
  }
}
