/**
 * The variable registry of the fitting wrapper: every `Var` is stored by
 * name in one class-wide dictionary, looked up singly (`Var.get`) or as a
 * separated list of names (`Var.get_tuple`), and a tuple of variables takes
 * values or fixed/free flags element by element.
 */
module Vars {
  import opened Outcomes
  import opened Text
  import opened Roo

  /** `Var._dct`: every constructed variable, by name; a later one of the same name replaces the earlier. */
  class VarRegistry {
    var dct: map<string, RooVar>

    constructor ()
      ensures dct == map[]
    {
      dct := map[];
    }

    /** The registration at the end of `Var.__init__`. */
    method Register(name: string, v: RooVar)
      modifies this
      ensures dct == old(dct)[name := v]
      ensures Get(name) == Some(v)
      ensures forall other :: other != name ==> Get(other) == old(Get(other))
    {
      dct := dct[name := v];
    }

    /** `Var.get(name)`: the registered variable, or `None` for the `NotImplemented` sentinel; it never raises. */
    function Get(name: string): (r: Option<RooVar>)
      reads this
      ensures r.Some? <==> name in dct
      ensures r.Some? ==> r.value == dct[name]
    {
      if name in dct then Some(dct[name]) else None
    }
  }

  // ----- Var.get_tuple -----

  predicate StartsWith(s: string, p: string)
  {
    |p| <= |s| && s[..|p|] == p
  }

  const Dunder: string := "__"

  /** The message of the error raised for a `__`-prefixed name with no closing `__`. */
  const FormatError: string := "Var tuple Format Error"

  /**
   * The separator and the text it splits: a name starting with `__` carries its
   * own separator, up to and including the first `__` at index 2 or later;
   * any other name is split on `__`.
   */
  function TupleSeparator(name: string): (r: Result<(string, string)>)
    ensures r.Err? <==> StartsWith(name, Dunder) && FindFrom(name, Dunder, 2) == -1
    ensures r.Err? ==> r.error == ValueError(FormatError)
    ensures r.Ok? && StartsWith(name, Dunder) ==>
              var sep := r.value.0;
              |sep| >= 4 && StartsWith(sep, Dunder) && sep[|sep| - 2..] == Dunder && sep + r.value.1 == name
              && FindFrom(name, Dunder, 2) == |sep| - 2
    ensures r.Ok? && !StartsWith(name, Dunder) ==> r.value == (Dunder, name)
  {
    if StartsWith(name, Dunder) then
      var i := FindFrom(name, Dunder, 2);
      if i == -1 then Err(ValueError(FormatError))
      else
        assert name[..i + 2] + name[i + 2..] == name;
        Ok((name[..i + 2], name[i + 2..]))
    else Ok((Dunder, name))
  }

  /** The variable names a tuple name denotes. */
  function TupleNames(name: string): Result<seq<string>>
  {
    match TupleSeparator(name)
    case Err(e) => Err(e)
    case Ok((sep, rest)) => Ok(Split(rest, sep))
  }

  /** The variables registered under `names`, in order; `KeyError` for the first name not registered. */
  function LookupAll(dct: map<string, RooVar>, names: seq<string>): (r: Result<seq<RooVar>>)
    ensures r.Ok? <==> forall k :: 0 <= k < |names| ==> names[k] in dct
    ensures r.Ok? ==> |r.value| == |names| && forall k :: 0 <= k < |names| ==> r.value[k] == dct[names[k]]
    ensures r.Err? ==> exists k :: 0 <= k < |names| && names[k] !in dct && r.error == KeyError(names[k])
                                   && forall j :: 0 <= j < k ==> names[j] in dct
  {
    if names == [] then Ok([])
    else if names[0] !in dct then Err(KeyError(names[0]))
    else
      match LookupAll(dct, names[1..])
      case Err(e) =>
        var k :| 0 <= k < |names[1..]| && names[1..][k] !in dct && e == KeyError(names[1..][k])
                 && forall j :: 0 <= j < k ==> names[1..][j] in dct;
        assert names[k + 1] !in dct;
        Err(e)
      case Ok(vs) => Ok([dct[names[0]]] + vs)
  }

  /** `Var.get_tuple(name)`: the registered variables named by the parts, or the first error. */
  function GetTuple(dct: map<string, RooVar>, name: string): Result<seq<RooVar>>
  {
    match TupleNames(name)
    case Err(e) => Err(e)
    case Ok(names) => LookupAll(dct, names)
  }

  /** Searching after a known prefix finds what searching the rest finds, shifted by the prefix length. */
  lemma {:induction false} FindShift(p: string, s: string, sub: string, i: nat)
    ensures FindFrom(p + s, sub, |p| + i) == if FindFrom(s, sub, i) == -1 then -1 else |p| + FindFrom(s, sub, i)
    decreases |s| - i
  {
    if i + |sub| <= |s| {
      assert (p + s)[|p| + i..|p| + i + |sub|] == s[i..i + |sub|];
      if s[i..i + |sub|] != sub {
        FindShift(p, s, sub, i + 1);
      }
    }
  }

  /** `a__b__c` names the variables `a`, `b`, `c` when no part holds or touches `__` and the first does not start with `_`. */
  lemma {:induction false} PlainTupleRoundTrip(parts: seq<string>)
    requires |parts| >= 1 && parts[0] != [] && parts[0][0] != '_'
    requires forall k :: 0 <= k < |parts| ==> CleanPart(parts[k], Dunder)
    ensures TupleNames(Join(parts, Dunder)) == Ok(parts)
  {
    var name := Join(parts, Dunder);
    JoinStartsWithFirst(parts, Dunder);
    assert name[0] == parts[0][0];
    SplitJoin(parts, Dunder);
  }

  /** A join begins with its first part. */
  lemma {:induction false} JoinStartsWithFirst(parts: seq<string>, sep: string)
    requires |parts| >= 1
    ensures |parts[0]| <= |Join(parts, sep)| && Join(parts, sep)[..|parts[0]|] == parts[0]
  {
    if |parts| > 1 {
      assert Join(parts, sep) == parts[0] + (sep + Join(parts[1..], sep));
    }
  }

  /**
   * `__<mid>__a<sep>b<sep>c`, with `sep = __<mid>__`, names `a`, `b`, `c` when
   * `mid` does not contain or run into `__` and no part holds or touches `sep`.
   */
  lemma {:induction false} CustomTupleRoundTrip(mid: string, parts: seq<string>)
    requires CleanPart(mid, Dunder)
    requires |parts| >= 1
    requires forall k :: 0 <= k < |parts| ==> CleanPart(parts[k], Dunder + mid + Dunder)
    ensures TupleNames(Dunder + mid + Dunder + Join(parts, Dunder + mid + Dunder)) == Ok(parts)
  {
    var sep := Dunder + mid + Dunder;
    var rest := Join(parts, sep);
    var name := sep + rest;
    assert name == Dunder + ((mid + Dunder) + rest);
    FindInPrefix(mid + Dunder, rest, Dunder, 0);
    FindShift(Dunder, (mid + Dunder) + rest, Dunder, 0);
    assert FindFrom(name, Dunder, 2) == 2 + |mid|;
    assert name[..2] == Dunder;
    assert name[..|mid| + 4] == sep;
    assert name[|mid| + 4..] == rest;
    SplitJoin(parts, sep);
  }

  /** A name that opens with `__` and never closes it is a format error. */
  lemma {:induction false} UnclosedSeparator()
    ensures TupleNames("__a") == Err(ValueError(FormatError))
  {
    assert StartsWith("__a", Dunder);
    assert FindFrom("__a", Dunder, 2) == -1;
  }

  /** With every part registered the tuple holds their variables in order; otherwise the first missing part is the error. */
  lemma {:induction false} GetTupleParts(dct: map<string, RooVar>, parts: seq<string>)
    requires |parts| >= 1 && parts[0] != [] && parts[0][0] != '_'
    requires forall k :: 0 <= k < |parts| ==> CleanPart(parts[k], Dunder)
    ensures var r := GetTuple(dct, Join(parts, Dunder));
            (r.Ok? <==> forall k :: 0 <= k < |parts| ==> parts[k] in dct) &&
            (r.Ok? ==> |r.value| == |parts| && forall k :: 0 <= k < |parts| ==> r.value[k] == dct[parts[k]]) &&
            (r.Err? ==> exists k :: 0 <= k < |parts| && parts[k] !in dct && r.error == KeyError(parts[k])
                                    && forall j :: 0 <= j < k ==> parts[j] in dct)
  {
    PlainTupleRoundTrip(parts);
  }

  // ----- VarTuple -----

  /** The value a position-wise assignment of `t` to `vs` leaves in `v`: the last position holding `v` wins. */
  function Assigned<T>(vs: seq<RooVar>, t: seq<T>, v: RooVar): (r: Option<T>)
    requires |vs| == |t|
    ensures r.Some? <==> v in vs
  {
    if vs == [] then None
    else if vs[|vs| - 1] == v then Some(t[|t| - 1])
    else Assigned(vs[..|vs| - 1], t[..|t| - 1], v)
  }

  ghost predicate Distinct(vs: seq<RooVar>)
  {
    forall i, j :: 0 <= i < j < |vs| ==> vs[i] != vs[j]
  }

  /** Without repeated variables every variable gets the element at its own position. */
  lemma {:induction false} AssignedDistinct<T>(vs: seq<RooVar>, t: seq<T>, i: nat)
    requires |vs| == |t| && Distinct(vs) && i < |vs|
    ensures Assigned(vs, t, vs[i]) == Some(t[i])
    decreases |vs|
  {
    if i < |vs| - 1 {
      assert vs[|vs| - 1] != vs[i];
      assert vs[..|vs| - 1][i] == vs[i];
      AssignedDistinct(vs[..|vs| - 1], t[..|t| - 1], i);
    }
  }

  /** Assigning one more position extends the earlier assignment. */
  lemma {:induction false} AssignedStep<T>(vs: seq<RooVar>, t: seq<T>, i: nat, v: RooVar)
    requires |vs| == |t| && i < |vs|
    ensures Assigned(vs[..i + 1], t[..i + 1], v) == if vs[i] == v then Some(t[i]) else Assigned(vs[..i], t[..i], v)
  {
    assert vs[..i + 1][..i] == vs[..i];
    assert t[..i + 1][..i] == t[..i];
  }

  /** The variables a tuple may change. */
  function Footprint(vs: seq<RooVar>): set<RooVar>
  {
    set v | v in vs
  }

  /**
   * `VarTuple.setVal(t)` (also `tuple << t`): a length mismatch raises
   * `IndexError` before anything changes; otherwise each variable takes the
   * element at its position, in order, and flags stay as they were.
   */
  method SetVals(vs: seq<RooVar>, t: seq<real>) returns (r: Outcome)
    modifies Footprint(vs)
    ensures |vs| != |t| <==> r == Fail(IndexError)
    ensures |vs| != |t| ==> forall v :: v in vs ==> v.value == old(v.value)
    ensures |vs| == |t| ==> forall v :: v in vs ==> v.value == Assigned(vs, t, v).value
    ensures forall v :: v in vs ==> v.constant == old(v.constant)
  {
    if |vs| != |t| {
      return Fail(IndexError);
    }
    var i := 0;
    while i < |vs|
      invariant 0 <= i <= |vs|
      invariant forall v :: v in vs ==> v.value == match Assigned(vs[..i], t[..i], v) case Some(x) => x case None => old(v.value)
      invariant forall v :: v in vs ==> v.constant == old(v.constant)
    {
      forall v | v in vs {
        AssignedStep(vs, t, i, v);
      }
      vs[i].value := t[i];
      i := i + 1;
    }
    assert vs[..i] == vs && t[..i] == t;
    return Pass;
  }

  /** `tuple & b` for a bool: every variable is fixed (`true`) or freed (`false`). */
  method SetConstantAll(vs: seq<RooVar>, b: bool)
    modifies Footprint(vs)
    ensures forall v :: v in vs ==> v.constant == b && v.value == old(v.value)
  {
    var i := 0;
    while i < |vs|
      invariant 0 <= i <= |vs|
      invariant forall v :: v in vs ==> v.value == old(v.value)
      invariant forall v :: v in vs[..i] ==> v.constant == b
    {
      vs[i].constant := b;
      i := i + 1;
      assert forall v :: v in vs[..i] ==> v in vs[..i - 1] || v == vs[i - 1];
    }
    assert vs[..i] == vs;
  }

  /** Python truth of a number. */
  predicate Truthy(x: real) { x != 0.0 }

  /**
   * `tuple & t` for a sequence: a length mismatch raises `IndexError` before
   * anything changes; otherwise each variable is fixed when its element is
   * non-zero and freed when it is zero, in order, and values stay as they were.
   */
  method SetConstantEach(vs: seq<RooVar>, t: seq<real>) returns (r: Outcome)
    modifies Footprint(vs)
    ensures |vs| != |t| <==> r == Fail(IndexError)
    ensures |vs| != |t| ==> forall v :: v in vs ==> v.constant == old(v.constant)
    ensures |vs| == |t| ==> forall v :: v in vs ==> v.constant == Truthy(Assigned(vs, t, v).value)
    ensures forall v :: v in vs ==> v.value == old(v.value)
  {
    if |vs| != |t| {
      return Fail(IndexError);
    }
    var i := 0;
    while i < |vs|
      invariant 0 <= i <= |vs|
      invariant forall v :: v in vs ==> v.constant == match Assigned(vs[..i], t[..i], v) case Some(x) => Truthy(x) case None => old(v.constant)
      invariant forall v :: v in vs ==> v.value == old(v.value)
    {
      forall v | v in vs {
        AssignedStep(vs, t, i, v);
      }
      vs[i].constant := Truthy(t[i]);
      i := i + 1;
    }
    assert vs[..i] == vs && t[..i] == t;
    return Pass;
  }
}
