/**
 * The probability-density side of the fitting wrapper: sums of extended
 * terms, component selection by name, the class-wide registry of densities
 * that refuses a repeated name, and the argument binding of the density
 * classes generated from a parameter list.
 */
module Pdfs {
  import opened Outcomes
  import opened Text

  /** The Python values the binding and the component selection look at. */
  datatype Value =
    | Str(s: string)
    | Num(x: real)
    | Tuple(items: seq<Value>)
    | Object(id: nat)       // a variable or a library object, by identity

  // ----- ExtendedPdf -----

  /** `s[i]` on a Python list: negative indices count from the end; anything else raises `IndexError`. */
  function PyIndex<T>(s: seq<T>, i: int): (r: Result<T>)
    ensures r.Ok? <==> -|s| <= i < |s|
    ensures r.Err? ==> r.error == IndexError
    ensures 0 <= i < |s| ==> r == Ok(s[i])
    ensures -|s| <= i < 0 ==> r == Ok(s[|s| + i])
  {
    if 0 <= i < |s| then Ok(s[i])
    else if -|s| <= i < 0 then Ok(s[|s| + i])
    else Err(IndexError)
  }

  /** In a concatenation, the first part's indices and the second part's negative indices are kept. */
  lemma {:induction false} PyIndexConcat<T>(a: seq<T>, b: seq<T>, i: int)
    ensures 0 <= i < |a| ==> PyIndex(a + b, i) == PyIndex(a, i)
    ensures -|b| <= i < 0 ==> PyIndex(a + b, i) == PyIndex(b, i)
    ensures |a| <= i ==> PyIndex(a + b, i) == PyIndex(b, i - |a|)
  {
  }

  /** A sum of extended terms: the list of (coefficient, density) pairs it holds. */
  class ExtendedPdf<T> {
    var pair: seq<T>

    constructor (t: seq<T>)
      ensures pair == t
    {
      pair := t;
    }

    /** `a + b`: a new sum holding `a`'s terms then `b`'s; both operands are left as they were. */
    method Plus(other: ExtendedPdf<T>) returns (r: ExtendedPdf<T>)
      ensures fresh(r) && r.pair == pair + other.pair
    {
      r := new ExtendedPdf(pair + other.pair);
    }

    /** `a += b`: `b`'s terms appended to `a` in place (also when `b` is `a` itself). */
    method PlusAssign(other: ExtendedPdf<T>)
      modifies this
      ensures pair == old(pair) + old(other.pair)
    {
      pair := pair + other.pair;
    }

    /** `a[i]`: one of the sum's terms, counting from the back for a negative index; `IndexError` out of range. */
    function Get(i: int): (r: Result<T>)
      reads this
      ensures r.Ok? <==> -|pair| <= i < |pair|
      ensures r.Err? ==> r.error == IndexError
      ensures r.Ok? ==> r.value in pair
    {
      PyIndex(pair, i)
    }
  }

  // ----- AddPdfItem -----

  /** The strings of a tuple of strings. */
  function Strings(items: seq<Value>): (r: seq<string>)
    requires forall k :: 0 <= k < |items| ==> items[k].Str?
    ensures |r| == |items| && forall k :: 0 <= k < |items| ==> r[k] == items[k].s
  {
    if items == [] then [] else [items[0].s] + Strings(items[1..])
  }

  /** The component selection of `add[index]`: a name, or a tuple of names joined by commas; any other index raises `TypeError`. */
  function ComponentIndex(index: Value): (r: Result<string>)
    ensures r.Err? ==> r.error == TypeError
    ensures r.Err? <==> !index.Str? && !(index.Tuple? && forall k :: 0 <= k < |index.items| ==> index.items[k].Str?)
    ensures index.Str? ==> r == Ok(index.s)
    ensures index.Tuple? && r.Ok? ==> r == Ok(Join(Strings(index.items), ","))
  {
    match index
    case Str(s) => Ok(s)
    case Tuple(items) =>
      if forall k :: 0 <= k < |items| ==> items[k].Str? then Ok(Join(Strings(items), ",")) else Err(TypeError)
    case _ => Err(TypeError)
  }

  /** A string without commas is a clean comma-separated field. */
  lemma {:induction false} NoCommaClean(p: string)
    requires forall j :: 0 <= j < |p| ==> p[j] != ','
    ensures CleanPart(p, ",")
  {
    var r := FindFrom(p + ",", ",", 0);
    assert OccursAt(p + ",", ",", |p|);
    assert r != -1;
    assert (p + ",")[r..r + 1] == ",";
    assert (p + ",")[r] == ',';
  }

  /** A non-empty tuple of comma-free names selects a component list that splits back into those names. */
  lemma {:induction false} ComponentsRoundTrip(names: seq<string>)
    requires |names| >= 1
    requires forall k, j :: 0 <= k < |names| && 0 <= j < |names[k]| ==> names[k][j] != ','
    ensures ComponentIndex(Tuple(seq(|names|, k requires 0 <= k < |names| => Str(names[k])))) .Ok?
    ensures Split(ComponentIndex(Tuple(seq(|names|, k requires 0 <= k < |names| => Str(names[k])))).value, ",") == names
  {
    var items := seq(|names|, k requires 0 <= k < |names| => Str(names[k]));
    assert Strings(items) == names;
    forall k | 0 <= k < |names| ensures CleanPart(names[k], ",") {
      NoCommaClean(names[k]);
    }
    SplitJoin(names, ",");
  }

  // ----- Pdf registry -----

  /** The registry after constructing a density named `name`: `ValueError` when the name is taken. */
  function AddPdf<P>(dct: map<string, P>, name: string, p: P): (r: Result<map<string, P>>)
    ensures r.Err? <==> name in dct
    ensures r.Err? ==> r.error == ValueError("Pdf name repeated")
    ensures r.Ok? ==> r.value.Keys == dct.Keys + {name} && r.value[name] == p
    ensures r.Ok? ==> forall n :: n in dct ==> r.value[n] == dct[n]
  {
    if name in dct then Err(ValueError("Pdf name repeated")) else Ok(dct[name := p])
  }

  /** The registry after constructing densities in order, each repeated name being refused. */
  function AddAll<P>(dct: map<string, P>, items: seq<(string, P)>): map<string, P>
    decreases |items|
  {
    if items == [] then dct
    else
      match AddPdf(dct, items[0].0, items[0].1)
      case Ok(d) => AddAll(d, items[1..])
      case Err(_) => AddAll(dct, items[1..])
  }

  /**
   * Over any run of constructions every name ends up registered, and it maps
   * to the density registered first under it: an earlier entry, or the first
   * construction that used the name.
   */
  lemma {:induction false} FirstRegistrationWins<P>(dct: map<string, P>, items: seq<(string, P)>)
    ensures AddAll(dct, items).Keys == dct.Keys + set it | it in items :: it.0
    ensures forall n :: n in dct ==> AddAll(dct, items)[n] == dct[n]
    ensures forall k :: 0 <= k < |items| && items[k].0 !in dct && (forall j :: 0 <= j < k ==> items[j].0 != items[k].0)
              ==> AddAll(dct, items)[items[k].0] == items[k].1
    decreases |items|
  {
    if items != [] {
      var d := if items[0].0 in dct then dct else dct[items[0].0 := items[0].1];
      FirstRegistrationWins(d, items[1..]);
      assert (set it | it in items :: it.0) == {items[0].0} + set it | it in items[1..] :: it.0;
      forall k | 0 <= k < |items| && items[k].0 !in dct && (forall j :: 0 <= j < k ==> items[j].0 != items[k].0)
        ensures AddAll(dct, items)[items[k].0] == items[k].1
      {
        if k > 0 {
          assert items[1..][k - 1] == items[k];
          assert forall j :: 0 <= j < k - 1 ==> items[1..][j].0 != items[k].0 by {
            forall j | 0 <= j < k - 1 ensures items[1..][j].0 != items[k].0 {
              assert items[1..][j] == items[j + 1];
            }
          }
        }
      }
    }
  }

  /** `Pdf._dct`: every constructed density, by name. */
  class PdfRegistry<P> {
    var dct: map<string, P>

    constructor ()
      ensures dct == map[]
    {
      dct := map[];
    }

    /**
     * The registration in `Pdf.__init__`: an observable that is not a variable
     * raises `TypeError`, a repeated name raises `ValueError`, and in both
     * cases the registry is left as it was; otherwise the name is added.
     */
    method Register(xIsVariable: bool, name: string, p: P) returns (r: Outcome)
      modifies this
      ensures !xIsVariable ==> r == Fail(TypeError) && dct == old(dct)
      ensures xIsVariable ==> match AddPdf(old(dct), name, p)
                              case Ok(d) => r == Pass && dct == d
                              case Err(e) => r == Fail(e) && dct == old(dct)
      ensures r.Pass? ==> Get(name) == Ok(p)
      ensures forall n :: n != name ==> Get(n) == old(Get(n))
    {
      if !xIsVariable {
        return Fail(TypeError);
      }
      if name in dct {
        return Fail(ValueError("Pdf name repeated"));
      }
      dct := dct[name := p];
      return Pass;
    }

    /** `Pdf.get(name)`: `KeyError` for a name never registered. */
    function Get(name: string): (r: Result<P>)
      reads this
      ensures r.Ok? <==> name in dct
      ensures r.Ok? ==> r.value == dct[name]
      ensures r.Err? ==> r.error == KeyError(name)
    {
      if name in dct then Ok(dct[name]) else Err(KeyError(name))
    }
  }

  // ----- argument binding of the generated density classes -----

  /** Where a declared parameter's variable comes from; `init` marks a value given as `<param>_init`. */
  datatype Source = Given(arg: Value, init: bool) | FreshVar

  /** The density's name: given as a value, or generated from the class counter. */
  datatype NameSource = GivenName(name: Value) | GeneratedName

  datatype Binding = Binding(sources: seq<Source>, name: NameSource)

  const InitSuffix: string := "_init"

  /** One parameter: the next positional, else its keyword, else its `_init` keyword, else a fresh variable. */
  function BindOne(p: string, args: seq<Value>, kw: map<string, Value>): (r: (Source, seq<Value>, map<string, Value>))
  {
    if |args| != 0 then (Given(args[0], false), args[1..], kw)
    else if p in kw then (Given(kw[p], false), args, kw - {p})
    else if p + InitSuffix in kw then (Given(kw[p + InitSuffix], true), args, kw - {p + InitSuffix})
    else (FreshVar, args, kw)
  }

  /** The declared parameters in order: their sources and the arguments left over. */
  function BindParams(ps: seq<string>, args: seq<Value>, kw: map<string, Value>): (r: (seq<Source>, seq<Value>, map<string, Value>))
    ensures |r.0| == |ps|
    decreases |ps|
  {
    if ps == [] then ([], args, kw)
    else
      var (src, args', kw') := BindOne(ps[0], args, kw);
      var (rest, args'', kw'') := BindParams(ps[1..], args', kw');
      ([src] + rest, args'', kw'')
  }

  /** The name: a leading string positional left over, else the `name` keyword, else generated. */
  function BindName(args: seq<Value>, kw: map<string, Value>): (NameSource, seq<Value>, map<string, Value>)
  {
    if |args| >= 1 && args[0].Str? then (GivenName(args[0]), args[1..], kw)
    else if "name" in kw then (GivenName(kw["name"]), args, kw - {"name"})
    else (GeneratedName, args, kw)
  }

  /** The whole binding; any argument still unused raises `TypeError`. */
  function Bind(ps: seq<string>, args: seq<Value>, kw: map<string, Value>): Result<Binding>
  {
    var (sources, args', kw') := BindParams(ps, args, kw);
    var (name, args'', kw'') := BindName(args', kw');
    if |args''| != 0 || |kw''| != 0 then Err(TypeError) else Ok(Binding(sources, name))
  }

  /**
   * The binding as the generated `__init__` performs it: the parameters pop
   * their arguments, then the name pops its own, and anything left over is
   * refused.
   */
  method BindArguments(ps: seq<string>, args0: seq<Value>, kwargs0: map<string, Value>) returns (r: Result<Binding>)
    ensures r == Bind(ps, args0, kwargs0)
  {
    var sources, args, kwargs := PopParams(ps, args0, kwargs0);
    var name: NameSource;
    if |args| >= 1 && args[0].Str? {
      name := GivenName(args[0]);
      args := args[1..];
    } else if "name" in kwargs {
      name := GivenName(kwargs["name"]);
      kwargs := kwargs - {"name"};
    } else {
      name := GeneratedName;
    }
    if |args| != 0 || |kwargs| != 0 {
      return Err(TypeError);
    }
    return Ok(Binding(sources, name));
  }

  /** The parameter loop of `__init__`, popping from the positional list and the keyword dictionary. */
  method PopParams(ps: seq<string>, args0: seq<Value>, kwargs0: map<string, Value>)
    returns (sources: seq<Source>, args: seq<Value>, kwargs: map<string, Value>)
    ensures (sources, args, kwargs) == BindParams(ps, args0, kwargs0)
  {
    args := args0;
    kwargs := kwargs0;
    sources := [];
    var i := 0;
    assert ps[i..] == ps;
    assert [] + BindParams(ps, args0, kwargs0).0 == BindParams(ps, args0, kwargs0).0;
    while i < |ps|
      invariant 0 <= i <= |ps|
      invariant BindParams(ps, args0, kwargs0) == Prepend(sources, BindParams(ps[i..], args, kwargs))
    {
      var s := ps[i];
      ghost var step := BindOne(s, args, kwargs);
      ghost var before := sources;
      BindParamsStep(ps, i, args, kwargs);
      if |args| != 0 {
        sources := sources + [Given(args[0], false)];
        args := args[1..];
      } else if s in kwargs {
        sources := sources + [Given(kwargs[s], false)];
        kwargs := kwargs - {s};
      } else if s + InitSuffix in kwargs {
        sources := sources + [Given(kwargs[s + InitSuffix], true)];
        kwargs := kwargs - {s + InitSuffix};
      } else {
        sources := sources + [FreshVar];
      }
      assert sources == before + [step.0] && args == step.1 && kwargs == step.2;
      PrependTwice(before, [step.0], BindParams(ps[i + 1..], args, kwargs));
      i := i + 1;
    }
    assert ps[i..] == [];
    assert sources + [] == sources;
  }

  /** Sources bound before the rest of the binding. */
  function Prepend(before: seq<Source>, t: (seq<Source>, seq<Value>, map<string, Value>)): (seq<Source>, seq<Value>, map<string, Value>)
  {
    (before + t.0, t.1, t.2)
  }

  lemma {:induction false} PrependTwice(a: seq<Source>, b: seq<Source>, t: (seq<Source>, seq<Value>, map<string, Value>))
    ensures Prepend(a, Prepend(b, t)) == Prepend(a + b, t)
  {
    assert a + (b + t.0) == (a + b) + t.0;
  }

  /** Binding from parameter `i` on is binding parameter `i`, then the rest with what it left. */
  lemma {:induction false} BindParamsStep(ps: seq<string>, i: nat, args: seq<Value>, kw: map<string, Value>)
    requires i < |ps|
    ensures var (src, args', kw') := BindOne(ps[i], args, kw);
            BindParams(ps[i..], args, kw) == Prepend([src], BindParams(ps[i + 1..], args', kw'))
  {
    assert ps[i..][0] == ps[i] && ps[i..][1..] == ps[i + 1..];
  }

  /**
   * Where parameter `k` takes its variable from, read off the call as a whole:
   * the `k`-th positional, else its keyword, else its `_init` keyword, else a
   * fresh variable.
   */
  function SourceOf(ps: seq<string>, k: nat, args: seq<Value>, kw: map<string, Value>): Source
    requires k < |ps|
  {
    if k < |args| then Given(args[k], false)
    else if ps[k] in kw then Given(kw[ps[k]], false)
    else if ps[k] + InitSuffix in kw then Given(kw[ps[k] + InitSuffix], true)
    else FreshVar
  }

  /** No two parameters share a name, and no parameter is named as another's `_init` form. */
  ghost predicate Unambiguous(ps: seq<string>)
  {
    (forall i, j :: 0 <= i < j < |ps| ==> ps[i] != ps[j])
    && (forall i, j :: 0 <= i < |ps| && 0 <= j < |ps| ==> ps[i] != ps[j] + InitSuffix)
  }

  /** Different names have different `_init` forms. */
  lemma {:induction false} InitFormsDiffer(a: string, b: string)
    requires a != b
    ensures a + InitSuffix != b + InitSuffix
  {
    if |a| == |b| {
      assert (a + InitSuffix)[..|a|] == a && (b + InitSuffix)[..|b|] == b;
    }
  }

  /**
   * With unambiguous parameter names, the popping loop gives every parameter
   * the source `SourceOf` reads off the call, in mixed calls too, and the
   * positionals beyond the parameters are left over.
   */
  lemma {:induction false} BindParamsSources(ps: seq<string>, args: seq<Value>, kw: map<string, Value>)
    requires Unambiguous(ps)
    ensures forall k :: 0 <= k < |ps| ==> BindParams(ps, args, kw).0[k] == SourceOf(ps, k, args, kw)
    ensures BindParams(ps, args, kw).1 == if |args| <= |ps| then [] else args[|ps|..]
    decreases |ps|
  {
    if ps != [] {
      var (src, args', kw') := BindOne(ps[0], args, kw);
      var tail := ps[1..];
      assert Unambiguous(tail) by {
        forall i, j | 0 <= i < |tail| && 0 <= j < |tail| ensures tail[i] != tail[j] + InitSuffix {
          assert tail[i] == ps[i + 1] && tail[j] == ps[j + 1];
        }
        forall i, j | 0 <= i < j < |tail| ensures tail[i] != tail[j] {
          assert tail[i] == ps[i + 1] && tail[j] == ps[j + 1];
        }
      }
      BindParamsSources(tail, args', kw');
      var r := BindParams(ps, args, kw);
      assert r.0 == [src] + BindParams(tail, args', kw').0;
      forall k | 0 <= k < |ps| ensures r.0[k] == SourceOf(ps, k, args, kw) {
        if k > 0 {
          assert r.0[k] == SourceOf(tail, k - 1, args', kw');
          assert tail[k - 1] == ps[k];
          if |args| == 0 {
            assert ps[k] != ps[0] && ps[k] != ps[0] + InitSuffix && ps[k] + InitSuffix != ps[0];
            InitFormsDiffer(ps[k], ps[0]);
          }
        }
      }
      if |args| > |ps| {
        assert args[1..][|tail|..] == args[|ps|..];
      }
    }
  }

  /**
   * A call with one positional and a `sigma_init` keyword, for the parameters
   * `mean`, `sigma`, `frac`: the positional binds `mean`, the initial value
   * binds `sigma`, `frac` gets a fresh variable, and the name is generated.
   */
  lemma {:induction false} MixedCallExample(x: Value, y: Value)
    ensures Bind(["mean", "sigma", "frac"], [x], map["sigma_init" := y])
              == Ok(Binding([Given(x, false), Given(y, true), FreshVar], GeneratedName))
  {
    var ps := ["mean", "sigma", "frac"];
    var kw := map["sigma_init" := y];
    assert "sigma" + InitSuffix == "sigma_init";
    assert Unambiguous(ps);
    BindParamsSources(ps, [x], kw);
    var r := BindParams(ps, [x], kw);
    assert r.0 == [Given(x, false), Given(y, true), FreshVar];
    assert r.2 == map[];
  }

  /** With at least as many positionals as parameters, the parameters take the leading positionals in order. */
  lemma {:induction false} PositionalsFirst(ps: seq<string>, args: seq<Value>, kw: map<string, Value>)
    requires |args| >= |ps|
    ensures var r := BindParams(ps, args, kw);
            (forall k :: 0 <= k < |ps| ==> r.0[k] == Given(args[k], false)) && r.1 == args[|ps|..] && r.2 == kw
    decreases |ps|
  {
    if ps != [] {
      PositionalsFirst(ps[1..], args[1..], kw);
      assert args[1..][|ps| - 1..] == args[|ps|..];
      var r := BindParams(ps, args, kw);
      forall k | 0 <= k < |ps| ensures r.0[k] == Given(args[k], false) {
        if k > 0 { assert args[1..][k - 1] == args[k]; }
      }
    }
  }

  /** A positional after the parameters that is not a string cannot be the name and is refused. */
  lemma {:induction false} ExtraPositionalRejected(ps: seq<string>, args: seq<Value>, kw: map<string, Value>)
    requires |args| > |ps| && !args[|ps|].Str?
    ensures Bind(ps, args, kw) == Err(TypeError)
  {
    PositionalsFirst(ps, args, kw);
  }

  /** A keyword that names no parameter, no `<param>_init` and not `name` is never used up, so it is refused. */
  lemma {:induction false} UnknownKeywordKept(ps: seq<string>, args: seq<Value>, kw: map<string, Value>, key: string)
    requires key in kw
    requires forall k :: 0 <= k < |ps| ==> key != ps[k] && key != ps[k] + InitSuffix
    ensures key in BindParams(ps, args, kw).2 && BindParams(ps, args, kw).2[key] == kw[key]
    decreases |ps|
  {
    if ps != [] {
      var (_, args', kw') := BindOne(ps[0], args, kw);
      UnknownKeywordKept(ps[1..], args', kw', key);
    }
  }

  /** The binding refuses every call carrying an unknown keyword. */
  lemma {:induction false} UnknownKeywordRejected(ps: seq<string>, args: seq<Value>, kw: map<string, Value>, key: string)
    requires key in kw && key != "name"
    requires forall k :: 0 <= k < |ps| ==> key != ps[k] && key != ps[k] + InitSuffix
    ensures Bind(ps, args, kw) == Err(TypeError)
  {
    UnknownKeywordKept(ps, args, kw, key);
  }

  /** All parameters given by keyword, nothing positional: each takes its own keyword and the name is generated. */
  lemma {:induction false} AllByKeyword(ps: seq<string>, kw: map<string, Value>)
    requires forall k :: 0 <= k < |ps| ==> ps[k] in kw
    requires forall i, j :: 0 <= i < j < |ps| ==> ps[i] != ps[j]
    ensures var r := BindParams(ps, [], kw);
            (forall k :: 0 <= k < |ps| ==> r.0[k] == Given(kw[ps[k]], false)) && r.1 == [] &&
            r.2 == kw - set p | p in ps
    decreases |ps|
  {
    if ps != [] {
      var kw' := kw - {ps[0]};
      forall k | 0 <= k < |ps[1..]| ensures ps[1..][k] in kw' {
        assert ps[1..][k] == ps[k + 1];
      }
      AllByKeyword(ps[1..], kw');
      var r := BindParams(ps, [], kw);
      forall k | 0 <= k < |ps| ensures r.0[k] == Given(kw[ps[k]], false) {
        if k > 0 { assert ps[1..][k - 1] == ps[k]; }
      }
      assert (set p | p in ps) == {ps[0]} + set p | p in ps[1..];
    }
  }

  /** Exactly the parameters as keywords, and nothing else, binds each parameter to its keyword under a generated name. */
  lemma {:induction false} KeywordCall(ps: seq<string>, kw: map<string, Value>)
    requires kw.Keys == set p | p in ps
    requires forall i, j :: 0 <= i < j < |ps| ==> ps[i] != ps[j]
    requires "name" !in kw
    ensures Bind(ps, [], kw) == Ok(Binding(seq(|ps|, k requires 0 <= k < |ps| => Given(kw[ps[k]], false)), GeneratedName))
  {
    AllByKeyword(ps, kw);
    KeywordsUsedUp(ps, kw);
    var r := BindParams(ps, [], kw);
    assert r.0 == seq(|ps|, k requires 0 <= k < |ps| => Given(kw[ps[k]], false));
    assert BindName(r.1, r.2) == (GeneratedName, [], map[]);
  }

  /** Removing every parameter from a dictionary keyed by exactly the parameters leaves it empty. */
  lemma {:induction false} KeywordsUsedUp(ps: seq<string>, kw: map<string, Value>)
    requires kw.Keys == set p | p in ps
    ensures kw - (set p | p in ps) == map[]
  {
    var left := kw - (set p | p in ps);
    assert left.Keys == {};
  }
}
