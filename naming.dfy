/**
 * Automatic names: every class derived from `AutoNaming` reads a counter
 * `_temp` through its method resolution order and writes the incremented
 * value into its own class dictionary, so a subclass shares the counter of
 * its nearest ancestor until its first increment gives it its own.
 */
module Naming {
  import opened Outcomes
  import opened Text

  /** The class that holds the initial counter `_temp = 0`. */
  const Root: string := "AutoNaming"

  /** A class as the lookup sees it: its method resolution order, the class itself first. */
  predicate IsNamingClass(mro: seq<string>)
  {
    |mro| >= 1 && Root in mro
  }

  /** Attribute lookup: the counter of the first class in `mro` whose own dictionary holds one. */
  function FirstOwn(own: map<string, nat>, mro: seq<string>): (r: Option<nat>)
    ensures r.None? <==> forall k :: 0 <= k < |mro| ==> mro[k] !in own
    ensures r.Some? ==> exists k :: 0 <= k < |mro| && mro[k] in own && own[mro[k]] == r.value
                                    && forall j :: 0 <= j < k ==> mro[j] !in own
  {
    if mro == [] then None
    else if mro[0] in own then
      Some(own[mro[0]])
    else
      var r := FirstOwn(own, mro[1..]);
      if r.Some? then
        var k :| 0 <= k < |mro[1..]| && mro[1..][k] in own && own[mro[1..][k]] == r.value
                 && forall j :: 0 <= j < k ==> mro[1..][j] !in own;
        assert mro[k + 1] in own && own[mro[k + 1]] == r.value;
        assert forall j :: 0 <= j < k + 1 ==> mro[j] !in own by {
          forall j | 0 <= j < k + 1 ensures mro[j] !in own {
            if j > 0 { assert mro[j] == mro[1..][j - 1]; }
          }
        }
        r
      else r
  }

  /** The names `base + str(c)`, `base + str(c + 1)`, ... for `count` counter values. */
  function NamesFrom(base: string, c: nat, count: nat): (r: seq<string>)
    ensures |r| == count
    ensures forall i :: 0 <= i < count ==> r[i] == base + NatToString(c + i)
    decreases count
  {
    if count == 0 then [] else [base + NatToString(c)] + NamesFrom(base, c + 1, count - 1)
  }

  /** Names drawn from consecutive counter values never repeat. */
  lemma {:induction false} NamesDistinct(base: string, c: nat, count: nat)
    ensures forall i, j :: 0 <= i < j < count ==> NamesFrom(base, c, count)[i] != NamesFrom(base, c, count)[j]
  {
    var r := NamesFrom(base, c, count);
    forall i, j | 0 <= i < j < count ensures r[i] != r[j] {
      SuffixedNamesDistinct(base, c + i, c + j);
    }
  }

  /** After a class writes its own counter, it reads that value back. */
  lemma {:induction false} OwnCounterRead(own: map<string, nat>, mro: seq<string>, v: nat)
    requires |mro| >= 1
    ensures FirstOwn(own[mro[0] := v], mro) == Some(v)
  {
  }

  /** A class without its own counter reads its first base's counter. */
  lemma {:induction false} InheritedCounter(own: map<string, nat>, mro: seq<string>)
    requires |mro| >= 1 && mro[0] !in own
    ensures FirstOwn(own, mro) == FirstOwn(own, mro[1..])
  {
  }

  /**
   * A write to one class's counter is seen by another class exactly when that
   * class has no counter of its own before the written class in its order.
   */
  lemma {:induction false} WriteSeenBy(own: map<string, nat>, cls: string, v: nat, mro: seq<string>)
    ensures FirstOwn(own[cls := v], mro) ==
            if FirstOwnBefore(own, mro, cls) then Some(v) else FirstOwn(own, mro)
    decreases |mro|
  {
    if mro != [] && mro[0] != cls && mro[0] !in own {
      WriteSeenBy(own, cls, v, mro[1..]);
    }
  }

  /** No class before `cls` in `mro` holds its own counter. */
  predicate FirstOwnBefore(own: map<string, nat>, mro: seq<string>, cls: string)
  {
    mro != [] && (mro[0] == cls || (mro[0] !in own && FirstOwnBefore(own, mro[1..], cls)))
  }

  /** The per-class counters `_temp` of every naming class. */
  class Counters {
    /** The counters held in class dictionaries, by class name. */
    var own: map<string, nat>

    /** Only `AutoNaming` holds a counter, with value 0. */
    constructor ()
      ensures own == map[Root := 0]
    {
      own := map[Root := 0];
    }

    predicate Valid()
      reads this
    {
      Root in own
    }

    /** `cls._temp`. */
    function Counter(mro: seq<string>): (c: nat)
      reads this
      requires Valid() && IsNamingClass(mro)
      ensures FirstOwn(own, mro) == Some(c)
    {
      FirstOwnFound(own, mro);
      FirstOwn(own, mro).value
    }

    /**
     * `cls._gen_name(use_name)`: the given name, or the class name when it is
     * empty or absent, followed by the counter; the class's own counter
     * becomes one more than the value read.
     */
    method GenName(mro: seq<string>, useName: string) returns (name: string)
      requires Valid() && IsNamingClass(mro)
      modifies this
      ensures Valid()
      ensures name == (if useName == "" then mro[0] else useName) + NatToString(old(Counter(mro)))
      ensures own == old(own)[mro[0] := old(Counter(mro)) + 1]
      ensures Counter(mro) == old(Counter(mro)) + 1
    {
      var c := Counter(mro);
      var base := if useName == "" then mro[0] else useName;
      name := base + NatToString(c);
      own := own[mro[0] := c + 1];
      OwnCounterRead(old(own), mro, c + 1);
    }

    /**
     * `cls._gen_names(count, use_name)`: `count` consecutive names from the
     * class's counter, which ends `count` higher; nothing is written when
     * `count` is 0.
     */
    method GenNames(mro: seq<string>, count: nat, useName: string) returns (names: seq<string>)
      requires Valid() && IsNamingClass(mro)
      modifies this
      ensures Valid()
      ensures names == NamesFrom(if useName == "" then mro[0] else useName, old(Counter(mro)), count)
      ensures own == if count == 0 then old(own) else old(own)[mro[0] := old(Counter(mro)) + count]
    {
      var base := if useName == "" then mro[0] else useName;
      ghost var c0 := Counter(mro);
      names := [];
      var i := 0;
      while i < count
        invariant 0 <= i <= count
        invariant Valid()
        invariant Counter(mro) == c0 + i
        invariant own == if i == 0 then old(own) else old(own)[mro[0] := c0 + i]
        invariant names == NamesFrom(base, c0, i)
      {
        NamesFromSnoc(base, c0, i);
        var name := GenName(mro, useName);
        assert own == old(own)[mro[0] := c0 + i + 1];
        names := names + [name];
        i := i + 1;
      }
    }
  }

  /** Every naming class finds a counter: `AutoNaming` is in its order and holds one. */
  lemma {:induction false} FirstOwnFound(own: map<string, nat>, mro: seq<string>)
    requires Root in own && Root in mro
    ensures FirstOwn(own, mro).Some?
  {
    var k :| 0 <= k < |mro| && mro[k] == Root;
    assert mro[k] in own;
  }

  /** One more name extends the list at its end. */
  lemma {:induction false} NamesFromSnoc(base: string, c: nat, i: nat)
    ensures NamesFrom(base, c, i + 1) == NamesFrom(base, c, i) + [base + NatToString(c + i)]
  {
    var a := NamesFrom(base, c, i + 1);
    var b := NamesFrom(base, c, i) + [base + NatToString(c + i)];
    assert |a| == |b|;
    forall k | 0 <= k < |a| ensures a[k] == b[k] {
    }
  }
}
