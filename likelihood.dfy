/**
 * The likelihood curve `_Likelihood`: an insertion-ordered list of
 * `(n, val, nll)` records keyed by the scan value `n`, with upsert, lookup,
 * the cumulative upper-limit search, padding with zero records, and the
 * `"<n> <val>"` text format. Keys and values are exact reals.
 */
module Likelihood {
  import opened Outcomes
  import opened Text
  import opened NumberTokens

  /** One scan point: scan value, relative likelihood, raw negative log-likelihood. */
  datatype Item = Item(n: real, val: real, nll: real)

  /** No record of the list has key `n`. */
  predicate Absent(d: seq<Item>, n: real)
  {
    forall k :: 0 <= k < |d| ==> d[k].n != n
  }

  ghost predicate UniqueKeys(d: seq<Item>)
  {
    forall i, j :: 0 <= i < j < |d| ==> d[i].n != d[j].n
  }

  /** Keys strictly increase along the list, as a scan builds them. */
  ghost predicate Ascending(d: seq<Item>)
  {
    forall i, j :: 0 <= i < j < |d| ==> d[i].n < d[j].n
  }

  /** Position of the first record with key `n`: the linear search of `__setitem__` and `__getitem__`. */
  function IndexOf(d: seq<Item>, n: real): (r: Option<nat>)
    ensures r.Some? ==> r.value < |d| && d[r.value].n == n
    ensures r.Some? ==> forall k :: 0 <= k < r.value ==> d[k].n != n
    ensures r.None? <==> Absent(d, n)
  {
    if d == [] then None
    else if d[0].n == n then Some(0)
    else match IndexOf(d[1..], n)
      case None => None
      case Some(k) => Some(k + 1)
  }

  /** `l[n]`: the `(val, nll)` of the first record with key `n`; `IndexError` when there is none. */
  function Lookup(d: seq<Item>, n: real): (r: Result<(real, real)>)
    ensures r.Err? <==> Absent(d, n)
    ensures r.Err? ==> r.error == IndexError
    ensures r.Ok? ==> exists k :: 0 <= k < |d| && d[k].n == n && r.value == (d[k].val, d[k].nll)
  {
    match IndexOf(d, n)
    case None => Err(IndexError)
    case Some(k) => Ok((d[k].val, d[k].nll))
  }

  /** The search stops at the first record with the key. */
  lemma {:induction false} IndexOfFirst(d: seq<Item>, n: real, k: nat)
    requires k < |d| && d[k].n == n
    requires forall j :: 0 <= j < k ==> d[j].n != n
    ensures IndexOf(d, n) == Some(k)
  {
    assert !Absent(d, n);
    var r := IndexOf(d, n).value;
    assert !(r < k);
    assert !(k < r);
  }

  /** With unique keys, looking up a record's key finds that record. */
  lemma {:induction false} LookupUnique(d: seq<Item>, k: nat)
    requires UniqueKeys(d) && k < |d|
    ensures Lookup(d, d[k].n) == Ok((d[k].val, d[k].nll))
  {
    IndexOfFirst(d, d[k].n, k);
  }

  /** `l[n] = (val, nll)` on the record list: replace the first record with that key in place, else append. */
  function Upsert(d: seq<Item>, it: Item): seq<Item>
  {
    match IndexOf(d, it.n)
    case Some(k) => d[k := it]
    case None => d + [it]
  }

  /**
   * Setting a key: the list grows by one exactly when the key was absent, and
   * then the record goes at the end; every record with another key keeps its
   * slot; the key then reads back the values just set; unique keys stay unique.
   */
  lemma {:induction false} UpsertSpec(d: seq<Item>, it: Item)
    ensures var r := Upsert(d, it);
      && (!Absent(d, it.n) ==> |r| == |d|)
      && (Absent(d, it.n) ==> r == d + [it])
      && (forall k :: 0 <= k < |d| && d[k].n != it.n ==> r[k] == d[k])
      && Lookup(r, it.n) == Ok((it.val, it.nll))
      && (UniqueKeys(d) ==> UniqueKeys(r))
  {
    var r := Upsert(d, it);
    match IndexOf(d, it.n)
    case Some(k) =>
      IndexOfFirst(r, it.n, k);
    case None =>
      IndexOfFirst(r, it.n, |d|);
  }

  /** Setting a key the list does not hold appends the record. */
  lemma {:induction false} UpsertFresh(d: seq<Item>, it: Item)
    requires Absent(d, it.n)
    ensures Upsert(d, it) == d + [it]
  {
  }

  /** Setting the same key twice leaves what the second call set, in the same place. */
  lemma {:induction false} SetTwice(d: seq<Item>, n: real, a: real, b: real, c: real, e: real)
    ensures Upsert(Upsert(d, Item(n, a, b)), Item(n, c, e)) == Upsert(d, Item(n, c, e))
  {
    var d1 := Upsert(d, Item(n, a, b));
    match IndexOf(d, n)
    case Some(k) =>
      IndexOfFirst(d1, n, k);
    case None =>
      IndexOfFirst(d1, n, |d|);
  }

  /** Upserting several records in order, as the loops of `enlong`, `load` and the repair do. */
  function UpsertAll(d: seq<Item>, items: seq<Item>): seq<Item>
    decreases |items|
  {
    if items == [] then d else Upsert(UpsertAll(d, items[..|items| - 1]), items[|items| - 1])
  }

  /** One more record upserted. */
  lemma {:induction false} UpsertAllStep(d: seq<Item>, items: seq<Item>, j: nat)
    requires j < |items|
    ensures UpsertAll(d, items[..j + 1]) == Upsert(UpsertAll(d, items[..j]), items[j])
  {
    assert items[..j + 1][..j] == items[..j];
  }

  /** Records with keys new to the list, and to each other, are simply appended. */
  lemma {:induction false} UpsertAllFresh(d: seq<Item>, items: seq<Item>)
    requires UniqueKeys(d + items)
    ensures UpsertAll(d, items) == d + items
    decreases |items|
  {
    if items != [] {
      var m := |items|;
      var init := items[..m - 1];
      var last := items[m - 1];
      var whole := d + items;
      assert d + init == whole[..|d| + m - 1];
      UpsertAllFresh(d, init);
      assert whole[|d| + m - 1] == last;
      assert Absent(d + init, last.n) by {
        forall k | 0 <= k < |d + init| ensures (d + init)[k].n != last.n {
          assert (d + init)[k] == whole[k];
        }
      }
      UpsertSpec(d + init, last);
      assert d + init + [last] == whole;
    }
  }

  /** Setting one key leaves the lookup of every other key as it was. */
  lemma {:induction false} UpsertKeepsOther(d: seq<Item>, it: Item, x: real)
    requires x != it.n
    ensures Lookup(Upsert(d, it), x) == Lookup(d, x)
  {
    var r := Upsert(d, it);
    assert forall k :: 0 <= k < |r| ==> r[k] == it || (k < |d| && r[k] == d[k]);
    match IndexOf(d, x)
    case Some(j) =>
      IndexOfFirst(r, x, j);
    case None =>
      assert Absent(r, x);
  }

  /**
   * Upserting records with distinct keys into a list with unique keys: keys stay
   * unique, each upserted key reads back its record, and every record whose key
   * is not upserted keeps its slot and value.
   */
  lemma {:induction false} UpsertAllLookup(d: seq<Item>, items: seq<Item>)
    requires UniqueKeys(d) && UniqueKeys(items)
    ensures var r := UpsertAll(d, items);
      && UniqueKeys(r)
      && (forall t :: 0 <= t < |items| ==> Lookup(r, items[t].n) == Ok((items[t].val, items[t].nll)))
      && (forall k :: 0 <= k < |d| && Absent(items, d[k].n) ==> k < |r| && r[k] == d[k])
    decreases |items|
  {
    if items != [] {
      var m := |items|;
      var init := items[..m - 1];
      var last := items[m - 1];
      assert forall t :: 0 <= t < m - 1 ==> init[t] == items[t];
      UpsertAllLookup(d, init);
      var r0 := UpsertAll(d, init);
      var r := Upsert(r0, last);
      UpsertSpec(r0, last);
      assert |r0| <= |r|;
      forall t | 0 <= t < m - 1 ensures Lookup(r, items[t].n) == Ok((items[t].val, items[t].nll)) {
        assert init[t] == items[t];
        UpsertKeepsOther(r0, last, items[t].n);
      }
      forall k | 0 <= k < |d| && Absent(items, d[k].n) ensures k < |r| && r[k] == d[k] {
        assert d[k].n != last.n;
        assert Absent(init, d[k].n);
      }
    }
  }

  // ----- upper_limit -----

  /** The likelihood summed over the first `i` records. */
  function Partial(d: seq<Item>, i: nat): real
    requires i <= |d|
  {
    if i == 0 then 0.0 else Partial(d, i - 1) + d[i - 1].val
  }

  /** Total likelihood of a list of records: the first pass of `upper_limit`. */
  function Mass(d: seq<Item>): real
  {
    Partial(d, |d|)
  }

  /** The running likelihood sum up to and including record `k`. */
  function Running(d: seq<Item>, k: nat): real
    requires k < |d|
  {
    Partial(d, k + 1)
  }

  ghost predicate NonNegative(d: seq<Item>)
  {
    forall k :: 0 <= k < |d| ==> d[k].val >= 0.0
  }

  /**
   * The first position, in list order, whose running likelihood sum reaches the
   * threshold `t`; `None` when no prefix does.
   */
  function Reach(d: seq<Item>, t: real): (r: Option<nat>)
    ensures r.Some? ==> r.value < |d| && Running(d, r.value) >= t
    ensures r.Some? ==> forall k :: 0 <= k < r.value ==> Running(d, k) < t
    ensures r.None? ==> forall k :: 0 <= k < |d| ==> Running(d, k) < t
  {
    ReachFrom(d, t, 0)
  }

  function ReachFrom(d: seq<Item>, t: real, i: nat): (r: Option<nat>)
    requires i <= |d|
    requires forall k :: 0 <= k < i ==> Running(d, k) < t
    ensures r.Some? ==> i <= r.value < |d| && Running(d, r.value) >= t
    ensures r.Some? ==> forall k :: 0 <= k < r.value ==> Running(d, k) < t
    ensures r.None? ==> forall k :: 0 <= k < |d| ==> Running(d, k) < t
    decreases |d| - i
  {
    if i == |d| then None
    else if Running(d, i) >= t then Some(i)
    else ReachFrom(d, t, i + 1)
  }

  /** The first position reaching the threshold is the one `Reach` finds. */
  lemma {:induction false} ReachIs(d: seq<Item>, t: real, i: nat)
    requires i < |d| && Running(d, i) >= t
    requires forall k :: 0 <= k < i ==> Running(d, k) < t
    ensures Reach(d, t) == Some(i)
  {
    var r := Reach(d, t);
    assert r.Some?;
    assert !(r.value < i);
    assert !(i < r.value);
  }

  /** The record `upper_limit(cl)` returns for a record list. */
  function UpperLimitOf(d: seq<Item>, cl: real): Option<Item>
  {
    match Reach(d, cl * Mass(d))
    case None => None
    case Some(k) => Some(d[k])
  }

  lemma {:induction false} PartialNonNegative(d: seq<Item>, i: nat)
    requires NonNegative(d) && i <= |d|
    ensures Partial(d, i) >= 0.0
  {
    if i > 0 {
      PartialNonNegative(d, i - 1);
    }
  }

  /** With non-negative likelihoods and `cl <= 1`, a non-empty curve always has an upper limit. */
  lemma {:induction false} UpperLimitExists(d: seq<Item>, cl: real)
    requires NonNegative(d) && cl <= 1.0 && d != []
    ensures UpperLimitOf(d, cl).Some?
  {
    var m := Mass(d);
    PartialNonNegative(d, |d|);
    assert Running(d, |d| - 1) == m;
    assert cl * m <= m by {
      assert (1.0 - cl) * m >= 0.0;
    }
  }

  /** A larger confidence level never gives an earlier record. */
  lemma {:induction false} UpperLimitMonotone(d: seq<Item>, cl1: real, cl2: real)
    requires NonNegative(d) && cl1 <= cl2
    requires Reach(d, cl2 * Mass(d)).Some?
    ensures Reach(d, cl1 * Mass(d)).Some?
    ensures Reach(d, cl1 * Mass(d)).value <= Reach(d, cl2 * Mass(d)).value
  {
    var m := Mass(d);
    PartialNonNegative(d, |d|);
    assert cl1 * m <= cl2 * m by {
      assert (cl2 - cl1) * m >= 0.0;
    }
    var j := Reach(d, cl2 * m).value;
    assert Running(d, j) >= cl1 * m;
  }

  // ----- drange and enlong -----

  lemma {:induction false} ProductSign(x: real, s: real)
    requires s > 0.0
    ensures x > 0.0 ==> x * s > 0.0
    ensures x < 0.0 ==> x * s < 0.0
  {
  }

  lemma {:induction false} ZeroProduct(x: real, s: real)
    requires s > 0.0 && x * s == 0.0
    ensures x == 0.0
  {
    ProductSign(x, s);
  }

  /** One step fewer to go: what makes `drange` terminate. */
  lemma {:induction false} QuotientShift(a: real, s: real)
    requires s > 0.0
    ensures (a - s) / s == a / s - 1.0
  {
    var q := a / s;
    var p := (a - s) / s;
    assert q * s == a;
    assert p * s == a - s;
    assert (p - q + 1.0) * s == p * s - q * s + s;
    ZeroProduct(p - q + 1.0, s);
  }

  /**
   * `drange(start, stop, step)`: start, start + step, ... while below stop.
   * Each value is one step past the one before; the first value that would
   * reach `stop` is not produced.
   */
  function DRange(start: real, stop: real, step: real): (r: seq<real>)
    requires step > 0.0 || start >= stop
    ensures r == [] <==> start >= stop
    ensures r != [] ==> r[0] == start && r[|r| - 1] + step >= stop
    ensures forall j :: 0 <= j < |r| ==> start <= r[j] < stop
    decreases if start < stop then ((stop - start) / step).Floor + 1 else 0
  {
    if start < stop then
      QuotientShift(stop - start, step);
      assert stop - (start + step) == (stop - start) - step;
      var rest := DRange(start + step, stop, step);
      var r := [start] + rest;
      assert forall j :: 1 <= j < |r| ==> r[j] == rest[j - 1];
      r
    else []
  }

  /** Each value is one step past the one before. */
  predicate StepsBy(r: seq<real>, step: real)
  {
    forall j :: 0 <= j < |r| - 1 ==> r[j + 1] == r[j] + step
  }

  /** Each value of `drange` is one step past the one before. */
  lemma {:induction false} DRangeSteps(start: real, stop: real, step: real)
    requires step > 0.0 || start >= stop
    ensures StepsBy(DRange(start, stop, step), step)
    decreases if start < stop then ((stop - start) / step).Floor + 1 else 0
  {
    if start < stop {
      QuotientShift(stop - start, step);
      assert stop - (start + step) == (stop - start) - step;
      DRangeSteps(start + step, stop, step);
      var r := DRange(start, stop, step);
      var rest := DRange(start + step, stop, step);
      assert r == [start] + rest;
      forall j | 0 <= j < |r| - 1 ensures r[j + 1] == r[j] + step {
        assert r[j + 1] == rest[j];
        if j > 0 {
          assert r[j] == rest[j - 1];
          assert rest[j] == rest[j - 1] + step;
        }
      }
    }
  }

  /** Each value is below every later one. */
  predicate StrictlyAscending(r: seq<real>)
  {
    forall i, j :: 0 <= i < j < |r| ==> r[i] < r[j]
  }

  /** With a positive step, `drange` is strictly ascending. */
  lemma {:induction false} DRangeAscending(start: real, stop: real, step: real)
    requires step > 0.0
    ensures StrictlyAscending(DRange(start, stop, step))
  {
    var r := DRange(start, stop, step);
    DRangeSteps(start, stop, step);
    forall i, j | 0 <= i < j < |r| ensures r[i] < r[j] {
      StepsAscend(r, step, i, j);
    }
  }

  /** Values that go up by a positive step each time increase. */
  lemma {:induction false} StepsAscend(r: seq<real>, step: real, i: nat, j: nat)
    requires step > 0.0 && i < j < |r| && StepsBy(r, step)
    ensures r[i] < r[j]
    decreases j
  {
    assert r[j] == r[j - 1] + step;
    if i < j - 1 {
      StepsAscend(r, step, i, j - 1);
    }
  }

  /** The generator `drange` as it runs: yield the current value, then add the step, while below `stop`. */
  method GenerateRange(start: real, stop: real, step: real) returns (r: seq<real>)
    requires step > 0.0 || start >= stop
    ensures r == DRange(start, stop, step)
  {
    ghost var full := DRange(start, stop, step);
    DRangeSteps(start, stop, step);
    r := [];
    var x := start;
    while x < stop
      invariant |r| <= |full| && r == full[..|r|]
      invariant |r| < |full| ==> x == full[|r|]
      invariant |r| == |full| ==> x >= stop
      decreases |full| - |r|
    {
      r := r + [x];
      x := x + step;
    }
    assert r == full;
  }

  /** Zero records `(k, 0, 0)` for the given keys. */
  function Zeros(ks: seq<real>): (r: seq<Item>)
    ensures |r| == |ks| && forall j :: 0 <= j < |ks| ==> r[j] == Item(ks[j], 0.0, 0.0)
  {
    seq(|ks|, j requires 0 <= j < |ks| => Item(ks[j], 0.0, 0.0))
  }

  /** The step `enlong` infers from the first two records. */
  function StepOf(d: seq<Item>): real
    requires |d| >= 2
  {
    d[1].n - d[0].n
  }

  /** `enlong` terminates: the inferred step is positive or there is nothing to add. */
  predicate PadTerminates(d: seq<Item>, end: real)
    requires |d| >= 2
  {
    StepOf(d) > 0.0 || d[|d| - 1].n + StepOf(d) >= end
  }

  /** The keys `enlong(end)` adds: from one step past the last record, below `end`. */
  function PadKeys(d: seq<Item>, end: real): seq<real>
    requires |d| >= 2 && PadTerminates(d, end)
  {
    DRange(d[|d| - 1].n + StepOf(d), end, StepOf(d))
  }

  /** The padded list of an ascending curve has unique keys. */
  lemma {:induction false} PadUnique(d: seq<Item>, end: real)
    requires |d| >= 2 && Ascending(d)
    ensures PadTerminates(d, end)
    ensures UniqueKeys(d + Zeros(PadKeys(d, end)))
  {
    var step := StepOf(d);
    var last := d[|d| - 1].n;
    assert d[0].n < d[1].n;
    var ks := PadKeys(d, end);
    assert ks == DRange(last + step, end, step);
    DRangeAscending(last + step, end, step);
    AscendingBelowLast(d);
    forall j | 0 <= j < |ks| ensures last < ks[j] {
      assert last + step <= ks[j];
    }
    ZerosAfter(d, ks, last);
  }

  /** Ascending keys are unique, and none is above the last. */
  lemma {:induction false} AscendingBelowLast(d: seq<Item>)
    requires |d| >= 1 && Ascending(d)
    ensures UniqueKeys(d)
    ensures forall i :: 0 <= i < |d| ==> d[i].n <= d[|d| - 1].n
  {
  }

  /** Zero records with ascending keys above a bound, after records with unique keys up to it, keep the keys unique. */
  lemma {:induction false} ZerosAfter(d: seq<Item>, ks: seq<real>, bound: real)
    requires UniqueKeys(d) && StrictlyAscending(ks)
    requires forall i :: 0 <= i < |d| ==> d[i].n <= bound
    requires forall j :: 0 <= j < |ks| ==> bound < ks[j]
    ensures UniqueKeys(d + Zeros(ks))
  {
    var w := d + Zeros(ks);
    forall i, j | 0 <= i < j < |w| ensures w[i].n != w[j].n {
      if j < |d| {
        assert w[i] == d[i] && w[j] == d[j];
      } else if i < |d| {
        assert w[i] == d[i] && w[j].n == ks[j - |d|];
      } else {
        assert w[i].n == ks[i - |d|] && w[j].n == ks[j - |d|];
      }
    }
  }

  /**
   * On a curve with ascending keys, `enlong(end)` appends `(k, 0, 0)` for the
   * keys k = last + step, last + 2 step, ... below `end` (nothing when
   * last + step >= end) and leaves the earlier records as they were.
   */
  lemma {:induction false} PadAppends(d: seq<Item>, end: real)
    requires |d| >= 2 && Ascending(d)
    ensures PadTerminates(d, end)
    ensures var ks := PadKeys(d, end);
      && UpsertAll(d, Zeros(ks)) == d + Zeros(ks)
      && (ks == [] <==> d[|d| - 1].n + StepOf(d) >= end)
  {
    PadUnique(d, end);
    var ks := PadKeys(d, end);
    UpsertAllFresh(d, Zeros(ks));
  }

  // ----- the text format -----

  /**
   * One `"<n> <val>"` line per record, as `__str__` writes them. The keys are
   * `Decimal`s and the likelihoods `float`s, which Python formats differently:
   * `showKey` and `showVal` are the two formattings.
   */
  function Lines(d: seq<Item>, showKey: real -> string, showVal: real -> string): (r: seq<string>)
    ensures |r| == |d| && forall k :: 0 <= k < |d| ==> r[k] == showKey(d[k].n) + " " + showVal(d[k].val)
  {
    seq(|d|, k requires 0 <= k < |d| => showKey(d[k].n) + " " + showVal(d[k].val))
  }

  /**
   * How a load reads one line: `load` applies the start-anchored pattern to the
   * line as it is, `load_str` to the stripped line.
   */
  function Reader(strip: bool): string -> Option<(real, real)>
  {
    line => ParseLine(if strip then Strip(line) else line)
  }

  /** A line passes the reader. */
  predicate Parses(line: string, read: string -> Option<(real, real)>)
  {
    read(line).Some?
  }

  /** One line of a load: upsert `(Decimal(n), float(val), 0.0)`, or `ValueError(line)` when it does not match. */
  function LoadLine(d: seq<Item>, line: string, read: string -> Option<(real, real)>): Result<seq<Item>>
  {
    match read(line)
    case None => Err(ValueError(line))
    case Some((n, v)) => Ok(Upsert(d, Item(n, v, 0.0)))
  }

  /**
   * What `load` or `load_str` builds, line by line from an empty curve; the
   * first line that does not match stops the load.
   */
  function Loaded(lines: seq<string>, read: string -> Option<(real, real)>): Result<seq<Item>>
    decreases |lines|
  {
    if lines == [] then Ok([])
    else
      match Loaded(lines[..|lines| - 1], read)
      case Err(e) => Err(e)
      case Ok(d) => LoadLine(d, lines[|lines| - 1], read)
  }

  /** `load_str(text)`: the text is cut at every newline and each piece is stripped. */
  function LoadedText(text: string): Result<seq<Item>>
  {
    Loaded(Split(text, "\n"), Reader(true))
  }

  /** Loading fails exactly when some line does not match, and reports the first such line. */
  lemma {:induction false} LoadedFailsAtFirstBadLine(lines: seq<string>, read: string -> Option<(real, real)>)
    ensures Loaded(lines, read).Err? <==> exists k :: 0 <= k < |lines| && !Parses(lines[k], read)
    ensures Loaded(lines, read).Err? ==>
      exists k :: 0 <= k < |lines| && !Parses(lines[k], read)
        && (forall j :: 0 <= j < k ==> Parses(lines[j], read))
        && Loaded(lines, read).error == ValueError(lines[k])
    decreases |lines|
  {
    if lines != [] {
      var m := |lines| - 1;
      var init := lines[..m];
      LoadedFailsAtFirstBadLine(init, read);
      assert forall j :: 0 <= j < m ==> init[j] == lines[j];
      if Loaded(init, read).Err? {
        var k :| 0 <= k < m && !Parses(init[k], read)
          && (forall j :: 0 <= j < k ==> Parses(init[j], read))
          && Loaded(init, read).error == ValueError(init[k]);
        assert !Parses(lines[k], read);
      } else {
        assert forall j :: 0 <= j < m ==> Parses(lines[j], read);
        if !Parses(lines[m], read) {
          assert Loaded(lines, read).error == ValueError(lines[m]);
        }
      }
    }
  }

  /** Every record a load produces has `nll == 0.0`; the raw NLL is not saved. */
  lemma {:induction false} LoadedNllZero(lines: seq<string>, read: string -> Option<(real, real)>)
    requires Loaded(lines, read).Ok?
    ensures forall k :: 0 <= k < |Loaded(lines, read).value| ==> Loaded(lines, read).value[k].nll == 0.0
    decreases |lines|
  {
    if lines != [] {
      var init := lines[..|lines| - 1];
      LoadedNllZero(init, read);
      var d := Loaded(init, read).value;
      var m := read(lines[|lines| - 1]);
      var it := Item(m.value.0, m.value.1, 0.0);
      UpsertSpec(d, it);
      assert forall k :: 0 <= k < |Upsert(d, it)| ==> Upsert(d, it)[k] == it || Upsert(d, it)[k] in d;
    }
  }

  /** A join ends with its last part. */
  lemma {:induction false} JoinEndsWithLast(parts: seq<string>, sep: string)
    requires |parts| >= 1
    ensures var j := Join(parts, sep); var p := parts[|parts| - 1];
      |p| <= |j| && j[|j| - |p|..] == p
    decreases |parts|
  {
    if |parts| > 1 {
      JoinEndsWithLast(parts[1..], sep);
      var rest := Join(parts[1..], sep);
      var j := parts[0] + sep + rest;
      assert j[|j| - |rest|..] == rest;
    }
  }

  /** `str.split` on one character: text ending in the separator splits with a last empty piece. */
  lemma {:induction false} SplitTrailingSeparator(s: string, sep: string)
    requires |sep| == 1
    ensures var r := Split(s + sep, sep); r[|r| - 1] == []
  {
    var r := Split(s + sep, sep);
    var p := r[|r| - 1];
    JoinEndsWithLast(r, sep);
    SplitPiecesClean(s + sep, sep);
    assert p in r;
    if p != [] {
      var t := s + sep;
      assert t[|t| - |p|..] == p;
      assert p[|p| - 1] == sep[0];
      assert OccursAt(p, sep, |p| - 1);
    }
  }

  /** An empty line does not match, stripped or not. */
  lemma {:induction false} EmptyLineRejected(strip: bool)
    ensures !Parses([], Reader(strip))
  {
    assert Strip([]) == [];
    assert DigitPrefix([]) == 0;
  }

  /** A load whose last line does not match fails. */
  lemma {:induction false} BadLastLine(lines: seq<string>, read: string -> Option<(real, real)>)
    requires lines != [] && !Parses(lines[|lines| - 1], read)
    ensures Loaded(lines, read).Err?
  {
    LoadedFailsAtFirstBadLine(lines, read);
  }

  /** Text ending with a newline fails to load with any reader that rejects the empty line. */
  lemma {:induction false} TrailingNewlineFails(text: string, read: string -> Option<(real, real)>)
    requires read([]).None?
    ensures Loaded(Split(text + "\n", "\n"), read).Err?
  {
    var lines := Split(text + "\n", "\n");
    SplitTrailingSeparator(text, "\n");
    assert lines[|lines| - 1] == [];
    BadLastLine(lines, read);
  }

  /** `load_str` rejects text that ends with a newline: the empty last line does not match. */
  lemma {:induction false} TrailingNewlineRejected(text: string)
    ensures LoadedText(text + "\n").Err?
  {
    EmptyLineRejected(true);
    TrailingNewlineFails(text, Reader(true));
  }

  /** A line without a newline in it is a clean piece for splitting on newlines. */
  lemma {:induction false} NoNewlineClean(p: string)
    requires forall i :: 0 <= i < |p| ==> p[i] != '\n'
    ensures CleanPart(p, "\n")
  {
    var t := p + "\n";
    assert OccursAt(t, "\n", |p|);
    forall k | 0 <= k < |p| ensures !OccursAt(t, "\n", k) {
      assert t[k..k + 1] == [p[k]];
    }
  }

  /** The records a load of a curve's text gives back: same keys and likelihoods, `nll` zero. */
  function Reloaded(d: seq<Item>): (r: seq<Item>)
    ensures |r| == |d| && forall k :: 0 <= k < |d| ==> r[k] == Item(d[k].n, d[k].val, 0.0)
  {
    seq(|d|, k requires 0 <= k < |d| => Item(d[k].n, d[k].val, 0.0))
  }

  /** Both tokens of every record are well formed for the line pattern. */
  ghost predicate Writable(d: seq<Item>, showKey: real -> string, showVal: real -> string)
  {
    forall k :: 0 <= k < |d| ==> KeyToken(showKey(d[k].n), d[k].n) && ValueToken(showVal(d[k].val), d[k].val)
  }

  /**
   * Lines that each read back as one record, with all keys distinct, load as
   * exactly those records in order, with `nll == 0.0`.
   */
  lemma {:induction false} LoadedInOrder(lines: seq<string>, recs: seq<Item>, read: string -> Option<(real, real)>)
    requires |lines| == |recs| && UniqueKeys(recs)
    requires forall k :: 0 <= k < |lines| ==> read(lines[k]) == Some((recs[k].n, recs[k].val))
    ensures Loaded(lines, read) == Ok(Reloaded(recs))
    decreases |lines|
  {
    if lines != [] {
      var m := |lines| - 1;
      var init, rinit := lines[..m], recs[..m];
      assert UniqueKeys(rinit) by {
        forall i, j | 0 <= i < j < m ensures rinit[i].n != rinit[j].n {
          assert rinit[i] == recs[i] && rinit[j] == recs[j];
        }
      }
      forall k | 0 <= k < m ensures read(init[k]) == Some((rinit[k].n, rinit[k].val)) {
        assert init[k] == lines[k] && rinit[k] == recs[k];
      }
      LoadedInOrder(init, rinit, read);
      var prev := Reloaded(rinit);
      var it := Item(recs[m].n, recs[m].val, 0.0);
      assert Absent(prev, it.n) by {
        forall k | 0 <= k < |prev| ensures prev[k].n != it.n {
          assert prev[k].n == recs[k].n;
        }
      }
      UpsertFresh(prev, it);
      assert lines[..m] == init;
      LoadedStep(lines, m, read, prev);
      assert lines[..m + 1] == lines;
      assert prev + [it] == Reloaded(recs);
    }
  }

  /** One written line, stripped and matched, reads back as its record's key and likelihood. */
  lemma {:induction false} LineReadsBack(d: seq<Item>, showKey: real -> string, showVal: real -> string, k: nat)
    requires k < |d| && Writable(d, showKey, showVal)
    ensures Reader(true)(Lines(d, showKey, showVal)[k]) == Some((d[k].n, d[k].val))
  {
    var a, b := showKey(d[k].n), showVal(d[k].val);
    var line := Lines(d, showKey, showVal)[k];
    assert line == a + " " + b;
    assert a != [] && b != [];
    assert line[0] == a[0] && line[|line| - 1] == b[|b| - 1];
    StripUntouched(line);
    LineRoundTrip(a, b, d[k].n, d[k].val);
  }

  /** A written line holds no newline, so it is a clean piece when the text is split. */
  lemma {:induction false} LineClean(d: seq<Item>, showKey: real -> string, showVal: real -> string, k: nat)
    requires k < |d| && Writable(d, showKey, showVal)
    ensures CleanPart(Lines(d, showKey, showVal)[k], "\n")
  {
    var a, b := showKey(d[k].n), showVal(d[k].val);
    var line := Lines(d, showKey, showVal)[k];
    assert line == a + " " + b;
    forall i | 0 <= i < |line| ensures line[i] != '\n' {
      if i < |a| { assert line[i] == a[i]; }
      else if i > |a| { assert line[i] == b[i - |a| - 1]; }
    }
    NoNewlineClean(line);
  }

  /**
   * Writing a non-empty curve with unique keys and loading the text back with
   * `load_str` reproduces every `(n, val)` pair in order, with `nll == 0.0`,
   * provided the number formatting writes each key as a plain numeral and each
   * likelihood as something the second field reads back exactly.
   */
  lemma {:induction false} TextRoundTrip(d: seq<Item>, showKey: real -> string, showVal: real -> string)
    requires d != [] && UniqueKeys(d) && Writable(d, showKey, showVal)
    ensures LoadedText(Join(Lines(d, showKey, showVal), "\n")) == Ok(Reloaded(d))
  {
    var lines := Lines(d, showKey, showVal);
    forall k | 0 <= k < |lines| ensures CleanPart(lines[k], "\n") {
      LineClean(d, showKey, showVal, k);
    }
    SplitJoin(lines, "\n");
    forall k | 0 <= k < |lines| ensures Reader(true)(lines[k]) == Some((d[k].n, d[k].val)) {
      LineReadsBack(d, showKey, showVal, k);
    }
    LoadedInOrder(lines, d, Reader(true));
  }

  /** The round trip, for every curve that meets its conditions. */
  lemma {:induction false} TextRoundTripWhen(d: seq<Item>, showKey: real -> string, showVal: real -> string)
    ensures d != [] && UniqueKeys(d) && Writable(d, showKey, showVal) ==>
              LoadedText(Join(Lines(d, showKey, showVal), "\n")) == Ok(Reloaded(d))
  {
    if d != [] && UniqueKeys(d) && Writable(d, showKey, showVal) {
      TextRoundTrip(d, showKey, showVal);
    }
  }

  /** One more line of a load that has gone well so far. */
  lemma {:induction false} LoadedStep(lines: seq<string>, i: nat, read: string -> Option<(real, real)>, d: seq<Item>)
    requires i < |lines| && Loaded(lines[..i], read) == Ok(d)
    ensures Loaded(lines[..i + 1], read) == LoadLine(d, lines[i], read)
  {
    assert lines[..i + 1][..i] == lines[..i];
  }

  /** Once a prefix of the lines fails to load, so does every longer prefix, with the same error. */
  lemma {:induction false} LoadedStopsAtError(lines: seq<string>, i: nat, read: string -> Option<(real, real)>)
    requires i <= |lines| && Loaded(lines[..i], read).Err?
    ensures Loaded(lines, read) == Loaded(lines[..i], read)
    decreases |lines| - i
  {
    if i < |lines| {
      assert lines[..i + 1][..i] == lines[..i];
      LoadedStopsAtError(lines, i + 1, read);
    } else {
      assert lines[..i] == lines;
    }
  }

  /** The curve object: its record list, updated in place. */
  class Curve {
    var data: seq<Item>

    constructor ()
      ensures data == []
    {
      data := [];
    }

    /** `__setitem__`: search for the key, replace that record in place, or append. */
    method Set(n: real, val: real, nll: real)
      modifies this
      ensures data == Upsert(old(data), Item(n, val, nll))
    {
      var it := Item(n, val, nll);
      var i := 0;
      while i < |data|
        invariant 0 <= i <= |data| && data == old(data)
        invariant forall k :: 0 <= k < i ==> data[k].n != n
      {
        if data[i].n == n {
          data := data[i := it];
          return;
        }
        i := i + 1;
      }
      data := data + [it];
    }

    /** `__getitem__`: search the records in order for the key. */
    method Get(n: real) returns (r: Result<(real, real)>)
      ensures r == Lookup(data, n)
    {
      for i := 0 to |data|
        invariant forall k :: 0 <= k < i ==> data[k].n != n
      {
        if data[i].n == n {
          IndexOfFirst(data, n, i);
          return Ok((data[i].val, data[i].nll));
        }
      }
      return Err(IndexError);
    }

    /** `upper_limit(CL)`: sum all likelihoods, then return the first record whose running sum reaches CL times that total. */
    method UpperLimit(cl: real) returns (r: Option<Item>)
      ensures r == UpperLimitOf(data, cl)
    {
      var s := 0.0;
      for i := 0 to |data|
        invariant s == Partial(data, i)
      {
        s := s + data[i].val;
      }
      var t := cl * s;
      assert s == Mass(data);
      var p := 0.0;
      for i := 0 to |data|
        invariant p == Partial(data, i)
        invariant forall k :: 0 <= k < i ==> Running(data, k) < t
      {
        p := p + data[i].val;
        assert p == Running(data, i);
        if p >= t {
          ReachIs(data, t, i);
          return Some(data[i]);
        }
      }
      assert Reach(data, t).None?;
      return None;
    }

    /** `enlong(end)`: pad with `(k, 0, 0)` from one step past the last record up to `end`. */
    method Enlong(end: real) returns (r: Outcome)
      requires |data| >= 2 ==> PadTerminates(data, end)
      modifies this
      ensures |old(data)| < 2 ==> r == Fail(IndexError) && data == old(data)
      ensures |old(data)| >= 2 ==> r == Pass && data == UpsertAll(old(data), Zeros(PadKeys(old(data), end)))
    {
      if |data| < 2 {
        return Fail(IndexError);
      }
      var ks := PadKeys(data, end);
      var zs := Zeros(ks);
      ghost var d0 := data;
      for j := 0 to |ks|
        invariant data == UpsertAll(d0, zs[..j])
      {
        UpsertAllStep(d0, zs, j);
        Set(ks[j], 0.0, 0.0);
      }
      assert zs[..|ks|] == zs;
      return Pass;
    }

    /**
     * `__str__`: the records as `"<n> <val>"` lines joined by newlines. A
     * non-empty curve with unique keys, whose numbers are written as numerals
     * the line pattern reads back, loads back with `load_str` as its keys and
     * likelihoods in order, with `nll` 0.
     */
    function Str(showKey: real -> string, showVal: real -> string): (r: string)
      reads this
      ensures data != [] && UniqueKeys(data) && Writable(data, showKey, showVal) ==>
                LoadedText(r) == Ok(Reloaded(data))
    {
      TextRoundTripWhen(data, showKey, showVal);
      Join(Lines(data, showKey, showVal), "\n")
    }

    /** `load(f)`: read the lines of a file, each as it is. */
    static method Load(lines: seq<string>) returns (r: Result<Curve>)
      ensures r.Ok? <==> Loaded(lines, Reader(false)).Ok?
      ensures r.Ok? ==> fresh(r.value) && r.value.data == Loaded(lines, Reader(false)).value
      ensures r.Err? ==> r.error == Loaded(lines, Reader(false)).error
    {
      r := LoadLines(lines, false);
    }

    /** `load_str(text)`: read a string, line by line after `split('\\n')`, each line stripped. */
    static method LoadStr(text: string) returns (r: Result<Curve>)
      ensures r.Ok? <==> Loaded(Split(text, "\n"), Reader(true)).Ok?
      ensures r.Ok? ==> fresh(r.value) && r.value.data == Loaded(Split(text, "\n"), Reader(true)).value
      ensures r.Err? ==> r.error == Loaded(Split(text, "\n"), Reader(true)).error
    {
      r := LoadLines(Split(text, "\n"), true);
    }

    static method LoadLines(lines: seq<string>, strip: bool) returns (r: Result<Curve>)
      ensures r.Ok? <==> Loaded(lines, Reader(strip)).Ok?
      ensures r.Ok? ==> fresh(r.value) && r.value.data == Loaded(lines, Reader(strip)).value
      ensures r.Err? ==> r.error == Loaded(lines, Reader(strip)).error
    {
      var l := new Curve();
      ghost var read := Reader(strip);
      for i := 0 to |lines|
        invariant fresh(l) && Loaded(lines[..i], read) == Ok(l.data)
      {
        var line := lines[i];
        var m := ParseLine(if strip then Strip(line) else line);
        assert read(line) == m;
        LoadedStep(lines, i, read, l.data);
        if m.None? {
          LoadedStopsAtError(lines, i + 1, read);
          return Err(ValueError(line));
        }
        var (n, v) := m.value;
        l.Set(n, v, 0.0);
      }
      assert lines[..|lines|] == lines;
      return Ok(l);
    }
  }
}
