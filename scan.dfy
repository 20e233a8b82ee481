/**
 * The profile-likelihood scan `likelihood()`: fix the scanned parameter, fit
 * at every point of `drange(0, max, step)`, turn each minimised NLL into a
 * likelihood relative to the fit at zero, restore the parameter, flag
 * implausible points (local NLL extrema reached by an abnormally large jump),
 * and replace flagged or requested points by linear interpolation between
 * their neighbours.
 */
module ProfileScan {
  import opened Outcomes
  import opened Likelihood
  import opened Roo

  /**
   * What the scan consults outside itself: the minimised NLL of a fit at a
   * given parameter value, the NLL of the fit repeated after the initialiser
   * has run, `math.exp` (`None` standing for `OverflowError`), and whether an
   * initialiser was given.
   */
  datatype Fitter = Fitter(fit: real -> real, refit: real -> real, exp: real -> Option<real>, canInit: bool)

  /** The `interpolation` argument: absent (or empty), a single number, or chunks of scan values. */
  datatype Interpolation = NoChunks | Point(x: real) | Chunks(chunks: seq<seq<real>>)

  /** How the scan loop ends: with its records, or at the first fitted point that has no baseline NLL. */
  datatype SweepEnd = Swept(items: seq<Item>) | NoBaseline(at: real)

  // ----- the scan loop -----

  /**
   * The record for a fitted point `i` given the baseline `nll0`: the relative
   * likelihood `exp(nll0 - nll)`; on overflow `(0, 0)`, unless an initialiser
   * exists, in which case the fit is repeated once and its result used, with
   * `(0, 0)` again if that overflows too.
   */
  function Sample(i: real, f: Fitter, nll0: real): Item
  {
    var nll := f.fit(i);
    match f.exp(nll0 - nll)
    case Some(v) => Item(i, v, nll)
    case None =>
      if !f.canInit then Item(i, 0.0, 0.0)
      else
        var nll2 := f.refit(i);
        match f.exp(nll0 - nll2)
        case Some(v) => Item(i, v, nll2)
        case None => Item(i, 0.0, 0.0)
  }

  /** Records `prefix` ahead of a sweep's own records. */
  function Then(prefix: seq<Item>, s: SweepEnd): SweepEnd
  {
    match s
    case Swept(items) => Swept(prefix + items)
    case NoBaseline(at) => NoBaseline(at)
  }

  /**
   * The loop over the scan values `ks`: an ignored value gets `(0, 0)` without
   * a fit; the fit at value 0 sets the baseline; a fitted value before any
   * baseline stops the loop (`nll0 - nll` with `nll0 = None`).
   */
  function Sweep(ks: seq<real>, ignore: seq<real>, f: Fitter, base: Option<real>): SweepEnd
    decreases |ks|
  {
    if ks == [] then Swept([])
    else
      var i := ks[0];
      if i in ignore then Then([Item(i, 0.0, 0.0)], Sweep(ks[1..], ignore, f, base))
      else
        var b := if i == 0.0 then Some(f.fit(i)) else base;
        match b
        case None => NoBaseline(i)
        case Some(nll0) => Then([Sample(i, f, nll0)], Sweep(ks[1..], ignore, f, b))
  }

  lemma {:induction false} ThenThen(a: seq<Item>, b: seq<Item>, s: SweepEnd)
    ensures Then(a, Then(b, s)) == Then(a + b, s)
  {
    match s
    case Swept(items) => assert a + (b + items) == (a + b) + items;
    case NoBaseline(_) =>
  }

  /** A completed sweep has one record per scan value, in scan order. */
  lemma {:induction false} SweepKeys(ks: seq<real>, ignore: seq<real>, f: Fitter, base: Option<real>)
    requires Sweep(ks, ignore, f, base).Swept?
    ensures var items := Sweep(ks, ignore, f, base).items;
      |items| == |ks| && forall k :: 0 <= k < |ks| ==> items[k].n == ks[k]
    decreases |ks|
  {
    if ks != [] {
      var i := ks[0];
      var b := if i in ignore || i != 0.0 then base else Some(f.fit(i));
      SweepKeys(ks[1..], ignore, f, b);
    }
  }

  /** Every ignored scan value holds `(0, 0)`. */
  lemma {:induction false} SweepIgnored(ks: seq<real>, ignore: seq<real>, f: Fitter, base: Option<real>, k: nat)
    requires Sweep(ks, ignore, f, base).Swept? && k < |ks| && ks[k] in ignore
    ensures k < |Sweep(ks, ignore, f, base).items|
    ensures Sweep(ks, ignore, f, base).items[k] == Item(ks[k], 0.0, 0.0)
    decreases |ks|
  {
    SweepKeys(ks, ignore, f, base);
    if k > 0 {
      var i := ks[0];
      var b := if i in ignore || i != 0.0 then base else Some(f.fit(i));
      SweepIgnored(ks[1..], ignore, f, b, k - 1);
    }
  }

  /** Every record holds a likelihood from `exp` or the `(0, 0)` fallback: with non-negative `exp`, likelihoods are non-negative. */
  lemma {:induction false} SweepNonNegative(ks: seq<real>, ignore: seq<real>, f: Fitter, base: Option<real>)
    requires Sweep(ks, ignore, f, base).Swept?
    requires forall x :: f.exp(x).Some? ==> f.exp(x).value >= 0.0
    ensures NonNegative(Sweep(ks, ignore, f, base).items)
    decreases |ks|
  {
    if ks != [] {
      var i := ks[0];
      var b := if i in ignore || i != 0.0 then base else Some(f.fit(i));
      SweepNonNegative(ks[1..], ignore, f, b);
      if i !in ignore {
        var nll0 := b.value;
        assert f.exp(nll0 - f.fit(i)).Some? ==> f.exp(nll0 - f.fit(i)).value >= 0.0;
        assert f.exp(nll0 - f.refit(i)).Some? ==> f.exp(nll0 - f.refit(i)).value >= 0.0;
      }
    }
  }

  /** The point at 0 is its own baseline: when `exp(0) = 1` its likelihood is exactly 1. */
  lemma {:induction false} BaselineIsOne(ks: seq<real>, ignore: seq<real>, f: Fitter)
    requires ks != [] && ks[0] == 0.0 && 0.0 !in ignore && f.exp(0.0) == Some(1.0)
    requires Sweep(ks, ignore, f, None).Swept?
    ensures Sweep(ks, ignore, f, None).items[0] == Item(0.0, 1.0, f.fit(0.0))
  {
    assert f.fit(0.0) - f.fit(0.0) == 0.0;
  }

  /**
   * A scan that starts at 0 and does not skip 0 always has its baseline: the
   * loop runs to the end.
   */
  lemma {:induction false} BaselineFound(ks: seq<real>, ignore: seq<real>, f: Fitter, base: Option<real>)
    requires base.Some? || (ks != [] && ks[0] == 0.0 && 0.0 !in ignore)
    ensures Sweep(ks, ignore, f, base).Swept?
    decreases |ks|
  {
    if ks != [] {
      var i := ks[0];
      var b := if i in ignore || i != 0.0 then base else Some(f.fit(i));
      BaselineFound(ks[1..], ignore, f, b);
    }
  }

  /**
   * Skipping 0 leaves the baseline unset: the loop stops at the first value
   * that is neither ignored nor 0, and completes only when there is none.
   */
  lemma {:induction false} BaselineMissing(ks: seq<real>, ignore: seq<real>, f: Fitter, k: nat)
    requires k < |ks| && ks[k] !in ignore && ks[k] != 0.0
    requires forall j :: 0 <= j < k ==> ks[j] in ignore
    ensures Sweep(ks, ignore, f, None) == NoBaseline(ks[k])
    decreases k
  {
    if k > 0 {
      BaselineMissing(ks[1..], ignore, f, k - 1);
    }
  }

  /** A point whose fit and refit both overflow is recorded as `(0, 0)`. */
  lemma {:induction false} OverflowFallback(i: real, f: Fitter, nll0: real)
    requires f.exp(nll0 - f.fit(i)).None?
    requires f.canInit ==> f.exp(nll0 - f.refit(i)).None?
    ensures Sample(i, f, nll0) == Item(i, 0.0, 0.0)
  {
  }

  /** A fit that does not overflow is recorded with its own NLL; the initialiser is not used. */
  lemma {:induction false} NoOverflow(i: real, f: Fitter, nll0: real)
    requires f.exp(nll0 - f.fit(i)).Some?
    ensures Sample(i, f, nll0) == Item(i, f.exp(nll0 - f.fit(i)).value, f.fit(i))
  {
  }

  /** The records of a flat profile: likelihood 1 and the same NLL `c` at every scan value. */
  function Flat(ks: seq<real>, c: real): (r: seq<Item>)
    ensures |r| == |ks| && forall k :: 0 <= k < |ks| ==> r[k] == Item(ks[k], 1.0, c)
  {
    seq(|ks|, k requires 0 <= k < |ks| => Item(ks[k], 1.0, c))
  }

  /**
   * A fit that gives the same NLL `c` everywhere, with `exp(0) = 1`, makes
   * every point as likely as the baseline: once the baseline is known (or is
   * about to be set at 0), every record is `(k, 1, c)`.
   */
  lemma {:induction false} ConstantFitSweep(ks: seq<real>, ignore: seq<real>, f: Fitter, c: real, base: Option<real>)
    requires forall x :: f.fit(x) == c
    requires f.exp(0.0) == Some(1.0)
    requires forall k :: 0 <= k < |ks| ==> ks[k] !in ignore
    requires base == Some(c) || ks == [] || ks[0] == 0.0
    ensures Sweep(ks, ignore, f, base) == Swept(Flat(ks, c))
    decreases |ks|
  {
    if ks != [] {
      var i := ks[0];
      var b := if i == 0.0 then Some(f.fit(i)) else base;
      assert b == Some(c);
      assert c - f.fit(i) == 0.0;
      assert Sample(i, f, c) == Item(i, 1.0, c);
      ConstantFitSweep(ks[1..], ignore, f, c, b);
      assert Flat(ks, c) == [Item(i, 1.0, c)] + Flat(ks[1..], c);
    }
  }

  /** Records with one NLL throughout have no local extremum, so nothing is flagged. */
  lemma {:induction false} FlatNotFlagged(d: seq<Item>, c: real, j: nat)
    requires j >= 2 && forall k :: 0 <= k < |d| ==> d[k].nll == c
    ensures FlaggedFrom(d, j) == []
    decreases |d| - j
  {
    if j + 1 < |d| {
      assert !IsOutlier(d, j);
      FlatNotFlagged(d, c, j + 1);
    }
  }

  /**
   * The reference normalisation of the scan: a constant fit, with `exp(0) = 1`
   * and no ignored values, gives every scan value the likelihood 1 with NLL
   * `c`; no point is flagged, and without requested chunks the scan returns
   * that flat curve (one or two points still raise `TypeError` in the window
   * unpacking).
   */
  lemma {:induction false} ConstantFitScan(f: Fitter, c: real, step: real, max: real)
    requires step > 0.0 || max <= 0.0
    requires forall x :: f.fit(x) == c
    requires f.exp(0.0) == Some(1.0)
    ensures var ks := DRange(0.0, max, step);
      && Sweep(ks, [], f, None) == Swept(Flat(ks, c))
      && (|ks| != 1 && |ks| != 2 ==> Outliers(Flat(ks, c)) == Ok([]))
      && (|ks| != 1 && |ks| != 2 ==> Scanned(f, step, max, [], NoChunks) == Ok(Flat(ks, c)))
  {
    var ks := DRange(0.0, max, step);
    ConstantFitSweep(ks, [], f, c, None);
    var d := Flat(ks, c);
    if |ks| >= 3 {
      FlatNotFlagged(d, c, 2);
    }
    if |ks| != 1 && |ks| != 2 {
      assert Outliers(d) == Ok([]);
      assert ChunksOf(NoChunks) + Singletons([]) == [];
    }
  }

  // ----- outlier detection -----

  function Abs(x: real): real { if x < 0.0 then -x else x }

  /**
   * Record `j` looks like a failed fit: its NLL is a strict local maximum or
   * minimum among its neighbours, and the jump into it from `j - 1` is more
   * than twice the jump from `j - 2` into `j - 1`.
   */
  predicate IsOutlier(d: seq<Item>, j: nat)
    requires 2 <= j && j + 1 < |d|
  {
    var a, b, c := d[j - 1].nll, d[j].nll, d[j + 1].nll;
    ((a < b && b > c) || (a > b && b < c)) && Abs(b - a) > 2.0 * Abs(d[j - 2].nll - a)
  }

  /** The keys of the outliers among records `j`, `j + 1`, ..., in order. */
  function FlaggedFrom(d: seq<Item>, j: nat): seq<real>
    requires j >= 2
    decreases |d| - j
  {
    if j + 1 >= |d| then []
    else if IsOutlier(d, j) then [d[j].n] + FlaggedFrom(d, j + 1)
    else FlaggedFrom(d, j + 1)
  }

  /**
   * The detection over sliding windows of three: no windows for an empty
   * curve; one or two records give a single window padded with `None`, whose
   * unpacking raises `TypeError`.
   */
  function Outliers(d: seq<Item>): Result<seq<real>>
  {
    if |d| == 0 then Ok([])
    else if |d| < 3 then Err(TypeError)
    else Ok(FlaggedFrom(d, 2))
  }

  /** A key is flagged exactly when its record is an outlier, and flags come in curve order. */
  lemma {:induction false} FlaggedExactly(d: seq<Item>, j: nat)
    requires j >= 2
    ensures forall x :: x in FlaggedFrom(d, j) <==> exists k :: j <= k && k + 1 < |d| && IsOutlier(d, k) && d[k].n == x
    ensures |FlaggedFrom(d, j)| <= if j + 1 < |d| then |d| - 1 - j else 0
    decreases |d| - j
  {
    if j + 1 < |d| {
      FlaggedExactly(d, j + 1);
      forall x | (exists k :: j <= k && k + 1 < |d| && IsOutlier(d, k) && d[k].n == x) ensures x in FlaggedFrom(d, j) {
        var k :| j <= k && k + 1 < |d| && IsOutlier(d, k) && d[k].n == x;
        if k > j {
          assert x in FlaggedFrom(d, j + 1);
        }
      }
    }
  }

  /** The first two records and the last are never flagged. */
  lemma {:induction false} EndsNeverFlagged(d: seq<Item>)
    requires |d| >= 3 && UniqueKeys(d)
    ensures Outliers(d).Ok?
    ensures d[0].n !in Outliers(d).value && d[1].n !in Outliers(d).value && d[|d| - 1].n !in Outliers(d).value
  {
    FlaggedExactly(d, 2);
  }

  /** The windowed detection loop of `likelihood()`. */
  method DetectOutliers(d: seq<Item>) returns (r: Result<seq<real>>)
    ensures r == Outliers(d)
  {
    if |d| == 0 {
      return Ok([]);
    }
    if |d| < 3 {
      return Err(TypeError);
    }
    var found: seq<real> := [];
    var i := 0;
    while i < |d| - 2
      invariant 0 <= i <= |d| - 2
      invariant found + FlaggedFrom(d, if i < 2 then 2 else i + 1) == FlaggedFrom(d, 2)
    {
      var a, b, c := d[i].nll, d[i + 1].nll, d[i + 2].nll;
      if ((a < b && b > c) || (a > b && b < c)) && i >= 1 && Abs(b - a) > 2.0 * Abs(d[i - 1].nll - a) {
        found := found + [d[i + 1].n];
      }
      i := i + 1;
    }
    assert FlaggedFrom(d, if i < 2 then 2 else i + 1) == [];
    assert found + [] == found;
    return Ok(found);
  }

  // ----- repair by interpolation -----

  /** `interpolation` as the scan normalises it: a number becomes one chunk of one value. */
  function ChunksOf(interp: Interpolation): seq<seq<real>>
  {
    match interp
    case NoChunks => []
    case Point(x) => [[x]]
    case Chunks(cs) => cs
  }

  /** Each flagged key becomes a chunk of its own. */
  function Singletons(xs: seq<real>): (r: seq<seq<real>>)
    ensures |r| == |xs| && forall k :: 0 <= k < |xs| ==> r[k] == [xs[k]]
  {
    seq(|xs|, k requires 0 <= k < |xs| => [xs[k]])
  }

  /** The value at the `t`-th point of a chunk: `t + 1` slopes past the anchor. */
  function Ramp(anchor: real, p: real, t: nat): real
  {
    anchor + p * (t + 1) as real
  }

  /** The records written over a chunk: point `t` gets `begin + p (t + 1)` for both the likelihood and the NLL. */
  function Fill(chunk: seq<real>, begin: real, nllBegin: real, p: real): (r: seq<Item>)
    ensures |r| == |chunk|
    ensures forall t :: 0 <= t < |chunk| ==> r[t] == Item(chunk[t], Ramp(begin, p, t), Ramp(nllBegin, p, t))
  {
    seq(|chunk|, t requires 0 <= t < |chunk| => Item(chunk[t], Ramp(begin, p, t), Ramp(nllBegin, p, t)))
  }

  /** The slope of a chunk: the anchor-to-anchor difference in likelihood over `len(chunk) + 1`. */
  function Slope(begin: real, end: real, len: nat): real
  {
    (end - begin) / (len + 1) as real
  }

  /**
   * One chunk: anchors at `chunk[0] - step` and `chunk[-1] + step` must both be
   * on the curve (`IndexError` otherwise, as also for an empty chunk); the
   * chunk's values are then set along the straight line in likelihood between
   * the anchors, and the NLL is set from the left anchor's NLL with that same
   * slope.
   */
  function RepairChunk(d: seq<Item>, chunk: seq<real>, step: real): Result<seq<Item>>
  {
    if chunk == [] then Err(IndexError)
    else
      match Lookup(d, chunk[0] - step)
      case Err(e) => Err(e)
      case Ok((begin, nllBegin)) =>
        match Lookup(d, chunk[|chunk| - 1] + step)
        case Err(e) => Err(e)
        case Ok((end, _)) =>
          Ok(UpsertAll(d, Fill(chunk, begin, nllBegin, Slope(begin, end, |chunk|))))
  }

  /** A chunk fails to repair, with `IndexError`, exactly when it is empty or an anchor is missing. */
  lemma {:induction false} RepairChunkFails(d: seq<Item>, chunk: seq<real>, step: real)
    ensures var r := RepairChunk(d, chunk, step);
      && (r.Err? <==> chunk == [] || Absent(d, chunk[0] - step) || Absent(d, chunk[|chunk| - 1] + step))
      && (r.Err? ==> r.error == IndexError)
  {
  }

  /** The chunks repaired one after another, each seeing the curve the previous ones left. */
  function RepairAll(d: seq<Item>, chunks: seq<seq<real>>, step: real): Result<seq<Item>>
    decreases |chunks|
  {
    if chunks == [] then Ok(d)
    else
      match RepairChunk(d, chunks[0], step)
      case Err(e) => Err(e)
      case Ok(d1) => RepairAll(d1, chunks[1..], step)
  }

  /** The interpolating line ends at the right anchor: one more slope past the chunk reaches it. */
  lemma {:induction false} SlopeReachesEnd(begin: real, end: real, len: nat)
    ensures Ramp(begin, Slope(begin, end, len), len) == end
  {
  }

  /** Distinct values within a chunk. */
  ghost predicate Distinct(chunk: seq<real>)
  {
    forall i, j :: 0 <= i < j < |chunk| ==> chunk[i] != chunk[j]
  }

  /**
   * After repairing a chunk of distinct values on a curve with unique keys,
   * the `t`-th value reads back `(begin + p (t + 1), nllBegin + p (t + 1))`
   * with `p` the likelihood slope between the anchors, and every record
   * outside the chunk is left as it was.
   */
  lemma {:induction false} RepairChunkValues(d: seq<Item>, chunk: seq<real>, step: real,
                                             begin: real, nllBegin: real, end: real, nllEnd: real)
    requires UniqueKeys(d) && Distinct(chunk) && chunk != []
    requires Lookup(d, chunk[0] - step) == Ok((begin, nllBegin))
    requires Lookup(d, chunk[|chunk| - 1] + step) == Ok((end, nllEnd))
    ensures RepairChunk(d, chunk, step).Ok?
    ensures var r := RepairChunk(d, chunk, step).value; var p := Slope(begin, end, |chunk|);
      && UniqueKeys(r)
      && (forall t :: 0 <= t < |chunk| ==> Lookup(r, chunk[t]) == Ok((Ramp(begin, p, t), Ramp(nllBegin, p, t))))
      && (forall k :: 0 <= k < |d| && d[k].n !in chunk ==> k < |r| && r[k] == d[k])
  {
    var p := Slope(begin, end, |chunk|);
    var items := Fill(chunk, begin, nllBegin, p);
    var r := UpsertAll(d, items);
    assert RepairChunk(d, chunk, step) == Ok(r);
    assert UniqueKeys(items) by {
      forall i, j | 0 <= i < j < |items| ensures items[i].n != items[j].n {
        assert items[i].n == chunk[i] && items[j].n == chunk[j];
      }
    }
    UpsertAllLookup(d, items);
    forall t | 0 <= t < |chunk|
      ensures Lookup(r, chunk[t]) == Ok((Ramp(begin, p, t), Ramp(nllBegin, p, t)))
    {
      assert items[t] == Item(chunk[t], Ramp(begin, p, t), Ramp(nllBegin, p, t));
    }
    forall k | 0 <= k < |d| && d[k].n !in chunk ensures k < |r| && r[k] == d[k] {
      assert Absent(items, d[k].n) by {
        forall t | 0 <= t < |items| ensures items[t].n != d[k].n {
          assert items[t].n == chunk[t];
        }
      }
    }
  }

  // ----- the whole scan -----

  /**
   * What `likelihood()` returns: the swept records, with every requested chunk
   * and then every flagged point repaired; `TypeError` when the loop had no
   * baseline or the curve has one or two records; `IndexError` when a chunk
   * lacks an anchor.
   */
  function Scanned(f: Fitter, step: real, max: real, ignore: seq<real>, interp: Interpolation): Result<seq<Item>>
    requires step > 0.0 || max <= 0.0
  {
    match Sweep(DRange(0.0, max, step), ignore, f, None)
    case NoBaseline(_) => Err(TypeError)
    case Swept(items) =>
      match Outliers(items)
      case Err(e) => Err(e)
      case Ok(xs) => RepairAll(items, ChunksOf(interp) + Singletons(xs), step)
  }

  /** The curve the scan builds before any repair has unique keys, in `drange` order. */
  lemma {:induction false} SweptUnique(f: Fitter, step: real, max: real, ignore: seq<real>)
    requires step > 0.0
    requires Sweep(DRange(0.0, max, step), ignore, f, None).Swept?
    ensures Ascending(Sweep(DRange(0.0, max, step), ignore, f, None).items)
  {
    DRangeAscending(0.0, max, step);
    SweepKeys(DRange(0.0, max, step), ignore, f, None);
  }

  /** Repair one chunk on the curve: look up both anchors, then set each value of the chunk. */
  method RepairOne(l: Curve, chunk: seq<real>, step: real) returns (r: Outcome)
    modifies l
    ensures r.Pass? <==> RepairChunk(old(l.data), chunk, step).Ok?
    ensures r.Pass? ==> l.data == RepairChunk(old(l.data), chunk, step).value
    ensures r.Fail? ==> r.error == RepairChunk(old(l.data), chunk, step).error
  {
    if chunk == [] {
      return Fail(IndexError);
    }
    var left := l.Get(chunk[0] - step);
    if left.Err? {
      assert RepairChunk(old(l.data), chunk, step) == Err(left.error);
      return Fail(left.error);
    }
    var right := l.Get(chunk[|chunk| - 1] + step);
    if right.Err? {
      assert RepairChunk(old(l.data), chunk, step) == Err(right.error);
      return Fail(right.error);
    }
    var (begin, nllBegin) := left.value;
    var (end, _) := right.value;
    var p := Slope(begin, end, |chunk|);
    assert RepairChunk(l.data, chunk, step) == Ok(UpsertAll(l.data, Fill(chunk, begin, nllBegin, p)));
    FillChunk(l, chunk, begin, nllBegin, p);
    return Pass;
  }

  /** The inner loop of the repair: set the `t`-th value of the chunk to `begin + p (t + 1)`. */
  method FillChunk(l: Curve, chunk: seq<real>, begin: real, nllBegin: real, p: real)
    modifies l
    ensures l.data == UpsertAll(old(l.data), Fill(chunk, begin, nllBegin, p))
  {
    var items := Fill(chunk, begin, nllBegin, p);
    ghost var d0 := l.data;
    for t := 0 to |chunk|
      invariant l.data == UpsertAll(d0, items[..t])
    {
      UpsertAllStep(d0, items, t);
      l.Set(chunk[t], Ramp(begin, p, t), Ramp(nllBegin, p, t));
    }
    assert items[..|chunk|] == items;
  }

  /** Repair the chunks in order on the curve, as the last loop of `likelihood()` does. */
  method Repair(l: Curve, chunks: seq<seq<real>>, step: real) returns (r: Outcome)
    modifies l
    ensures r.Pass? <==> RepairAll(old(l.data), chunks, step).Ok?
    ensures r.Pass? ==> l.data == RepairAll(old(l.data), chunks, step).value
    ensures r.Fail? ==> r.error == RepairAll(old(l.data), chunks, step).error
  {
    for c := 0 to |chunks|
      invariant RepairAll(old(l.data), chunks, step) == RepairAll(l.data, chunks[c..], step)
    {
      assert chunks[c..][1..] == chunks[c + 1..];
      var res := RepairOne(l, chunks[c], step);
      if res.Fail? {
        return res;
      }
    }
    return Pass;
  }

  /** Fit one point and record it on the curve, refitting once after an overflow when an initialiser exists. */
  method FitPoint(l: Curve, f: Fitter, i: real, nll0: real, nll: real)
    requires Absent(l.data, i) && nll == f.fit(i)
    modifies l
    ensures l.data == old(l.data) + [Sample(i, f, nll0)]
  {
    ghost var d := l.data;
    var e := f.exp(nll0 - nll);
    if e.Some? {
      l.Set(i, e.value, nll);
    } else {
      l.Set(i, 0.0, 0.0);
      if f.canInit {
        var nll2 := f.refit(i);
        var e2 := f.exp(nll0 - nll2);
        var retried := if e2.Some? then Item(i, e2.value, nll2) else Item(i, 0.0, 0.0);
        l.Set(i, retried.val, retried.nll);
        SetTwice(d, i, 0.0, 0.0, retried.val, retried.nll);
      }
    }
    UpsertFresh(d, Sample(i, f, nll0));
  }

  /** The loop step at an ignored value. */
  lemma {:induction false} SweepSkips(ks: seq<real>, idx: nat, ignore: seq<real>, f: Fitter, base: Option<real>)
    requires idx < |ks| && ks[idx] in ignore
    ensures Sweep(ks[idx..], ignore, f, base) == Then([Item(ks[idx], 0.0, 0.0)], Sweep(ks[idx + 1..], ignore, f, base))
  {
    assert ks[idx..][1..] == ks[idx + 1..];
  }

  /** The loop step at a fitted value, with the baseline it leaves for the next one. */
  lemma {:induction false} SweepFits(ks: seq<real>, idx: nat, ignore: seq<real>, f: Fitter, base: Option<real>, b: Option<real>)
    requires idx < |ks| && ks[idx] !in ignore
    requires b == if ks[idx] == 0.0 then Some(f.fit(ks[idx])) else base
    ensures b.None? ==> Sweep(ks[idx..], ignore, f, base) == NoBaseline(ks[idx])
    ensures b.Some? ==> Sweep(ks[idx..], ignore, f, base) == Then([Sample(ks[idx], f, b.value)], Sweep(ks[idx + 1..], ignore, f, b))
  {
    assert ks[idx..][1..] == ks[idx + 1..];
  }

  /** The scan loop, on the parameter and a fresh curve. */
  method SweepPoints(param: RooVar, f: Fitter, ks: seq<real>, ignore: seq<real>) returns (l: Curve, ok: bool)
    requires forall i, j :: 0 <= i < j < |ks| ==> ks[i] < ks[j]
    requires param.constant
    modifies param
    ensures fresh(l) && param.constant
    ensures ok <==> Sweep(ks, ignore, f, None).Swept?
    ensures ok ==> l.data == Sweep(ks, ignore, f, None).items
    ensures !ok ==> param.value == Sweep(ks, ignore, f, None).at
  {
    l := new Curve();
    var nll0: Option<real> := None;
    for idx := 0 to |ks|
      invariant fresh(l) && param.constant
      invariant |l.data| == idx && forall k :: 0 <= k < idx ==> l.data[k].n == ks[k]
      invariant Sweep(ks, ignore, f, None) == Then(l.data, Sweep(ks[idx..], ignore, f, nll0))
    {
      var i := ks[idx];
      assert Absent(l.data, i) by {
        forall k | 0 <= k < |l.data| ensures l.data[k].n != i {
          assert l.data[k].n == ks[k] < ks[idx];
        }
      }
      ghost var d := l.data;
      if i in ignore {
        l.Set(i, 0.0, 0.0);
        UpsertFresh(d, Item(i, 0.0, 0.0));
        SweepSkips(ks, idx, ignore, f, nll0);
        ThenThen(d, [Item(i, 0.0, 0.0)], Sweep(ks[idx + 1..], ignore, f, nll0));
      } else {
        param.value := i;
        var nll := f.fit(i);
        ghost var base := nll0;
        if i == 0.0 {
          nll0 := Some(nll);
        }
        SweepFits(ks, idx, ignore, f, base, nll0);
        if nll0.None? {
          return l, false;
        }
        FitPoint(l, f, i, nll0.value, nll);
        ThenThen(d, [Sample(i, f, nll0.value)], Sweep(ks[idx + 1..], ignore, f, nll0));
      }
    }
    assert l.data + [] == l.data;
    return l, true;
  }

  /**
   * `likelihood()`: the parameter is made constant for the scan; on a completed
   * scan it is made free again and its value restored, then the detection and
   * repair run on the curve. A scan that stops for want of a baseline leaves
   * the parameter constant at the value where it stopped.
   */
  method Scan(param: RooVar, f: Fitter, step: real, max: real, ignore: seq<real>, interp: Interpolation)
    returns (r: Result<Curve>)
    requires step > 0.0 || max <= 0.0
    modifies param
    ensures r.Ok? <==> Scanned(f, step, max, ignore, interp).Ok?
    ensures r.Ok? ==> fresh(r.value) && r.value.data == Scanned(f, step, max, ignore, interp).value
    ensures r.Err? ==> r.error == Scanned(f, step, max, ignore, interp).error
    ensures Sweep(DRange(0.0, max, step), ignore, f, None).Swept? ==> param.value == old(param.value) && !param.constant
    ensures Sweep(DRange(0.0, max, step), ignore, f, None).NoBaseline? ==>
      param.constant && param.value == Sweep(DRange(0.0, max, step), ignore, f, None).at
  {
    var tmp := param.value;
    param.constant := true;
    var ks := DRange(0.0, max, step);
    if step > 0.0 {
      DRangeAscending(0.0, max, step);
    } else {
      assert ks == [];
    }
    assert StrictlyAscending(ks);
    var l, ok := SweepPoints(param, f, ks, ignore);
    if !ok {
      return Err(TypeError);
    }
    param.constant := false;
    param.value := tmp;
    var flagged := DetectOutliers(l.data);
    if flagged.Err? {
      return Err(flagged.error);
    }
    var chunks := ChunksOf(interp) + Singletons(flagged.value);
    var res := Repair(l, chunks, step);
    if res.Fail? {
      return Err(res.error);
    }
    return Ok(l);
  }

  /**
   * The shape of a repair: a curve whose NLLs run 10, 10, 1, 9, 9 over the
   * keys 0..4 has its middle point flagged, and with step 1 the repair writes
   * (9.5, 9.5) there: the likelihood halfway between the anchors' 10 and 9,
   * and the NLL from the left anchor's 10 with the likelihood's slope.
   */
  lemma {:induction false} RepairExample()
    ensures var d := ExampleCurve();
      && Outliers(d) == Ok([2.0])
      && RepairAll(d, Singletons([2.0]), 1.0) == Ok(d[2 := Item(2.0, 9.5, 9.5)])
  {
    ExampleFlagged();
    ExampleRepaired();
  }

  /** The curve of the example: NLLs (and likelihoods) 10, 10, 1, 9, 9 over the keys 0..4. */
  function ExampleCurve(): seq<Item>
  {
    [Item(0.0, 10.0, 10.0), Item(1.0, 10.0, 10.0), Item(2.0, 1.0, 1.0), Item(3.0, 9.0, 9.0), Item(4.0, 9.0, 9.0)]
  }

  /** Only the dip at key 2 is flagged in the example. */
  lemma {:induction false} ExampleFlagged()
    ensures Outliers(ExampleCurve()) == Ok([2.0])
  {
    var d := ExampleCurve();
    assert IsOutlier(d, 2);
    assert !IsOutlier(d, 3);
    assert FlaggedFrom(d, 4) == [];
    assert FlaggedFrom(d, 2) == [2.0];
  }

  /** Repairing key 2 of the example with step 1 writes (9.5, 9.5) in its slot. */
  lemma {:induction false} ExampleRepaired()
    ensures var d := ExampleCurve(); RepairAll(d, Singletons([2.0]), 1.0) == Ok(d[2 := Item(2.0, 9.5, 9.5)])
  {
    var d := ExampleCurve();
    var d1 := d[2 := Item(2.0, 9.5, 9.5)];
    var cs := Singletons([2.0]);
    assert cs == [[2.0]];
    ExampleChunk();
    assert cs[1..] == [];
    assert RepairAll(d1, [], 1.0) == Ok(d1);
  }

  /** The chunk `[2]` of the example: anchors at keys 1 and 3, slope -0.5. */
  lemma {:induction false} ExampleChunk()
    ensures var d := ExampleCurve(); RepairChunk(d, [2.0], 1.0) == Ok(d[2 := Item(2.0, 9.5, 9.5)])
  {
    var d := ExampleCurve();
    IndexOfFirst(d, 1.0, 1);
    IndexOfFirst(d, 3.0, 3);
    assert Lookup(d, 1.0) == Ok((10.0, 10.0));
    assert Lookup(d, 3.0) == Ok((9.0, 9.0));
    var fill := Fill([2.0], 10.0, 10.0, Slope(10.0, 9.0, 1));
    assert fill == [Item(2.0, 9.5, 9.5)];
    ExampleFill(d);
  }

  /** Upserting the filled point into the example replaces key 2 in place. */
  lemma {:induction false} ExampleFill(d: seq<Item>)
    requires d == ExampleCurve()
    ensures UpsertAll(d, [Item(2.0, 9.5, 9.5)]) == d[2 := Item(2.0, 9.5, 9.5)]
  {
    IndexOfFirst(d, 2.0, 2);
    assert [Item(2.0, 9.5, 9.5)][..0] == [];
  }
}
