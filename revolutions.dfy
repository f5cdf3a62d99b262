/**
 * The revolution estimator shared by the controller variants: a hysteresis
 * edge detector over proximity readings, and a window of per-bin revolution
 * counts whose newest bin is the last element.
 */
module Revolutions {

  /** What one reading does to the proximity state. */
  datatype Edge = GoneClose | GoneFar | Steady

  /**
   * Reading below `close` while far: gone close.  Reading above `far` while
   * close: gone far.  Anything else, the dead band included, is steady.
   */
  function Detect(value: real, isClose: bool, close: real, far: real): (e: Edge)
    ensures e == GoneClose <==> value < close && !isClose
    ensures e == GoneFar <==> !(value < close && !isClose) && value > far && isClose
  {
    if value < close && !isClose then GoneClose
    else if value > far && isClose then GoneFar
    else Steady
  }

  function NextIsClose(isClose: bool, e: Edge): bool {
    match e
    case GoneClose => true
    case GoneFar => false
    case Steady => isClose
  }

  /** A reading inside the dead band never changes the state. */
  lemma DeadBandIsSteady(value: real, isClose: bool, close: real, far: real)
    requires close <= value <= far
    ensures Detect(value, isClose, close, far) == Steady
    ensures NextIsClose(isClose, Detect(value, isClose, close, far)) == isClose
  {
  }

  function Sum(s: seq<nat>): nat {
    if s == [] then 0 else Sum(s[..|s| - 1]) + s[|s| - 1]
  }

  lemma {:induction false} SumAppend(s: seq<nat>, t: seq<nat>)
    ensures Sum(s + t) == Sum(s) + Sum(t)
    decreases |t|
  {
    if t == [] {
      assert s + t == s;
    } else {
      assert (s + t)[..|s + t| - 1] == s + t[..|t| - 1];
      SumAppend(s, t[..|t| - 1]);
    }
  }

  lemma SumCons(x: nat, s: seq<nat>)
    ensures Sum([x] + s) == x + Sum(s)
  {
    SumAppend([x], s);
    assert [x][..0] == [];
  }

  /** Replacing one element changes the sum by exactly the difference. */
  lemma SumUpdate(s: seq<nat>, i: nat, v: nat)
    requires i < |s|
    ensures Sum(s[i := v]) == Sum(s) - s[i] + v
  {
    assert s[i := v] == s[..i] + [v] + s[i + 1..];
    assert s == s[..i] + [s[i]] + s[i + 1..];
    SumAppend(s[..i] + [v], s[i + 1..]);
    SumAppend(s[..i], [v]);
    SumAppend(s[..i] + [s[i]], s[i + 1..]);
    SumAppend(s[..i], [s[i]]);
    assert Sum([v]) == v && Sum([s[i]]) == s[i];
  }

  /** A window of `n` empty bins. */
  function Zeros(n: nat): (s: seq<nat>)
    ensures |s| == n && Sum(s) == 0
    ensures forall i :: 0 <= i < n ==> s[i] == 0
  {
    if n == 0 then [] else Zeros(n - 1) + [0]
  }

  /** `*back += 1`: the newest bin gains one revolution. */
  function IncrementBack(s: seq<nat>): (r: seq<nat>)
    requires |s| > 0
    ensures |r| == |s| && r[|s| - 1] == s[|s| - 1] + 1
    ensures forall i :: 0 <= i < |s| - 1 ==> r[i] == s[i]
    ensures Sum(r) == Sum(s) + 1
  {
    var r := s[|s| - 1 := s[|s| - 1] + 1];
    assert r[..|r| - 1] == s[..|s| - 1];
    r
  }

  /**
   * `push` on a full ring buffer: the oldest bin is dropped and `v` becomes
   * the newest; the window keeps its length.
   */
  function Rotate(s: seq<nat>, v: nat): (r: seq<nat>)
    requires |s| > 0
    ensures |r| == |s| && r[|r| - 1] == v
    ensures forall i :: 0 <= i < |s| - 1 ==> r[i] == s[i + 1]
    ensures Sum(r) == Sum(s) - s[0] + v
  {
    SumCons(s[0], s[1..]);
    assert [s[0]] + s[1..] == s;
    SumAppend(s[1..], [v]);
    assert [v][..0] == [];
    s[1..] + [v]
  }

  /** The state of the edge detector together with the window it feeds. */
  datatype Counter = Counter(isClose: bool, bins: seq<nat>)

  /** One read phase with a successful reading. */
  function Observe(c: Counter, value: real, close: real, far: real): (r: Counter)
    requires |c.bins| > 0
    ensures |r.bins| == |c.bins|
  {
    var e := Detect(value, c.isClose, close, far);
    Counter(NextIsClose(c.isClose, e), if e == GoneClose then IncrementBack(c.bins) else c.bins)
  }

  /** A sequence of read phases, in order. */
  function ObserveAll(c: Counter, values: seq<real>, close: real, far: real): (r: Counter)
    requires |c.bins| > 0
    ensures |r.bins| == |c.bins|
    decreases |values|
  {
    if values == [] then c
    else ObserveAll(Observe(c, values[0], close, far), values[1..], close, far)
  }

  /** Observing one more reading extends a run of read phases by one step. */
  lemma {:induction false} ObserveAllSnoc(c: Counter, values: seq<real>, value: real, close: real, far: real)
    requires |c.bins| > 0
    ensures ObserveAll(c, values + [value], close, far)
         == Observe(ObserveAll(c, values, close, far), value, close, far)
    decreases |values|
  {
    if values != [] {
      assert (values + [value])[1..] == values[1..] + [value];
      ObserveAllSnoc(Observe(c, values[0], close, far), values[1..], value, close, far);
    }
  }

  /** Only a far-to-close transition touches the window, and only its newest bin. */
  lemma ObserveChangesOnlyNewestBin(c: Counter, value: real, close: real, far: real)
    requires |c.bins| > 0
    ensures var r := Observe(c, value, close, far);
      && r.bins[..|c.bins| - 1] == c.bins[..|c.bins| - 1]
      && (value < close && !c.isClose ==> r.isClose && Sum(r.bins) == Sum(c.bins) + 1)
      && (!(value < close && !c.isClose) ==> r.bins == c.bins)
      && (!(value < close && !c.isClose) && value > far && c.isClose ==> !r.isClose)
  {
  }

  /**
   * While no reading rises above `far`, at most one revolution is counted,
   * and none at all when the detector already starts close.
   */
  lemma {:induction false} CloseDwellCountsOnce(c: Counter, values: seq<real>, close: real, far: real)
    requires |c.bins| > 0
    requires forall i :: 0 <= i < |values| ==> values[i] <= far
    ensures var r := ObserveAll(c, values, close, far);
      && Sum(r.bins) <= Sum(c.bins) + 1
      && (c.isClose ==> r.bins == c.bins && r.isClose)
      && (Sum(r.bins) == Sum(c.bins) + 1 ==> r.isClose)
    decreases |values|
  {
    if values != [] {
      var c' := Observe(c, values[0], close, far);
      CloseDwellCountsOnce(c', values[1..], close, far);
    }
  }

  /** `far, close, close, close, far` counts exactly one revolution. */
  lemma FarCloseFarCountsOne(c: Counter, close: real, far: real, lo: real, hi: real)
    requires |c.bins| > 0 && !c.isClose
    requires lo < close <= far < hi
    ensures var r := ObserveAll(c, [hi, lo, lo, lo, hi], close, far);
      Sum(r.bins) == Sum(c.bins) + 1 && !r.isClose
  {
    var s := [hi, lo, lo, lo, hi];
    var c1 := Observe(c, hi, close, far);
    assert c1 == c;
    var c2 := Observe(c1, lo, close, far);
    assert c2.isClose && Sum(c2.bins) == Sum(c.bins) + 1;
    var c3 := Observe(c2, lo, close, far);
    var c4 := Observe(c3, lo, close, far);
    var c5 := Observe(c4, hi, close, far);
    assert c4 == c2 && c3 == c2;
    assert !c5.isClose && c5.bins == c2.bins;
    assert ObserveAll(c4, [hi], close, far) == ObserveAll(c5, [], close, far) == c5;
    assert ObserveAll(c3, [lo, hi], close, far) == ObserveAll(c4, [hi], close, far);
    assert ObserveAll(c2, [lo, lo, hi], close, far) == ObserveAll(c3, [lo, hi], close, far);
    assert ObserveAll(c1, [lo, lo, lo, hi], close, far) == ObserveAll(c2, [lo, lo, hi], close, far);
    assert ObserveAll(c, s, close, far) == ObserveAll(c1, [lo, lo, lo, hi], close, far);
  }

  /**
   * A constant close reading for `n >= 1` read phases, starting far, counts
   * exactly one revolution in the newest bin.
   */
  lemma {:induction false} ConstantCloseCountsOne(c: Counter, n: nat, value: real, close: real, far: real)
    requires |c.bins| > 0 && !c.isClose && n >= 1
    requires value < close <= far
    ensures var r := ObserveAll(c, seq(n, _ => value), close, far);
      r.isClose && r.bins == IncrementBack(c.bins)
  {
    var vs := seq(n, _ => value);
    var c' := Observe(c, value, close, far);
    assert c' == Counter(true, IncrementBack(c.bins));
    assert vs[1..] == seq(n - 1, _ => value);
    StaysWhenClose(c', n - 1, value, close, far);
  }

  lemma {:induction false} StaysWhenClose(c: Counter, n: nat, value: real, close: real, far: real)
    requires |c.bins| > 0 && c.isClose && value <= far
    ensures ObserveAll(c, seq(n, _ => value), close, far) == c
    decreases n
  {
    if n > 0 {
      var vs := seq(n, _ => value);
      assert vs[1..] == seq(n - 1, _ => value);
      assert Observe(c, value, close, far) == c;
      StaysWhenClose(c, n - 1, value, close, far);
    }
  }
}
