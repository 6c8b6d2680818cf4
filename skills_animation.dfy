/** The animations of the skills section: the three summary counters that
    count up to their targets, and the staggered reveal of skill cards. */
module SkillsAnimation {

  function Min(a: int, b: int): int { if a <= b then a else b }
  function Max(a: int, b: int): int { if a >= b then a else b }

  /** Targets of the three summary counters, in percent. */
  const FrontendTarget: nat := 82
  const BackendTarget: nat := 93
  const MobileTarget: nat := 88

  datatype CounterKey = FrontendKey | BackendKey | MobileKey

  /** The `counts` state: one displayed value per counter. */
  datatype SummaryCounts = SummaryCounts(frontend: int, backend: int, mobile: int)

  function Get(c: SummaryCounts, key: CounterKey): int {
    match key
    case FrontendKey => c.frontend
    case BackendKey => c.backend
    case MobileKey => c.mobile
  }

  /** `({ ...current, [key]: v })`: the named counter changes, the others do not. */
  function SetCount(c: SummaryCounts, key: CounterKey, v: int): (r: SummaryCounts)
    ensures Get(r, key) == v
    ensures forall k :: k != key ==> Get(r, k) == Get(c, k)
  {
    match key
    case FrontendKey => c.(frontend := v)
    case BackendKey => c.(backend := v)
    case MobileKey => c.(mobile := v)
  }

  /** `animateCounter(key, target)`: an interval callback increments a local
      `value` and displays `Math.min(value, target)`, until `value >= target`
      clears the interval. Returns the values displayed, one per callback. */
  method AnimateCounter(target: nat) returns (shown: seq<int>)
    ensures |shown| == Max(target, 1)
    ensures forall i :: 0 <= i < |shown| ==> 0 <= shown[i] <= target
    ensures forall i, j :: 0 <= i <= j < |shown| ==> shown[i] <= shown[j]
    ensures shown[|shown| - 1] == target
    ensures forall i :: 0 <= i < |shown| - 1 ==> shown[i] == i + 1
  {
    var value := 0;
    var running := true;
    shown := [];
    while running
      invariant 0 <= value <= Max(target, 1)
      invariant |shown| == value
      invariant running <==> value == 0 || value < target
      invariant forall i :: 0 <= i < |shown| ==> shown[i] == Min(i + 1, target)
      decreases Max(target, 1) - value
    {
      value := value + 1;
      shown := shown + [Min(value, target)];
      if value >= target {
        running := false;
      }
    }
  }

  /** Runs one counter's callbacks into the `counts` state: only that
      counter's displayed value changes, and it ends on its target. */
  method RunCounter(counts: SummaryCounts, key: CounterKey, target: nat) returns (r: SummaryCounts)
    ensures Get(r, key) == target
    ensures forall k :: k != key ==> Get(r, k) == Get(counts, k)
  {
    var shown := AnimateCounter(target);
    r := counts;
    var i := 0;
    while i < |shown|
      invariant 0 <= i <= |shown|
      invariant i > 0 ==> Get(r, key) == shown[i - 1]
      invariant forall k :: k != key ==> Get(r, k) == Get(counts, k)
    {
      r := SetCount(r, key, shown[i]);
      i := i + 1;
    }
  }

  /** The `[summaryStarted]` effect: from the initial `{0, 0, 0}` state the
      three counters each count up, and the summary ends on the three targets. */
  method RunSummary() returns (r: SummaryCounts)
    ensures r == SummaryCounts(FrontendTarget, BackendTarget, MobileTarget)
  {
    r := SummaryCounts(0, 0, 0);
    r := RunCounter(r, FrontendKey, FrontendTarget);
    r := RunCounter(r, BackendKey, BackendTarget);
    r := RunCounter(r, MobileKey, MobileTarget);
    assert Get(r, FrontendKey) == FrontendTarget && Get(r, BackendKey) == BackendTarget;
  }

  /** Reveal delay of the card that is `order`-th to enter the viewport:
      `Math.min(order * 28, 196)`. */
  function RevealDelay(order: nat): (d: nat)
    ensures d <= 196 && d % 28 == 0
    ensures order <= 7 ==> d == order * 28
    ensures order >= 7 ==> d == 196
  {
    Min(order * 28, 196)
  }

  /** Later cards never get a shorter delay. */
  lemma RevealDelayMonotone(a: nat, b: nat)
    requires a <= b
    ensures RevealDelay(a) <= RevealDelay(b)
  {
  }

  /** Number of entries that are intersecting. */
  function CountTrue(bs: seq<bool>): nat {
    if bs == [] then 0 else (if bs[0] then 1 else 0) + CountTrue(bs[1..])
  }

  lemma CountTrueAppend(bs: seq<bool>, b: bool)
    ensures CountTrue(bs + [b]) == CountTrue(bs) + (if b then 1 else 0)
  {
    if bs != [] {
      assert (bs + [b])[1..] == bs[1..] + [b];
      CountTrueAppend(bs[1..], b);
    }
  }

  /** The observer callback of the skills grid and its `revealOrder` counter,
      which lives as long as one run of the effect. */
  class RevealScheduler {
    var revealOrder: nat

    constructor ()
      ensures revealOrder == 0
    {
      revealOrder := 0;
    }

    /** One observer callback: each intersecting entry, in order, takes the
        next reveal order and is scheduled with its delay; the others are skipped. */
    method OnEntries(isIntersecting: seq<bool>) returns (delays: seq<nat>)
      modifies this
      ensures |delays| == CountTrue(isIntersecting)
      ensures revealOrder == old(revealOrder) + |delays|
      ensures forall j :: 0 <= j < |delays| ==> delays[j] == RevealDelay(old(revealOrder) + j)
    {
      delays := [];
      var i := 0;
      while i < |isIntersecting|
        invariant 0 <= i <= |isIntersecting|
        invariant |delays| == CountTrue(isIntersecting[..i])
        invariant revealOrder == old(revealOrder) + |delays|
        invariant forall j :: 0 <= j < |delays| ==> delays[j] == RevealDelay(old(revealOrder) + j)
      {
        assert isIntersecting[..i + 1] == isIntersecting[..i] + [isIntersecting[i]];
        CountTrueAppend(isIntersecting[..i], isIntersecting[i]);
        if isIntersecting[i] {
          var currentOrder := revealOrder;
          revealOrder := revealOrder + 1;
          delays := delays + [RevealDelay(currentOrder)];
        }
        i := i + 1;
      }
      assert isIntersecting[..i] == isIntersecting;
    }
  }
}
