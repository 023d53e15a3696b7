/** Raising CPU limits step by step (operator/pkg/action/scale_up.go). */
module ScaleUp {
  import opened Words
  import opened Cluster
  import Evict = EvictAndTaint

  const CPU := "cpu"

  /** Two's-complement wrap-around. */
  function WrapI64(x: int): I64 {
    (x + 0x8000_0000_0000_0000) % 0x1_0000_0000_0000_0000 - 0x8000_0000_0000_0000
  }

  /** Go's division truncates toward zero. */
  function Percent(x: I64): I64 {
    var n: int := x;
    if n >= 0 then n / 100 else -((-n) / 100)
  }

  function StepMillis(current: I64, percent: I32): I64 {
    var step := Percent(WrapI64(current * percent));
    if step < 10 then 10 else step
  }

  function NewMillis(current: I64, max: I64, percent: I32): I64 {
    var raised := WrapI64(current + StepMillis(current, percent));
    if raised >= max then max else raised
  }

  // ----- The arithmetic

  lemma StepBounds(current: I64, percent: I32)
    ensures 10 <= StepMillis(current, percent) <= 92_233_720_368_547_758
  {
  }

  lemma WrapFits(x: int)
    requires -0x8000_0000_0000_0000 <= x < 0x8000_0000_0000_0000
    ensures WrapI64(x) == x
  {
  }

  /** The sum of a step does not fit an int64. */
  predicate Overflows(current: I64, percent: I32) {
    current + StepMillis(current, percent) >= 0x8000_0000_0000_0000
  }

  /** A step raises the limit without passing the maximum exactly when the sum fits an int64,
      whatever the percentage and even if the product wrapped. */
  lemma RaisesIff(current: I64, max: I64, percent: I32)
    requires current < max
    ensures current < NewMillis(current, max, percent) <= max <==> !Overflows(current, percent)
    ensures Overflows(current, percent) ==> NewMillis(current, max, percent) < 0 < current
  {
    StepBounds(current, percent);
    var sum := current + StepMillis(current, percent);
    if sum < 0x8000_0000_0000_0000 {
      WrapFits(sum);
    } else {
      assert WrapI64(sum) == sum - 0x1_0000_0000_0000_0000;
    }
  }

  /** Four millicores below the top, a step lands at the bottom of the int64 range. */
  lemma RaiseFails()
    ensures var current, max := 0x7fff_ffff_ffff_fffb, 0x7fff_ffff_ffff_ffff;
      current < max && Overflows(current, 20) && NewMillis(current, max, 20) == -0x7fff_ffff_ffff_fffb
  {
    var current := 0x7fff_ffff_ffff_fffb;
    assert WrapI64(current * 20) == -100;
    assert StepMillis(current, 20) == 10;
    assert WrapI64(current + 10) == -0x7fff_ffff_ffff_fffb;
  }

  lemma Raises(current: I64, max: I64, percent: I32)
    requires current < max && !Overflows(current, percent)
    ensures current < NewMillis(current, max, percent) <= max
    ensures current + StepMillis(current, percent) <= NewMillis(current, max, percent) || NewMillis(current, max, percent) == max
  {
    StepBounds(current, percent);
    WrapFits(current + StepMillis(current, percent));
  }

  /** No step on the way from `current` to the maximum overflows. */
  predicate Climbs(current: I64, max: I64, percent: I32)
    decreases if current < max then max - current else 0
  {
    current < max ==>
      && !Overflows(current, percent)
      && (Raises(current, max, percent); Climbs(NewMillis(current, max, percent), max, percent))
  }

  /** No step below this maximum can overflow, whatever the percentage. */
  const SANE_MAX := 0x8000_0000_0000_0000 - 92_233_720_368_547_758

  lemma {:induction false} SaneClimbs(current: I64, max: I64, percent: I32)
    requires max <= SANE_MAX
    ensures Climbs(current, max, percent)
    decreases if current < max then max - current else 0
  {
    if current < max {
      StepBounds(current, percent);
      Raises(current, max, percent);
      SaneClimbs(NewMillis(current, max, percent), max, percent);
    }
  }

  /** Up to 2^32 millicores and for every int32 percentage nothing wraps at all. */
  lemma NothingWraps(current: I64, max: I64, percent: I32)
    requires 0 <= current < max <= TWO_32
    ensures WrapI64(current * percent) == current * percent
    ensures WrapI64(current + StepMillis(current, percent)) == current + StepMillis(current, percent)
  {
    ProductBound(current, percent);
    WrapFits(current * percent);
    StepBounds(current, percent);
    WrapFits(current + StepMillis(current, percent));
  }

  lemma ProductBound(x: int, p: I32)
    requires 0 <= x < TWO_32
    ensures -0x8000_0000_0000_0000 <= x * p < 0x8000_0000_0000_0000
  {
    if p >= 0 {
      MulMono(p, 0x7fff_ffff, x);
    } else {
      var q: int := p;
      MulMono(-q, 0x8000_0000, x);
      assert x * q == -(x * -q);
    }
  }

  /** Neither the product nor the sum of a step wraps. */
  predicate Exact(x: nat, percent: I32) {
    x * percent < 0x8000_0000_0000_0000 && x + ExactStep(x, percent) < 0x8000_0000_0000_0000
  }

  /** The step over unbounded integers. */
  function ExactStep(x: nat, percent: int): int {
    if x * percent / 100 < 10 then 10 else x * percent / 100
  }

  lemma ExactIsStep(x: I64, percent: I32)
    requires x >= 0 && percent > 0 && Exact(x, percent)
    ensures StepMillis(x, percent) == ExactStep(x, percent) && !Overflows(x, percent)
  {
    MulMono(0, percent, x);
    WrapFits(x * percent);
  }

  lemma ExactStepMono(x: nat, y: nat, percent: nat)
    requires x <= y
    ensures x * percent <= y * percent && ExactStep(x, percent) <= ExactStep(y, percent)
  {
    MulMono(x, y, percent);
  }

  /** Nothing wraps below the maximum exactly when nothing wraps just below it. */
  lemma NothingWrapsIff(max: I64, percent: I32)
    requires max > 0 && percent > 0
    ensures (forall x: nat :: x < max ==> Exact(x, percent)) <==> Exact(max - 1, percent)
  {
    if Exact(max - 1, percent) {
      forall x: nat | x < max ensures Exact(x, percent) {
        ExactStepMono(x, max - 1, percent);
      }
    }
  }

  lemma {:induction false} ExactClimbs(current: I64, max: I64, percent: I32)
    requires 0 <= current < max && percent > 0 && Exact(max - 1, percent)
    ensures Climbs(current, max, percent)
    decreases max - current
  {
    NothingWrapsIff(max, percent);
    ExactIsStep(current, percent);
    Raises(current, max, percent);
    var next := NewMillis(current, max, percent);
    if next < max {
      ExactClimbs(next, max, percent);
    }
  }

  /** Up to 2^32 millicores nothing wraps for any positive percentage. */
  lemma SmallIsExact(max: I64, percent: I32)
    requires 0 < max <= TWO_32 && percent > 0
    ensures Exact(max - 1, percent)
  {
    ProductBound(max - 1, percent);
  }

  /** In plain arithmetic: a limit grows by its percentage, by ten millicores at least, up to the maximum. */
  lemma NewLimit(x: I64, max: I64, percent: I32)
    requires 0 <= x < max && -0x8000_0000_0000_0000 <= x * percent && Exact(x, percent)
    ensures var grown := x + (if x * percent / 100 < 10 then 10 else x * percent / 100);
      NewMillis(x, max, percent) == if grown < max then grown else max
  {
    WrapFits(x * percent);
    WrapFits(x + ExactStep(x, percent));
    var p := x * percent;
    assert p < 0 ==> Percent(p) <= 0 && p / 100 < 0;
  }

  /** The number of successful calls that bring a container to the maximum. */
  function Calls(current: I64, max: I64, percent: I32): nat
    requires Climbs(current, max, percent)
    decreases if current < max then max - current else 0
  {
    if current >= max then 0 else
      Raises(current, max, percent);
      1 + Calls(NewMillis(current, max, percent), max, percent)
  }

  lemma OneMore(n: int, s: int)
    ensures n * s == (n - 1) * s + s
  {
  }

  /** If every step from here on gains at least `s`, the maximum is reached within the ceiling of
      the gap over `s`. */
  lemma {:induction false} CallsWithinGap(current: I64, max: I64, percent: I32, s: nat)
    requires current < max && Climbs(current, max, percent)
    requires forall x: I64 :: current <= x < max ==> s <= StepMillis(x, percent)
    ensures (Calls(current, max, percent) - 1) * s < max - current
    decreases max - current
  {
    Raises(current, max, percent);
    var next := NewMillis(current, max, percent);
    assert s <= StepMillis(current, percent);
    if next < max {
      CallsWithinGap(next, max, percent, s);
      OneMore(Calls(next, max, percent), s);
    } else {
      assert Calls(next, max, percent) == 0;
    }
  }

  /** Any percentage, zero and negative included: at most one call per ten millicores of gap. */
  lemma CallsWithinTenths(current: I64, max: I64, percent: I32)
    requires current < max && Climbs(current, max, percent)
    ensures (Calls(current, max, percent) - 1) * 10 < max - current
  {
    forall x: I64 | current <= x < max ensures 10 <= StepMillis(x, percent) {
      StepBounds(x, percent);
    }
    CallsWithinGap(current, max, percent, 10);
  }

  /** A positive percentage, nothing wrapping: at most the ceiling of the gap over the first step. */
  lemma CallsWithinFirstStep(current: I64, max: I64, percent: I32)
    requires 0 <= current < max && percent > 0 && Exact(max - 1, percent)
    ensures Climbs(current, max, percent)
    ensures (Calls(current, max, percent) - 1) * StepMillis(current, percent) < max - current
  {
    ExactClimbs(current, max, percent);
    StepBounds(current, percent);
    NothingWrapsIff(max, percent);
    forall x: I64 | current <= x < max ensures StepMillis(current, percent) <= StepMillis(x, percent) {
      ExactIsStep(current, percent);
      ExactIsStep(x, percent);
      ExactStepMono(current, x, percent);
    }
    CallsWithinGap(current, max, percent, StepMillis(current, percent));
  }

  function Pow2(n: nat): nat {
    if n == 0 then 1 else 2 * Pow2(n - 1)
  }

  /** From 100 percent on, nothing wrapping, limits at least double: n calls mean cur * 2^(n-1) < max. */
  lemma {:induction false} CallsAreLogarithmic(current: I64, max: I64, percent: I32)
    requires 0 <= current < max && percent >= 100 && Exact(max - 1, percent)
    ensures Climbs(current, max, percent)
    ensures current * Pow2(Calls(current, max, percent) - 1) < max
    decreases max - current
  {
    ExactClimbs(current, max, percent);
    Raises(current, max, percent);
    var next := NewMillis(current, max, percent);
    if next < max {
      Doubles(current, max, percent);
      CallsAreLogarithmic(next, max, percent);
      HalveDouble(current, next, Pow2(Calls(next, max, percent) - 1), max);
    } else {
      assert Calls(next, max, percent) == 0;
    }
  }

  lemma HalveDouble(current: nat, next: nat, p: nat, max: int)
    requires 2 * current <= next && next * p < max
    ensures current * (2 * p) < max
  {
    MulMono(2 * current, next, p);
    assert current * (2 * p) == p * (2 * current);
  }

  lemma Doubles(current: I64, max: I64, percent: I32)
    requires 0 <= current < max && percent >= 100 && Exact(max - 1, percent)
    requires NewMillis(current, max, percent) < max
    ensures 2 * current <= NewMillis(current, max, percent)
  {
    NothingWrapsIff(max, percent);
    ExactIsStep(current, percent);
    Raises(current, max, percent);
    MulMono(100, percent, current);
    assert current * percent / 100 >= current;
  }

  // ----- Containers

  /** The limit, or else the request; a container with neither is left alone. */
  function Baseline(c: Container): Option<I64> {
    if CPU in c.limits then Some(c.limits[CPU])
    else if CPU in c.requests then Some(c.requests[CPU])
    else None
  }

  predicate Below(c: Container, max: I64) {
    Baseline(c).Some? && Baseline(c).value < max
  }

  function Scaled(c: Container, max: I64, percent: I32): Container {
    if Below(c, max) then c.(limits := c.limits[CPU := NewMillis(Baseline(c).value, max, percent)]) else c
  }

  predicate AnyBelow(cs: seq<Container>, max: I64) {
    exists i :: 0 <= i < |cs| && Below(cs[i], max)
  }

  function ScaleAll(cs: seq<Container>, max: I64, percent: I32): (r: seq<Container>)
    ensures |r| == |cs|
  {
    seq(|cs|, i requires 0 <= i < |cs| => Scaled(cs[i], max, percent))
  }

  /** The loop rewrites limits in place; both flags say that some container had headroom. */
  method ScaleContainers(cs: array<Container>, max: I64, percent: I32) returns (changed: bool, anyHeadroom: bool)
    modifies cs
    ensures cs[..] == ScaleAll(old(cs[..]), max, percent)
    ensures changed == anyHeadroom == AnyBelow(old(cs[..]), max)
  {
    changed, anyHeadroom := false, false;
    ghost var was := cs[..];
    for i := 0 to cs.Length
      invariant forall j :: 0 <= j < i ==> cs[j] == Scaled(was[j], max, percent)
      invariant forall j :: i <= j < cs.Length ==> cs[j] == was[j]
      invariant changed == anyHeadroom == exists j :: 0 <= j < i && Below(was[j], max)
    {
      var c := cs[i];
      var baseline := Baseline(c);
      if baseline.Some? && baseline.value < max {
        anyHeadroom := true;
        cs[i] := c.(limits := c.limits[CPU := NewMillis(baseline.value, max, percent)]);
        changed := true;
      }
    }
  }

  /** One call on one container, in plain arithmetic: the limit, or else the request, grows by its
      percentage and at least ten millicores, up to the maximum; a container at the maximum or without CPU
      values stays as it is. */
  lemma ScaledContainer(cs: seq<Container>, i: nat, max: I64, percent: I32)
    requires i < |cs|
    ensures var c, d := cs[i], ScaleAll(cs, max, percent)[i];
      && ("cpu" !in c.limits && "cpu" !in c.requests ==> d == c)
      && ("cpu" in c.limits ==> GrowsFrom(c, d, c.limits["cpu"], max, percent))
      && ("cpu" !in c.limits && "cpu" in c.requests ==> GrowsFrom(c, d, c.requests["cpu"], max, percent))
  {
    var c := cs[i];
    if Baseline(c).Some? {
      var x := Baseline(c).value;
      if 0 <= x < max && -0x8000_0000_0000_0000 <= x * percent && Exact(x, percent) {
        NewLimit(x, max, percent);
      }
    }
    hide NewMillis, Exact;
  }

  predicate GrowsFrom(c: Container, d: Container, x: I64, max: I64, percent: I32) {
    && (x >= max ==> d == c)
    && (0 <= x < max && -0x8000_0000_0000_0000 <= x * percent && Exact(x, percent) ==>
          var grown := x + (if x * percent / 100 < 10 then 10 else x * percent / 100);
          d == c.(limits := c.limits["cpu" := if grown < max then grown else max]))
  }

  predicate Covered(c: Container) {
    CPU in c.requests && CPU in c.limits ==> c.requests[CPU] <= c.limits[CPU]
  }

  /** Only the CPU limit may differ; it never drops, a request it covered stays covered, and a
      container without CPU values is untouched. */
  predicate SafeChange(c: Container, d: Container) {
    && d == c.(limits := d.limits) && d.limits - {CPU} == c.limits - {CPU}
    && (CPU in c.limits ==> CPU in d.limits && c.limits[CPU] <= d.limits[CPU])
    && (Covered(c) ==> Covered(d))
    && (Baseline(c).None? ==> d == c)
  }

  /** The next step of the container fits an int64. */
  predicate FitsNext(c: Container, max: I64, percent: I32) {
    Below(c, max) ==> !Overflows(Baseline(c).value, percent)
  }

  /** No step of the container on its way to the maximum overflows. */
  predicate ContainerClimbs(c: Container, max: I64, percent: I32) {
    Baseline(c).Some? ==> Climbs(Baseline(c).value, max, percent)
  }

  lemma ScaledBaseline(c: Container, max: I64, percent: I32)
    ensures Below(c, max) ==> Baseline(Scaled(c, max, percent)) == Some(NewMillis(Baseline(c).value, max, percent))
    ensures !Below(c, max) ==> Scaled(c, max, percent) == c
  {
  }

  lemma ScaledClimbs(c: Container, max: I64, percent: I32)
    requires ContainerClimbs(c, max, percent)
    ensures ContainerClimbs(Scaled(c, max, percent), max, percent) && FitsNext(c, max, percent)
  {
    ScaledBaseline(c, max, percent);
    hide NewMillis, Overflows;
  }

  /** A call changes a container safely if and only if the sum of its step fits an int64. */
  lemma ScaledIsSafe(c: Container, max: I64, percent: I32)
    ensures SafeChange(c, Scaled(c, max, percent)) <==> FitsNext(c, max, percent)
    ensures FitsNext(c, max, percent) && Scaled(c, max, percent) != c ==> Scaled(c, max, percent).limits[CPU] <= max
  {
    if Below(c, max) {
      RaisesIff(Baseline(c).value, max, percent);
      hide NewMillis, Overflows;
      var d := Scaled(c, max, percent);
      assert d.limits - {CPU} == c.limits - {CPU};
    }
  }

  // ----- One container over any number of calls

  function Times(c: Container, n: nat, max: I64, percent: I32): Container {
    if n == 0 then c else Scaled(Times(c, n - 1, max, percent), max, percent)
  }

  lemma SafeCompose(b: Container, c: Container, d: Container)
    requires SafeChange(b, c) && SafeChange(c, d)
    ensures SafeChange(b, d)
  {
  }

  /** As long as its ladder does not overflow, a container changes safely over any number of calls. */
  lemma {:induction false} TimesIsSafe(c: Container, n: nat, max: I64, percent: I32)
    requires ContainerClimbs(c, max, percent)
    ensures SafeChange(c, Times(c, n, max, percent)) && ContainerClimbs(Times(c, n, max, percent), max, percent)
  {
    if n > 0 {
      var d := Times(c, n - 1, max, percent);
      TimesIsSafe(c, n - 1, max, percent);
      ScaledClimbs(d, max, percent);
      ScaledIsSafe(d, max, percent);
      hide SafeChange, ContainerClimbs, Scaled;
      SafeCompose(c, d, Times(c, n, max, percent));
    }
  }

  lemma {:induction false} TimesShift(c: Container, n: nat, max: I64, percent: I32)
    ensures Times(c, n + 1, max, percent) == Times(Scaled(c, max, percent), n, max, percent)
  {
    if n > 0 {
      TimesShift(c, n - 1, max, percent);
    }
  }

  /** A ladder that overflows ends in a negative limit. */
  lemma {:induction false} DropsBelowZero(c: Container, max: I64, percent: I32) returns (n: nat)
    requires !ContainerClimbs(c, max, percent)
    ensures var d := Times(c, n, max, percent); CPU in d.limits && d.limits[CPU] < 0
    decreases max - Baseline(c).value
  {
    var current := Baseline(c).value;
    var d := Scaled(c, max, percent);
    if Overflows(current, percent) {
      RaisesIff(current, max, percent);
      assert Times(c, 0, max, percent) == c;
      n := 1;
    } else {
      Raises(current, max, percent);
      ScaledBaseline(c, max, percent);
      var m := DropsBelowZero(d, max, percent);
      TimesShift(c, m, max, percent);
      n := m + 1;
    }
  }

  /** Every run of calls changes the container safely if and only if no step of its ladder overflows. */
  lemma AlwaysSafeIff(c: Container, max: I64, percent: I32)
    requires Baseline(c).Some? ==> Baseline(c).value >= 0
    ensures (forall n: nat :: SafeChange(c, Times(c, n, max, percent))) <==> ContainerClimbs(c, max, percent)
  {
    if ContainerClimbs(c, max, percent) {
      forall n: nat ensures SafeChange(c, Times(c, n, max, percent)) {
        TimesIsSafe(c, n, max, percent);
      }
    } else {
      var n := DropsBelowZero(c, max, percent);
      assert !SafeChange(c, Times(c, n, max, percent));
    }
  }

  // ----- Whole runs of successful calls

  /** No step of any container on its way to the maximum overflows. */
  ghost predicate AllClimb(cs: seq<Container>, max: I64, percent: I32) {
    forall i :: 0 <= i < |cs| ==> ContainerClimbs(cs[i], max, percent)
  }

  lemma FrontClimbs(cs: seq<Container>, max: I64, percent: I32)
    requires cs != [] && AllClimb(cs, max, percent)
    ensures AllClimb(Front(cs), max, percent) && ContainerClimbs(Last(cs), max, percent)
  {
    var h := Front(cs);
    assert forall i :: 0 <= i < |h| ==> h[i] == cs[i];
  }

  lemma ScaleAllClimbs(cs: seq<Container>, max: I64, percent: I32)
    requires AllClimb(cs, max, percent)
    ensures AllClimb(ScaleAll(cs, max, percent), max, percent)
  {
    forall i | 0 <= i < |cs| ensures ContainerClimbs(ScaleAll(cs, max, percent)[i], max, percent) {
      ScaledClimbs(cs[i], max, percent);
    }
  }

  function Needed(c: Container, max: I64, percent: I32): nat
    requires ContainerClimbs(c, max, percent)
  {
    if Baseline(c).Some? then Calls(Baseline(c).value, max, percent) else 0
  }

  lemma NeededStep(c: Container, max: I64, percent: I32)
    requires ContainerClimbs(c, max, percent)
    ensures ContainerClimbs(Scaled(c, max, percent), max, percent)
    ensures Below(c, max) <==> Needed(c, max, percent) > 0
    ensures Below(c, max) ==> Needed(Scaled(c, max, percent), max, percent) == Needed(c, max, percent) - 1
    ensures !Below(c, max) ==> Scaled(c, max, percent) == c
  {
    ScaledClimbs(c, max, percent);
    ScaledBaseline(c, max, percent);
    hide NewMillis, Overflows;
  }

  /** The largest number of calls any container needs. */
  ghost function AllNeeded(cs: seq<Container>, max: I64, percent: I32): nat
    requires AllClimb(cs, max, percent)
  {
    if cs == [] then 0 else
      FrontClimbs(cs, max, percent);
      var rest, last := AllNeeded(Front(cs), max, percent), Needed(Last(cs), max, percent);
      if rest < last then last else rest
  }

  lemma {:induction false} AllNeededStep(cs: seq<Container>, max: I64, percent: I32)
    requires AllClimb(cs, max, percent)
    ensures AllClimb(ScaleAll(cs, max, percent), max, percent)
    ensures AnyBelow(cs, max) <==> AllNeeded(cs, max, percent) > 0
    ensures AllNeeded(ScaleAll(cs, max, percent), max, percent)
         == if AnyBelow(cs, max) then AllNeeded(cs, max, percent) - 1 else 0
  {
    ScaleAllClimbs(cs, max, percent);
    if cs != [] {
      var h, c := Front(cs), Last(cs);
      FrontClimbs(cs, max, percent);
      AllNeededStep(h, max, percent);
      NeededStep(c, max, percent);
      assert Front(ScaleAll(cs, max, percent)) == ScaleAll(h, max, percent);
      assert Last(ScaleAll(cs, max, percent)) == Scaled(c, max, percent);
      AnyBelowSplits(cs, max);
      hide Scaled, Below, ContainerClimbs, Needed;
    }
  }

  lemma AnyBelowSplits(cs: seq<Container>, max: I64)
    requires cs != []
    ensures AnyBelow(cs, max) <==> AnyBelow(Front(cs), max) || Below(Last(cs), max)
  {
    var h := Front(cs);
    assert Last(cs) == cs[|cs| - 1];
    assert forall i :: 0 <= i < |h| ==> h[i] == cs[i];
  }

  /** The containers after `n` successful calls. */
  function After(cs: seq<Container>, n: nat, max: I64, percent: I32): (r: seq<Container>)
    ensures |r| == |cs|
  {
    if n == 0 then cs else ScaleAll(After(cs, n - 1, max, percent), max, percent)
  }

  lemma {:induction false} NeededAfter(cs: seq<Container>, n: nat, max: I64, percent: I32)
    requires AllClimb(cs, max, percent)
    ensures AllClimb(After(cs, n, max, percent), max, percent)
    ensures var k := AllNeeded(cs, max, percent);
      AllNeeded(After(cs, n, max, percent), max, percent) == if n < k then k - n else 0
  {
    if n > 0 {
      NeededAfter(cs, n - 1, max, percent);
      AllNeededStep(After(cs, n - 1, max, percent), max, percent);
    }
  }

  /** The fallback is reached after exactly as many calls as the slowest container needs, and at no
      earlier call: until then some CPU-bearing container is below the maximum. */
  lemma FallbackExactlyWhenDone(cs: seq<Container>, n: nat, max: I64, percent: I32)
    requires AllClimb(cs, max, percent)
    ensures AnyBelow(After(cs, n, max, percent), max) <==> n < AllNeeded(cs, max, percent)
  {
    NeededAfter(cs, n, max, percent);
    AllNeededStep(After(cs, n, max, percent), max, percent);
  }

  /** No container needs more calls than its gap allows. */
  lemma {:induction false} FallbackWithinGap(cs: seq<Container>, max: I64, percent: I32, gap: nat)
    requires AllClimb(cs, max, percent)
    requires forall i :: 0 <= i < |cs| && Below(cs[i], max) ==> max - Baseline(cs[i]).value <= gap
    ensures AnyBelow(cs, max) ==> (AllNeeded(cs, max, percent) - 1) * 10 < gap
  {
    if cs != [] {
      var h, c := Front(cs), Last(cs);
      FrontClimbs(cs, max, percent);
      assert c == cs[|cs| - 1] && forall i :: 0 <= i < |h| ==> h[i] == cs[i];
      FallbackWithinGap(h, max, percent, gap);
      AnyBelowSplits(cs, max);
      AllNeededStep(h, max, percent);
      if Below(c, max) {
        CallsWithinTenths(Baseline(c).value, max, percent);
      }
    }
  }

  lemma {:induction false} AfterIsTimes(cs: seq<Container>, n: nat, max: I64, percent: I32, i: nat)
    requires i < |cs|
    ensures After(cs, n, max, percent)[i] == Times(cs[i], n, max, percent)
  {
    if n > 0 {
      AfterIsTimes(cs, n - 1, max, percent, i);
    }
  }

  /** Over a run of any length, every container whose ladder does not overflow changes safely. */
  lemma RunIsSafe(cs: seq<Container>, n: nat, max: I64, percent: I32, i: nat)
    requires i < |cs| && ContainerClimbs(cs[i], max, percent)
    ensures SafeChange(cs[i], After(cs, n, max, percent)[i])
  {
    AfterIsTimes(cs, n, max, percent, i);
    TimesIsSafe(cs[i], n, max, percent);
  }

  // ----- Headroom

  function Gap(c: Container, max: I64): nat {
    if Below(c, max) then max - Baseline(c).value else 0
  }

  function Headroom(cs: seq<Container>, max: I64): nat {
    if cs == [] then 0 else Headroom(Front(cs), max) + Gap(Last(cs), max)
  }

  /** A container's own headroom drops exactly when its step fits an int64. */
  lemma GapDropsIff(c: Container, max: I64, percent: I32)
    ensures Below(c, max) ==> (Gap(Scaled(c, max, percent), max) < Gap(c, max) <==> FitsNext(c, max, percent))
    ensures !Below(c, max) ==> Gap(Scaled(c, max, percent), max) == 0
  {
    ScaledBaseline(c, max, percent);
    if Below(c, max) {
      RaisesIff(Baseline(c).value, max, percent);
    }
    hide NewMillis, Overflows;
  }

  /** Every successful call whose steps fit strictly lowers the pod's total headroom. */
  lemma {:induction false} HeadroomDrops(cs: seq<Container>, max: I64, percent: I32)
    requires forall i :: 0 <= i < |cs| ==> FitsNext(cs[i], max, percent)
    ensures Headroom(ScaleAll(cs, max, percent), max) <= Headroom(cs, max)
    ensures AnyBelow(cs, max) ==> Headroom(ScaleAll(cs, max, percent), max) < Headroom(cs, max)
  {
    if cs != [] {
      var h, c := Front(cs), Last(cs);
      assert c == cs[|cs| - 1] && forall i :: 0 <= i < |h| ==> h[i] == cs[i];
      HeadroomDrops(h, max, percent);
      AnyBelowSplits(cs, max);
      assert Front(ScaleAll(cs, max, percent)) == ScaleAll(h, max, percent);
      assert Last(ScaleAll(cs, max, percent)) == Scaled(c, max, percent);
      GapDropsIff(c, max, percent);
      hide Scaled, Below, FitsNext, Gap;
    }
  }

  // ----- The action

  /** `max` is None when the configured limit does not parse. */
  datatype Action = Action(percent: I32, max: Option<I64>, fallback: Option<Evict.Action>)

  datatype Outcome =
    | GetFailed | BadLimit | ResizeFailed | Resized | NoFallback | NoChanges
    | FellBack(result: Evict.Outcome)

  function Resize(p: Pod, max: I64, percent: I32): Pod {
    p.(containers := ScaleAll(p.containers, max, percent))
  }

  /** A pod with headroom is resized and nothing else; the fallback runs only when no CPU-bearing
      container is below the maximum; the exit without a change is unreachable. */
  method Execute(store: Store, a: Action, pod: string, now: int, reliable: bool) returns (o: Outcome)
    modifies store`pods, store`nodes, store`evicted
    ensures o != NoChanges
    ensures o.GetFailed? || o.BadLimit? || o.ResizeFailed? || o.NoFallback? ==>
      store.pods == old(store.pods) && store.nodes == old(store.nodes) && store.evicted == old(store.evicted)
    ensures o.Resized? ==>
      && a.max.Some? && pod in old(store.pods) && AnyBelow(old(store.pods)[pod].containers, a.max.value)
      && store.pods == old(store.pods)[pod := Resize(old(store.pods)[pod], a.max.value, a.percent)]
      && store.nodes == old(store.nodes) && store.evicted == old(store.evicted)
    ensures o.NoFallback? ==> a.fallback.None?
    ensures reliable && pod in old(store.pods) && a.max.Some? ==>
      if AnyBelow(old(store.pods)[pod].containers, a.max.value) then o.Resized?
      else if a.fallback.Some? then o.FellBack? else o.NoFallback?
    ensures o.FellBack? ==>
      && a.max.Some? && a.fallback.Some? && pod in old(store.pods) && store.pods == old(store.pods)
      && !AnyBelow(store.pods[pod].containers, a.max.value)
      && (o.result.Evicted? || o.result.EvictFailed? ==> store.pods[pod].nodeName in old(store.nodes))
      && store.nodes == Evict.NodesAfter(old(store.nodes), store.pods, a.fallback.value, pod, now, o.result)
      && store.evicted == if o.result.Evicted? then old(store.evicted) + {pod} else old(store.evicted)
  {
    var ok: bool := *;
    if !(ok || reliable) || pod !in store.pods {
      return GetFailed;
    }
    if a.max.None? {
      return BadLimit;
    }
    var p := store.pods[pod];
    var cs := new Container[|p.containers|](i requires 0 <= i < |p.containers| => p.containers[i]);
    assert cs[..] == p.containers;
    var changed, anyHeadroom := ScaleContainers(cs, a.max.value, a.percent);
    if changed {
      ok := *;
      if !(ok || reliable) {
        return ResizeFailed;
      }
      store.pods := store.pods[pod := p.(containers := cs[..])];
      return Resized;
    }
    if !anyHeadroom {
      if a.fallback.None? {
        return NoFallback;
      }
      var r := Evict.Execute(store, a.fallback.value, pod, now, reliable);
      return FellBack(r);
    }
    return NoChanges;
  }
}
