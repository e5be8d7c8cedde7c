/** The host side of the GPU bitonic sort: the stage / step schedule of
    settings written before each sort dispatch, and the work-group counts of
    the sort and offset dispatches. The compare-exchange and offset shaders
    run on the device and are not part of this model. */
module GPUSort {

  /** 2^k; also `1 << k` for the shift amounts the schedule uses. */
  function Pow2(k: nat): (p: nat)
    ensures p >= 1
  {
    if k == 0 then 1 else 2 * Pow2(k - 1)
  }

  ghost predicate IsPow2(p: nat)
  {
    exists k: nat :: Pow2(k) == p
  }

  /** The fewest doublings of 1 that reach `n`. */
  function CeilLog2(n: nat): (c: nat)
    requires n >= 1
    decreases n
  {
    if n == 1 then 0 else 1 + CeilLog2((n + 1) / 2)
  }

  /** 2^CeilLog2(n) is the least power of two at or above `n`. */
  lemma {:induction false} CeilLog2Bounds(n: nat)
    requires n >= 1
    ensures Pow2(CeilLog2(n)) >= n
    ensures CeilLog2(n) == 0 || Pow2(CeilLog2(n) - 1) < n
    decreases n
  {
    if n > 1 {
      var m := (n + 1) / 2;
      CeilLog2Bounds(m);
      assert Pow2(CeilLog2(n)) == 2 * Pow2(CeilLog2(m));
    }
  }

  /** Mathf.NearestPo2 for the non-negative counts it is called with here:
      the next power of two at or above `n`, and 0 for 0. Godot's version
      overflows above 2^30. */
  function NearestPo2(n: nat): (p: nat)
    requires n <= 0x4000_0000
    ensures n == 0 ==> p == 0
    ensures n >= 1 ==> IsPow2(p) && n <= p && p < 2 * n
  {
    if n == 0 then 0
    else
      CeilLog2Bounds(n);
      Pow2(CeilLog2(n))
  }

  /** `(int)MathF.Log(NearestPo2(n), 2)` taken exactly: the number of bitonic
      stages. An empty table has none. */
  function NumStages(n: nat): (s: nat)
    requires n <= 0x4000_0000
    ensures n >= 1 ==> Pow2(s) == NearestPo2(n)
    ensures n <= 1 ==> s == 0
  {
    if n == 0 then 0 else CeilLog2(n)
  }

  /** The settings struct written to the settings buffer before each sort
      dispatch. */
  datatype SortSettings = SortSettings(numEntries: nat, groupWidth: nat, groupHeight: nat, stepIndex: nat)

  /** The settings of stage `stage`, one per step: the group width halves from
      2^stage down to 1. */
  function StageSettings(numEntries: nat, stage: nat): (ss: seq<SortSettings>)
    ensures |ss| == stage + 1
    ensures forall step :: 0 <= step <= stage ==>
      ss[step].groupWidth == Pow2(stage - step) && ss[step].stepIndex == step
    ensures forall step :: 0 <= step <= stage ==>
      ss[step].groupHeight == 2 * ss[step].groupWidth - 1 && ss[step].numEntries == numEntries
  {
    seq(stage + 1, step requires 0 <= step <= stage =>
      SortSettings(numEntries, Pow2(stage - step), 2 * Pow2(stage - step) - 1, step))
  }

  /** The whole schedule of `numStages` stages, in dispatch order. */
  function Schedule(numEntries: nat, numStages: nat): seq<SortSettings>
  {
    if numStages == 0 then []
    else Schedule(numEntries, numStages - 1) + StageSettings(numEntries, numStages - 1)
  }

  /** `0 + 1 + ... + k`: the number of steps in the first `k` stages. */
  function Triangle(k: nat): nat
  {
    k * (k + 1) / 2
  }

  /** Stage `s` runs `s + 1` steps, so `s` stages run `s(s+1)/2` of them. */
  lemma {:induction false} ScheduleLength(numEntries: nat, numStages: nat)
    ensures |Schedule(numEntries, numStages)| == Triangle(numStages)
  {
    if numStages > 0 {
      ScheduleLength(numEntries, numStages - 1);
      var k := numStages - 1;
      assert Triangle(numStages) == Triangle(k) + k + 1 by {
        assert numStages * (numStages + 1) == k * (k + 1) + 2 * (k + 1);
      }
    }
  }

  /** Step `step` of stage `stage` is dispatch number `Triangle(stage) + step`,
      with group width `2^(stage - step)`. */
  lemma {:induction false} ScheduleAt(numEntries: nat, numStages: nat, stage: nat, step: nat)
    requires step <= stage < numStages
    ensures Triangle(stage) + step < |Schedule(numEntries, numStages)|
    ensures Schedule(numEntries, numStages)[Triangle(stage) + step] ==
      SortSettings(numEntries, Pow2(stage - step), 2 * Pow2(stage - step) - 1, step)
  {
    ScheduleLength(numEntries, numStages - 1);
    ScheduleLength(numEntries, numStages);
    if stage < numStages - 1 {
      ScheduleAt(numEntries, numStages - 1, stage, step);
      TriangleMonotone(stage + 1, numStages - 1);
    } else {
      assert Schedule(numEntries, numStages)[Triangle(stage) + step] == StageSettings(numEntries, stage)[step];
    }
  }

  lemma {:induction false} TriangleMonotone(a: nat, b: nat)
    requires a <= b
    ensures Triangle(a) <= Triangle(b)
  {
    if a < b {
      TriangleMonotone(a, b - 1);
      assert b * (b + 1) == (b - 1) * b + 2 * b;
    }
  }

  ghost predicate WellFormed(s: SortSettings, numEntries: nat, numStages: nat)
  {
    s.numEntries == numEntries && IsPow2(s.groupWidth) && s.groupHeight == 2 * s.groupWidth - 1 &&
    s.groupHeight % 2 == 1 && s.stepIndex < numStages
  }

  /** Every dispatch carries the unchanged entry count, a power-of-two group
      width, an odd group height `2 * width - 1` and a step index below the
      number of stages. */
  lemma {:induction false} ScheduleWellFormed(numEntries: nat, numStages: nat)
    ensures forall i :: 0 <= i < |Schedule(numEntries, numStages)| ==>
      WellFormed(Schedule(numEntries, numStages)[i], numEntries, numStages)
  {
    if numStages > 0 {
      ScheduleWellFormed(numEntries, numStages - 1);
      var prev := Schedule(numEntries, numStages - 1);
      var last := StageSettings(numEntries, numStages - 1);
      StageWellFormed(numEntries, numStages - 1);
      forall i | 0 <= i < |prev + last|
        ensures WellFormed((prev + last)[i], numEntries, numStages)
      {
        if i < |prev| {
          assert (prev + last)[i] == prev[i];
        } else {
          assert (prev + last)[i] == last[i - |prev|];
        }
      }
    }
  }

  /** The settings of stage `stage` are well formed for any schedule with more
      than `stage` stages. */
  lemma StageWellFormed(numEntries: nat, stage: nat)
    ensures forall step :: 0 <= step <= stage ==>
      WellFormed(StageSettings(numEntries, stage)[step], numEntries, stage + 1)
  {
    var last := StageSettings(numEntries, stage);
    forall step | 0 <= step <= stage
      ensures WellFormed(last[step], numEntries, stage + 1)
    {
      assert Pow2(stage - step) == last[step].groupWidth;
    }
  }

  /** The work-group count of a sort dispatch: the padded table size over
      256, at least 1. */
  function SortXGroups(numEntries: nat): (g: nat)
    requires numEntries <= 0x4000_0000
    ensures g >= 1
  {
    var xGroups := NearestPo2(numEntries) / 256;
    if xGroups == 0 then 1 else xGroups
  }

  /** Groups of 256 span the padded table, exactly once it holds 256 entries
      or more. */
  lemma SortXGroupsCover(numEntries: nat)
    requires numEntries <= 0x4000_0000
    ensures SortXGroups(numEntries) * 256 >= NearestPo2(numEntries)
    ensures NearestPo2(numEntries) >= 256 ==> SortXGroups(numEntries) * 256 == NearestPo2(numEntries)
  {
    var p := NearestPo2(numEntries);
    if p >= 256 {
      var k: nat :| Pow2(k) == p;
      Pow2Multiple(k);
    }
  }

  /** A power of two of at least 256 is a multiple of 256. */
  lemma Pow2Multiple(k: nat)
    requires Pow2(k) >= 256
    ensures Pow2(k) / 256 * 256 == Pow2(k)
  {
    Pow2Small(k);
    Pow2Add(k - 8, 8);
    assert Pow2(8) == 256;
    assert Pow2(k) == Pow2(k - 8) * 256;
  }

  /** Below 2^8 = 256 only for exponents below 8. */
  lemma Pow2Small(k: nat)
    ensures k < 8 ==> Pow2(k) < 256
  {
    if k < 8 {
      Pow2Monotone(k, 7);
    }
  }

  lemma {:induction false} Pow2Add(a: nat, b: nat)
    ensures Pow2(a + b) == Pow2(a) * Pow2(b)
  {
    if a > 0 {
      Pow2Add(a - 1, b);
    }
  }

  lemma {:induction false} Pow2Monotone(a: nat, b: nat)
    requires a <= b
    ensures Pow2(a) <= Pow2(b)
  {
    if a < b {
      Pow2Monotone(a, b - 1);
    }
  }

  /** The work-group count of the offset dispatch: the entry count over 128,
      at least 1. */
  function OffsetsXGroups(numEntries: nat): (g: nat)
    ensures g >= 1
    ensures numEntries >= 128 ==> g * 128 <= numEntries < (g + 1) * 128
    ensures numEntries < 256 ==> g == 1
  {
    var xGroups := numEntries / 128;
    if xGroups == 0 then 1 else xGroups
  }

  /** The dispatches of a schedule grow by one pass per appended setting. */
  lemma SortPassesAppend(schedule: seq<SortSettings>, next: SortSettings, xGroups: nat)
    ensures SortPasses(schedule + [next], xGroups) == SortPasses(schedule, xGroups) + [SortPass(next, xGroups)]
  {
    assert (schedule + [next])[..|schedule|] == schedule;
  }

  /** The schedule the loop nest has issued when it is at step `step` of
      stage `stage`: all earlier stages and the first `step` steps of this
      one. */
  function Done(numEntries: nat, stage: nat, step: nat): (done: seq<SortSettings>)
    requires step <= stage + 1
    ensures |done| == |Schedule(numEntries, stage)| + step
  {
    Schedule(numEntries, stage) + StageSettings(numEntries, stage)[..step]
  }

  /** No step of stage `stage` done: the schedule of the earlier stages. */
  lemma StageStart(numEntries: nat, stage: nat)
    ensures Done(numEntries, stage, 0) == Schedule(numEntries, stage)
  {
    assert StageSettings(numEntries, stage)[..0] == [];
  }

  /** Once all `stage + 1` steps of stage `stage` are done, the schedule of
      `stage + 1` stages is done. */
  lemma NextStage(numEntries: nat, stage: nat)
    ensures Done(numEntries, stage, stage + 1) == Schedule(numEntries, stage + 1)
  {
    assert StageSettings(numEntries, stage)[..stage + 1] == StageSettings(numEntries, stage);
  }

  /** Step `step` of stage `stage` extends the schedule done so far by the
      settings the loop body computes. */
  lemma NextStep(numEntries: nat, stage: nat, step: nat)
    requires step <= stage
    ensures Done(numEntries, stage, step) +
      [SortSettings(numEntries, Pow2(stage - step), 2 * Pow2(stage - step) - 1, step)] ==
      Done(numEntries, stage, step + 1)
  {
    var ss := StageSettings(numEntries, stage);
    assert ss[..step + 1] == ss[..step] + [ss[step]];
  }

  /** One step of the loop nest: appending the pass of step `step` of stage
      `stage` to the dispatches of the schedule so far gives the dispatches of
      the schedule one step further. */
  lemma DispatchStep(before: seq<Dispatch>, dispatches: seq<Dispatch>, numEntries: nat, stage: nat, step: nat,
                     xGroups: nat)
    requires step <= stage
    requires dispatches == before + SortPasses(Done(numEntries, stage, step), xGroups)
    ensures dispatches + [SortPass(SortSettings(numEntries, Pow2(stage - step), 2 * Pow2(stage - step) - 1, step), xGroups)] ==
      before + SortPasses(Done(numEntries, stage, step + 1), xGroups)
  {
    var done := Done(numEntries, stage, step);
    var settings := SortSettings(numEntries, Pow2(stage - step), 2 * Pow2(stage - step) - 1, step);
    NextStep(numEntries, stage, step);
    SortPassesAppend(done, settings, xGroups);
    assert (before + SortPasses(done, xGroups)) + [SortPass(settings, xGroups)] ==
      before + (SortPasses(done, xGroups) + [SortPass(settings, xGroups)]);
  }

  /** One compute dispatch as the host issues it. */
  datatype Dispatch =
    | SortPass(settings: SortSettings, xGroups: nat)
    | OffsetsPass(xGroups: nat)

  /** The sort dispatches of a schedule, each with the same group count. */
  function SortPasses(schedule: seq<SortSettings>, xGroups: nat): (ds: seq<Dispatch>)
    ensures |ds| == |schedule|
  {
    if schedule == [] then []
    else SortPasses(schedule[..|schedule| - 1], xGroups) + [SortPass(schedule[|schedule| - 1], xGroups)]
  }

  /** Dispatch `i` of a schedule's passes runs setting `i` with the common
      group count. */
  lemma {:induction false} SortPassesAt(schedule: seq<SortSettings>, xGroups: nat, i: nat)
    requires i < |schedule|
    ensures SortPasses(schedule, xGroups)[i] == SortPass(schedule[i], xGroups)
  {
    var init := schedule[..|schedule| - 1];
    if i < |init| {
      SortPassesAt(init, xGroups, i);
      assert init[i] == schedule[i];
    }
  }

  class GPUSort {
    var numEntries: nat
    /** The contents of the settings buffer. */
    var settingsBuffer: SortSettings
    /** Every dispatch issued so far, in order. */
    var dispatches: seq<Dispatch>

    constructor ()
      ensures numEntries == 0 && dispatches == []
    {
      numEntries := 0;
      settingsBuffer := SortSettings(0, 0, 0, 0);
      dispatches := [];
    }

    /** SetBuffers: records the entry count (the buffer bindings are not part
        of this model). */
    method SetBuffers(numEntries: nat)
      modifies this`numEntries
      ensures this.numEntries == numEntries
    {
      this.numEntries := numEntries;
    }

    /** Sort: the stage / step loop, writing the settings and dispatching
        the sort shader once per step. */
    method Sort()
      requires numEntries <= 0x4000_0000
      modifies this`settingsBuffer, this`dispatches
      ensures dispatches == old(dispatches) +
        SortPasses(Schedule(numEntries, NumStages(numEntries)), SortXGroups(numEntries))
    {
      var n := numEntries;
      var xGroups := NearestPo2(n) / 256;
      if xGroups == 0 {
        xGroups := 1;
      }
      var numStages := NumStages(n);
      ghost var before := dispatches;
      var stageIndex := 0;
      while stageIndex < numStages
        invariant 0 <= stageIndex <= numStages
        invariant dispatches == before + SortPasses(Schedule(n, stageIndex), xGroups)
      {
        RunStage(n, stageIndex, xGroups, before);
        stageIndex := stageIndex + 1;
      }
    }

    /** The inner loop of Sort: the `stage + 1` steps of stage `stage`, the
        group width halving from 2^stage down to 1. */
    method RunStage(n: nat, stageIndex: nat, xGroups: nat, ghost before: seq<Dispatch>)
      requires dispatches == before + SortPasses(Schedule(n, stageIndex), xGroups)
      modifies this`settingsBuffer, this`dispatches
      ensures dispatches == before + SortPasses(Schedule(n, stageIndex + 1), xGroups)
    {
      StageStart(n, stageIndex);
      var stepIndex := 0;
      while stepIndex < stageIndex + 1
        invariant 0 <= stepIndex <= stageIndex + 1
        invariant dispatches == before + SortPasses(Done(n, stageIndex, stepIndex), xGroups)
      {
        var groupWidth := Pow2(stageIndex - stepIndex);
        var groupHeight := 2 * groupWidth - 1;
        var settings := SortSettings(n, groupWidth, groupHeight, stepIndex);
        settingsBuffer := settings;
        DispatchStep(before, dispatches, n, stageIndex, stepIndex, xGroups);
        dispatches := dispatches + [SortPass(settings, xGroups)];
        stepIndex := stepIndex + 1;
      }
      NextStage(n, stageIndex);
    }

    /** CalculateOffsets: one dispatch of the offset shader. */
    method CalculateOffsets()
      modifies this`dispatches
      ensures dispatches == old(dispatches) + [OffsetsPass(OffsetsXGroups(numEntries))]
    {
      var xGroups := numEntries / 128;
      if xGroups == 0 {
        xGroups := 1;
      }
      dispatches := dispatches + [OffsetsPass(xGroups)];
    }
  }
}
