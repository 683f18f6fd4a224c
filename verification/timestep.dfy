/** Selection of a level's physical time interval from the enabled criteria. */
module TimeStep {
  import opened Results

  /** How data dumps are scheduled: by a constant interval, from a table of
      dump times, or any other mode (such as by step count). */
  datatype OutputMode = OutputConstDt | OutputUseTable | OutputOther(code: int)

  /** Compile-time switches and run-time options the selection reads. */
  datatype Options = Options(
    comoving: bool,
    particle: bool,
    outputTotal: bool,
    outputPart: bool,
    outputUser: bool,
    outputBasePS: bool,
    outputParText: bool,
    outputMode: OutputMode,
    dtUser: bool,
    userCallback: bool,
    flexibleLevels: bool,
    flexibleRange: real,
    maxDeltaA: real)

  /** The level being advanced and the criterion values computed elsewhere:
      `dTimeDt` is the comoving d(Time)/dt, `solverDt` the fluid solver's dt,
      and `userDt` what the user criterion returns. */
  datatype LevelState = LevelState(
    lv: nat,
    nPatchTotal: nat,
    time: real,
    dumpTime: real,
    endTime: real,
    dTimeDt: real,
    solverDt: real,
    userDt: real)

  datatype Failure =
    | DumpTimePassed(dTime4: real)
    | EndTimePassed(dTime5: real)
    | BadSyncInterval(dTimeSyncFaLv: real)
    | BadTimeStep(dt: real, dTime: real)

  /** `NoPatches` stands for the huge sentinel value returned for an empty level. */
  datatype Outcome = NoPatches | TimeStep(dTime: real) | Abort(failure: Failure)

  /** d(Time)/dt: one without comoving coordinates. */
  function DTimeDt(o: Options, st: LevelState): real {
    if o.comoving then st.dTimeDt else 1.0
  }

  /** Whether the next data dump is scheduled by physical time. */
  predicate DumpByTime(o: Options) {
    var dumpData := o.outputTotal || o.outputPart || o.outputUser || o.outputBasePS
                    || (o.particle && o.outputParText);
    dumpData && (o.outputMode == OutputConstDt || o.outputMode == OutputUseTable)
  }

  predicate UserCriterion(o: Options) {
    o.dtUser && o.userCallback
  }

  function DTime1(o: Options, st: LevelState): real { DTimeDt(o, st) * st.solverDt }
  function DTime3(o: Options, st: LevelState): real { o.maxDeltaA * st.time }
  function DTime4(st: LevelState): real { st.dumpTime - st.time }
  function DTime5(st: LevelState): real { st.endTime - st.time }
  function DTime6(o: Options, st: LevelState): real { DTimeDt(o, st) * st.userDt }

  /** Without comoving coordinates the solver and user criteria are used as
      returned, unscaled. */
  lemma PhysicalCriteriaUnscaled(o: Options, st: LevelState)
    requires !o.comoving
    ensures DTime1(o, st) == st.solverDt && DTime6(o, st) == st.userDt
  {
  }

  function Fmin(a: real, b: real): real {
    if a <= b then a else b
  }

  /** The criteria that take part, in the order the minimum is taken. */
  function EnabledCriteria(o: Options, st: LevelState): seq<real> {
    [DTime1(o, st)]
    + (if o.comoving then [DTime3(o, st)] else [])
    + (if DumpByTime(o) then [DTime4(st)] else [])
    + [DTime5(st)]
    + (if UserCriterion(o) then [DTime6(o, st)] else [])
  }

  /** The smallest enabled criterion, folded with fmin in the source's order. */
  function MinOfCriteria(o: Options, st: LevelState): (m: real)
    ensures m <= DTime1(o, st) && m <= DTime5(st)
    ensures o.comoving ==> m <= DTime3(o, st)
    ensures DumpByTime(o) ==> m <= DTime4(st)
    ensures UserCriterion(o) ==> m <= DTime6(o, st)
    ensures m in EnabledCriteria(o, st)
  {
    var m1 := DTime1(o, st);
    var m3 := if o.comoving then Fmin(m1, DTime3(o, st)) else m1;
    var m4 := if DumpByTime(o) then Fmin(m3, DTime4(st)) else m3;
    var m5 := Fmin(m4, DTime5(st));
    if UserCriterion(o) then Fmin(m5, DTime6(o, st)) else m5
  }

  /** Reference minimum of a nonempty sequence. */
  function SeqMin(xs: seq<real>): (m: real)
    requires |xs| >= 1
  {
    if |xs| == 1 then xs[0] else Fmin(SeqMin(xs[..|xs| - 1]), xs[|xs| - 1])
  }

  lemma {:induction false} SeqMinIsLeast(xs: seq<real>)
    requires |xs| >= 1
    ensures SeqMin(xs) in xs
    ensures forall x :: x in xs ==> SeqMin(xs) <= x
  {
    if |xs| > 1 {
      SeqMinIsLeast(xs[..|xs| - 1]);
      assert forall x :: x in xs ==> x in xs[..|xs| - 1] || x == xs[|xs| - 1];
    }
  }

  /** The fmin fold is the minimum of the enabled criteria. */
  lemma MinOfCriteriaIsSeqMin(o: Options, st: LevelState)
    ensures MinOfCriteria(o, st) == SeqMin(EnabledCriteria(o, st))
  {
    var xs := EnabledCriteria(o, st);
    SeqMinIsLeast(xs);
    var m := MinOfCriteria(o, st);
    assert forall x :: x in xs ==> m <= x;
  }

  /** Stretching by a non-negative range preserves order and never shrinks a
      non-negative interval. */
  lemma Stretch(range: real, a: real, b: real)
    ensures range >= 0.0 && a <= b ==> (1.0 + range) * a <= (1.0 + range) * b
    ensures range >= 0.0 && a >= 0.0 ==> a <= (1.0 + range) * a
  {
    assert (1.0 + range) * a - a == range * a;
    assert (1.0 + range) * b - (1.0 + range) * a == (1.0 + range) * (b - a);
  }

  /** Parent-level synchronisation: only flexible levels above the root
      synchronise, and a non-positive interval to the parent is fatal. A
      candidate that, stretched by the flexible range, reaches the parent's
      interval snaps to it; otherwise the candidate stays. So a positive
      candidate is never stretched beyond the flexible range, and on a
      synchronising level the step never runs past the parent. */
  function SyncWithParent(o: Options, lv: nat, dTimeMin: real, dTimeSyncFaLv: real): (r: Result<real, Failure>)
    ensures r.Err? <==> o.flexibleLevels && lv > 0 && dTimeSyncFaLv <= 0.0
    ensures r.Err? ==> r.error == BadSyncInterval(dTimeSyncFaLv)
    ensures !(o.flexibleLevels && lv > 0) ==> r == Ok(dTimeMin)
    ensures r.Ok? ==> r.value == dTimeMin || r.value == dTimeSyncFaLv
    ensures o.flexibleLevels && lv > 0 && 0.0 < dTimeSyncFaLv <= (1.0 + o.flexibleRange) * dTimeMin
            ==> r == Ok(dTimeSyncFaLv)
    ensures o.flexibleLevels && lv > 0 && dTimeSyncFaLv > 0.0 && (1.0 + o.flexibleRange) * dTimeMin < dTimeSyncFaLv
            ==> r == Ok(dTimeMin)
    ensures o.flexibleRange >= 0.0 && dTimeMin > 0.0 && r.Ok?
            ==> 0.0 < r.value <= (1.0 + o.flexibleRange) * dTimeMin
    ensures o.flexibleLevels && lv > 0 && o.flexibleRange >= 0.0 && dTimeMin > 0.0 && r.Ok?
            ==> r.value <= dTimeSyncFaLv
  {
    Stretch(o.flexibleRange, dTimeMin, dTimeMin);
    if o.flexibleLevels && lv > 0 then
      if dTimeSyncFaLv <= 0.0 then Err(BadSyncInterval(dTimeSyncFaLv))
      else if (1.0 + o.flexibleRange) * dTimeMin >= dTimeSyncFaLv then Ok(dTimeSyncFaLv)
      else Ok(dTimeMin)
    else Ok(dTimeMin)
  }

  /** The time-step selection. `toDt` converts a physical interval at the
      level's time into the evolution time-step. */
  function GetTimeStep(o: Options, st: LevelState, dTimeSyncFaLv: real, toDt: real -> real): (r: Outcome)
    ensures r.NoPatches? <==> st.nPatchTotal == 0
    ensures st.nPatchTotal > 0 && DumpByTime(o) && DTime4(st) <= 0.0 ==> r == Abort(DumpTimePassed(DTime4(st)))
    ensures st.nPatchTotal > 0 && !(DumpByTime(o) && DTime4(st) <= 0.0) && DTime5(st) <= 0.0
            ==> r == Abort(EndTimePassed(DTime5(st)))
    ensures r.Abort? && r.failure.BadSyncInterval? ==> o.flexibleLevels && st.lv > 0 && dTimeSyncFaLv <= 0.0
    ensures st.nPatchTotal > 0 && !(DumpByTime(o) && DTime4(st) <= 0.0) && DTime5(st) > 0.0
            && o.flexibleLevels && st.lv > 0 && dTimeSyncFaLv <= 0.0
            ==> r == Abort(BadSyncInterval(dTimeSyncFaLv))
    ensures r.TimeStep? ==> r.dTime > 0.0 && toDt(r.dTime) > 0.0
    ensures r.TimeStep? ==> DTime4(st) > 0.0 || !DumpByTime(o)
    ensures r.TimeStep? ==> DTime5(st) > 0.0
    ensures r.TimeStep? ==>
              (r.dTime == MinOfCriteria(o, st)
               || (o.flexibleLevels && st.lv > 0 && r.dTime == dTimeSyncFaLv
                   && (1.0 + o.flexibleRange) * MinOfCriteria(o, st) >= dTimeSyncFaLv))
    ensures r.TimeStep? ==> SyncWithParent(o, st.lv, MinOfCriteria(o, st), dTimeSyncFaLv) == Ok(r.dTime)
    ensures r.Abort? && r.failure.BadTimeStep? ==> r.failure.dt <= 0.0 || r.failure.dTime <= 0.0
    ensures st.nPatchTotal > 0 && !(DumpByTime(o) && DTime4(st) <= 0.0) && DTime5(st) > 0.0 ==>
              var sync := SyncWithParent(o, st.lv, MinOfCriteria(o, st), dTimeSyncFaLv);
              sync.Ok? && (sync.value <= 0.0 || toDt(sync.value) <= 0.0)
              ==> r == Abort(BadTimeStep(toDt(sync.value), sync.value))
    ensures st.nPatchTotal > 0 && !(DumpByTime(o) && DTime4(st) <= 0.0) && DTime5(st) > 0.0 ==>
              var sync := SyncWithParent(o, st.lv, MinOfCriteria(o, st), dTimeSyncFaLv);
              sync.Ok? && sync.value > 0.0 && toDt(sync.value) > 0.0 ==> r == TimeStep(sync.value)
  {
    if st.nPatchTotal == 0 then NoPatches
    else if DumpByTime(o) && DTime4(st) <= 0.0 then Abort(DumpTimePassed(DTime4(st)))
    else if DTime5(st) <= 0.0 then Abort(EndTimePassed(DTime5(st)))
    else
      match SyncWithParent(o, st.lv, MinOfCriteria(o, st), dTimeSyncFaLv)
      case Err(f) => Abort(f)
      case Ok(dTime) =>
        var dt := toDt(dTime);
        if dt <= 0.0 || dTime <= 0.0 then Abort(BadTimeStep(dt, dTime))
        else TimeStep(dTime)
  }

  /** A returned step fits the schedule: it never passes the end time, nor the
      next dump when dumps go by time, except by the flexible range on a level
      that synchronises with its parent; and there it never passes the
      parent's interval. */
  lemma StepFitsSchedule(o: Options, st: LevelState, dTimeSyncFaLv: real, toDt: real -> real)
    requires o.flexibleRange >= 0.0
    ensures var r := GetTimeStep(o, st, dTimeSyncFaLv, toDt);
            r.TimeStep? ==> StepFits(o, st, dTimeSyncFaLv, r.dTime)
  {
    var r := GetTimeStep(o, st, dTimeSyncFaLv, toDt);
    if r.TimeStep? {
      SyncedStepFits(o, st, dTimeSyncFaLv, MinOfCriteria(o, st), r.dTime);
    }
  }

  /** The schedule a step must fit: the end time, and the next dump when dumps
      go by time, each stretched by the flexible range on a level that
      synchronises with its parent; there, also the parent's interval. */
  predicate StepFits(o: Options, st: LevelState, dTimeSyncFaLv: real, dTime: real) {
    var stretch := if o.flexibleLevels && st.lv > 0 then 1.0 + o.flexibleRange else 1.0;
    && dTime <= stretch * DTime5(st)
    && (DumpByTime(o) ==> dTime <= stretch * DTime4(st))
    && (o.flexibleLevels && st.lv > 0 ==> dTime <= dTimeSyncFaLv)
  }

  lemma SyncedStepFits(o: Options, st: LevelState, dTimeSyncFaLv: real, m: real, dTime: real)
    requires o.flexibleRange >= 0.0 && dTime > 0.0
    requires m <= DTime5(st) && (DumpByTime(o) ==> m <= DTime4(st))
    requires SyncWithParent(o, st.lv, m, dTimeSyncFaLv) == Ok(dTime)
    ensures StepFits(o, st, dTimeSyncFaLv, dTime)
  {
    if o.flexibleLevels && st.lv > 0 {
      StepWithinStretch(o.flexibleRange, dTime, m, DTime5(st), dTimeSyncFaLv);
      if DumpByTime(o) {
        StepWithinStretch(o.flexibleRange, dTime, m, DTime4(st), dTimeSyncFaLv);
      }
    }
  }

  /** The arithmetic of one bound: a positive step that is either the minimum
      `m`, or a parent interval the stretched minimum reaches, stays within the
      stretched bound `limit` of the minimum. */
  lemma StepWithinStretch(range: real, step: real, m: real, limit: real, sync: real)
    requires range >= 0.0 && step > 0.0 && m <= limit
    requires step == m || (step == sync && (1.0 + range) * m >= sync)
    ensures step <= (1.0 + range) * limit
  {
    Stretch(range, m, limit);
    Stretch(range, m, m);
  }
}
