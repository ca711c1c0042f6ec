/**
 * The closed loop in real time. The main loop polls scan and automation less than L ms apart, every scan
 * creates one ADC task, and each task stores within D ms of its creation. That bounds how many updates a task can
 * lose and how many can come after the level last sampled, so the limit for the input level depends on L and D only.
 */
module TimedOverfill {
  import opened Words
  import E = Ema
  import G = Gate
  import S = Sensor
  import R = Relays
  import A = Automation
  import Latch
  import T = AdcTasks
  import O = Overfill
  import I = InterleavedOverfill
  import Q = Sequences
  import C = Controller

  /**
   * The loop of module InterleavedOverfill with a clock and the scan's gate. History: when each task was created
   * and each store happened, when the cached and the sampled level were read, and when the gates last ran and were last polled.
   */
  datatype State = State(
    clock: nat, scanMillis: word, loop: I.State,
    spawned: seq<nat>, storedAt: seq<nat>, levelTime: nat, sampleTime: nat,
    scanFired: nat, scanPolled: nat, autoFired: nat, autoPolled: nat)

  const BOOT := State(0, 0, I.BOOT, [], [], 0, 0, 0, 0, 0, 0)

  datatype Event =
    | Advance(ms: nat)
    | PollScan
    | PollAuto
    | Adc(e: T.Event)          // a read of the scan under way, or a step of a task
    | Others(relays: R.Bank)   // the API or a timer leaves the relays in some state

  /** The main loop polls nothing while it is inside a scan. */
  predicate ScanDue(s: State) {
    s.loop.adc.pc.Idle? && G.Due(s.scanMillis, Wrap(s.clock), S.SCAN_INTERVAL)
  }

  /** What the step is in the machine without time, if anything. */
  function Emits(s: State, e: Event): seq<I.Event> {
    match e
    case Advance(_) => []
    case PollScan => if ScanDue(s) then [I.Adc(T.StartScan)] else []
    case PollAuto => if s.loop.adc.pc.Idle? then [I.PollAuto(Wrap(s.clock))] else []
    case Adc(e) => if e.StartScan? then [] else [I.Adc(e)]
    case Others(relays) => [I.Others(relays)]
  }

  function Looped(p: C.Plant, loop: I.State, es: seq<I.Event>): I.State {
    if es == [] then loop else I.Step(p, loop, es[0])
  }

  function Step(p: C.Plant, s: State, e: Event): State {
    var s' := s.(loop := Looped(p, s.loop, Emits(s, e)));
    match e
    case Advance(ms) => s'.(clock := s.clock + ms)
    case PollScan =>
      if ScanDue(s) then
        s'.(scanMillis := Wrap(s.clock), scanPolled := s.clock, scanFired := s.clock, spawned := s.spawned + [s.clock])
      else if s.loop.adc.pc.Idle? then s'.(scanPolled := s.clock)
      else s'
    case PollAuto =>
      if !s.loop.adc.pc.Idle? then s'
      else if A.Ticks(p.auto, s.loop.auto, Wrap(s.clock))
      then s'.(autoPolled := s.clock, autoFired := s.clock, sampleTime := s.levelTime)
      else s'.(autoPolled := s.clock)
    case Adc(e) =>
      s'.(storedAt := if T.Stores(s.loop.adc, e) then s.storedAt + [s.clock] else s.storedAt,
          levelTime := if e.ReadLevel? && s.loop.adc.pc.AtLevel? then s.clock else s.levelTime)
    case Others(_) => s'
  }

  function Run(p: C.Plant, es: seq<Event>): State {
    if es == [] then BOOT else Step(p, Run(p, es[..|es| - 1]), es[|es| - 1])
  }

  // ---------- the machine without time ----------

  function Untimed(p: C.Plant, es: seq<Event>): seq<I.Event> {
    if es == [] then []
    else
      var front := es[..|es| - 1];
      Untimed(p, front) + Emits(Run(p, front), es[|es| - 1])
  }

  /** Forgetting time, the loop is a run of module InterleavedOverfill. */
  lemma {:induction false} LoopRefines(p: C.Plant, es: seq<Event>)
    ensures Run(p, es).loop == I.Run(p, Untimed(p, es))
  {
    if es != [] {
      var front, us := es[..|es| - 1], Emits(Run(p, es[..|es| - 1]), es[|es| - 1]);
      LoopRefines(p, front);
      if us == [] {
        assert Untimed(p, front) + us == Untimed(p, front);
      } else {
        assert (Untimed(p, front) + us)[..|Untimed(p, front)|] == Untimed(p, front);
      }
    }
  }

  function AdcOf(us: seq<I.Event>): seq<T.Event> {
    if us != [] && us[0].Adc? then [us[0].e] else []
  }

  lemma AdcEventsSnoc(us: seq<I.Event>, last: seq<I.Event>)
    requires |last| <= 1
    ensures I.AdcEvents(us + last) == I.AdcEvents(us) + AdcOf(last)
  {
    if last == [] {
      assert us + last == us;
    } else {
      assert (us + last)[..|us|] == us;
    }
  }

  function AdcRun(p: C.Plant, es: seq<Event>): seq<T.Event> {
    I.AdcEvents(Untimed(p, es))
  }

  lemma AdcIsRun(p: C.Plant, es: seq<Event>)
    ensures Run(p, es).loop.adc == T.Run(p.cal, AdcRun(p, es))
    ensures T.Provenance(Run(p, es).loop.adc)
  {
    LoopRefines(p, es);
    I.AdcRun(p, Untimed(p, es));
    T.VoltageIsFilterOfSomeTasks(p.cal, AdcRun(p, es));
  }

  // ---------- the gates keep real time ----------

  /** At every point of the run the last polls of scan and automation are less than L ms ago. */
  predicate PolledEvery(p: C.Plant, es: seq<Event>, L: nat) {
    && (es == [] || PolledEvery(p, es[..|es| - 1], L))
    && Run(p, es).clock - Run(p, es).scanPolled < L
    && Run(p, es).clock - Run(p, es).autoPolled < L
  }

  predicate GatesSound(p: C.Plant, s: State) {
    && s.scanMillis == Wrap(s.scanFired)
    && s.scanFired <= s.scanPolled <= s.clock && s.scanPolled - s.scanFired < S.SCAN_INTERVAL
    && s.autoFired <= s.autoPolled <= s.clock
    && (p.auto.mode != 0 ==> s.loop.auto.millis == Wrap(s.autoFired) && s.autoPolled - s.autoFired < A.AUTO_INTERVAL)
  }

  lemma AutomationMillis(p: C.Plant, a: A.Auto, level: real, now: word)
    ensures A.Loop(p.auto, a, level, now).millis == if A.Ticks(p.auto, a, now) then now else a.millis
  {}

  lemma StepKeepsGates(p: C.Plant, s: State, e: Event, L: nat)
    requires GatesSound(p, s)
    requires s.clock - s.scanPolled < L && s.clock - s.autoPolled < L && L + 1000 <= WORD
    ensures GatesSound(p, Step(p, s, e))
  {
    match e {
      case PollScan => G.DueIsExact(s.scanFired, s.clock, S.SCAN_INTERVAL);
      case PollAuto =>
        G.DueIsExact(s.autoFired, s.clock, A.AUTO_INTERVAL);
        AutomationMillis(p, s.loop.auto, s.loop.adc.level, Wrap(s.clock));
      case _ =>
    }
  }

  lemma {:induction false} GatesStaySound(p: C.Plant, es: seq<Event>, L: nat)
    requires PolledEvery(p, es, L) && L + 1000 <= WORD
    ensures GatesSound(p, Run(p, es))
  {
    if es != [] {
      GatesStaySound(p, es[..|es| - 1], L);
      StepKeepsGates(p, Run(p, es[..|es| - 1]), es[|es| - 1], L);
    }
  }

  // ---------- tasks are created an interval apart ----------

  predicate SpawnsSpaced(s: State) {
    && |s.spawned| == |s.loop.adc.tasks|
    && (forall i :: 0 <= i < |s.spawned| ==> s.spawned[i] <= s.scanFired)
    && (forall i, j :: 0 <= i < j < |s.spawned| ==> s.spawned[j] - s.spawned[i] >= 1000 * (j - i))
  }

  lemma StepKeepsSpawns(p: C.Plant, s: State, e: Event)
    requires GatesSound(p, s) && SpawnsSpaced(s)
    ensures SpawnsSpaced(Step(p, s, e))
  {
    if e.PollScan? && ScanDue(s) {
      G.DueIsExact(s.scanFired, s.clock, S.SCAN_INTERVAL);
      var s', n := Step(p, s, e), |s.spawned|;
      forall i | 0 <= i < n
        ensures s'.spawned[n] - s'.spawned[i] >= 1000 * (n - i)
      {
        assert s.spawned[n - 1] <= s.scanFired;
        assert i < n - 1 ==> s.spawned[n - 1] - s.spawned[i] >= 1000 * (n - 1 - i);
      }
    }
  }

  lemma {:induction false} SpawnsStaySpaced(p: C.Plant, es: seq<Event>, L: nat)
    requires PolledEvery(p, es, L) && L + 1000 <= WORD
    ensures SpawnsSpaced(Run(p, es))
  {
    if es != [] {
      GatesStaySound(p, es[..|es| - 1], L);
      SpawnsStaySpaced(p, es[..|es| - 1], L);
      StepKeepsSpawns(p, Run(p, es[..|es| - 1]), es[|es| - 1]);
    }
  }

  // ---------- stores and their times ----------

  /** Each task stores within D ms of its creation. */
  predicate Punctual(p: C.Plant, es: seq<Event>, D: nat) {
    es == [] ||
    (var s, e := Run(p, es[..|es| - 1]), es[|es| - 1];
     && Punctual(p, es[..|es| - 1], D)
     && (e.Adc? && T.Stores(s.loop.adc, e.e) && e.e.task < |s.spawned| ==> s.clock <= s.spawned[e.e.task] + D))
  }

  /** The store number j: by a task created at most D ms before. */
  predicate StoreTimely(s: State, j: nat, D: nat)
    requires j < |s.storedAt| && j < |s.loop.adc.stored|
  {
    var i := s.loop.adc.stored[j];
    i < |s.spawned| && s.spawned[i] <= s.storedAt[j] <= s.clock && s.storedAt[j] <= s.spawned[i] + D
  }

  predicate StoresTimely(s: State, D: nat) {
    && |s.storedAt| == |s.loop.adc.stored| && Q.Distinct(s.loop.adc.stored)
    && forall j :: 0 <= j < |s.storedAt| ==> StoreTimely(s, j, D)
  }

  /** What a task that has loaded missed since, it missed after its creation. */
  predicate LoadsTimely(s: State) {
    && |s.storedAt| == |s.loop.adc.stored| && |s.spawned| == |s.loop.adc.tasks|
    && (forall i :: 0 <= i < |s.spawned| ==> s.spawned[i] <= s.clock)
    && forall i, j :: 0 <= i < |s.spawned| && s.loop.adc.tasks[i].Loaded? && s.loop.adc.tasks[i].at <= j < |s.storedAt|
                      ==> s.spawned[i] <= s.storedAt[j]
  }

  /** A step in which no task stores leaves the stores and their times alone. */
  lemma NoStore(p: C.Plant, s: State, e: Event)
    requires !(e.Adc? && T.Stores(s.loop.adc, e.e))
    ensures var s' := Step(p, s, e);
            && s'.storedAt == s.storedAt && s'.loop.adc.stored == s.loop.adc.stored
            && s.spawned <= s'.spawned && s.clock <= s'.clock
  {}

  lemma StoreStep(p: C.Plant, s: State, i: nat)
    requires T.Stores(s.loop.adc, T.Store(i))
    ensures var s' := Step(p, s, Adc(T.Store(i)));
            && s'.storedAt == s.storedAt + [s.clock] && s'.loop.adc == T.Stored(s.loop.adc, i)
            && s'.spawned == s.spawned && s'.clock == s.clock
  {}

  lemma StepKeepsStores(p: C.Plant, s: State, e: Event, D: nat)
    requires T.Provenance(s.loop.adc) && LoadsTimely(s) && StoresTimely(s, D)
    requires e.Adc? && T.Stores(s.loop.adc, e.e) ==> s.clock <= s.spawned[e.e.task] + D
    ensures StoresTimely(Step(p, s, e), D)
  {
    var s' := Step(p, s, e);
    if e.Adc? && T.Stores(s.loop.adc, e.e) {
      StoreStep(p, s, e.e.task);
      Q.DistinctSnoc(s.loop.adc.stored, e.e.task);
    } else {
      NoStore(p, s, e);
    }
    forall j | 0 <= j < |s.storedAt|
      ensures s'.loop.adc.stored[j] == s.loop.adc.stored[j] && StoreTimely(s', j, D)
    {
      assert StoreTimely(s, j, D);
    }
  }

  lemma StepKeepsLoads(p: C.Plant, s: State, e: Event)
    requires LoadsTimely(s)
    ensures LoadsTimely(Step(p, s, e))
  {
    if e.Adc? && T.Stores(s.loop.adc, e.e) {
      StoreStep(p, s, e.e.task);
    } else {
      NoStore(p, s, e);
    }
  }

  /** All that is kept about tasks on punctual runs. */
  predicate TasksTimely(s: State, D: nat) {
    SpawnsSpaced(s) && LoadsTimely(s) && StoresTimely(s, D)
  }

  lemma {:induction false} TasksStayTimely(p: C.Plant, es: seq<Event>, L: nat, D: nat)
    requires PolledEvery(p, es, L) && L + 1000 <= WORD && Punctual(p, es, D)
    ensures TasksTimely(Run(p, es), D)
  {
    SpawnsStaySpaced(p, es, L);
    if es != [] {
      var front, e := es[..|es| - 1], es[|es| - 1];
      TasksStayTimely(p, front, L, D);
      AdcIsRun(p, front);
      StepKeepsLoads(p, Run(p, front), e);
      StepKeepsStores(p, Run(p, front), e, D);
    }
  }

  // ---------- how many updates can be lost ----------

  /** At most so many tasks overtake a task between its load and its store. */
  function Overtakers(D: nat): nat {
    2 * (D / S.SCAN_INTERVAL)
  }

  /** Creation times at most `ms` apart: that many interval lengths between the tasks. */
  lemma CloseSpawns(s: State, i: nat, j: nat, ms: nat)
    requires SpawnsSpaced(s) && i < |s.spawned| && j < |s.spawned| && s.spawned[j] - s.spawned[i] <= ms
    ensures j - i <= ms / S.SCAN_INTERVAL
  {
    if i < j {
      assert 1000 * (j - i) <= ms;
    }
  }

  /** A task about to store was overtaken by few others: all of them were created within D ms of it. */
  lemma OvertakenByFew(s: State, i: nat, D: nat)
    requires TasksTimely(s, D) && T.Provenance(s.loop.adc) && T.Stores(s.loop.adc, T.Store(i))
    requires s.clock <= s.spawned[i] + D
    ensures |s.loop.adc.stored| - s.loop.adc.tasks[i].at <= Overtakers(D)
  {
    var at, stored := s.loop.adc.tasks[i].at, s.loop.adc.stored;
    var ids := stored[at..] + [i];
    Q.DistinctSuffix(stored, at);
    Q.DistinctSnoc(stored[at..], i);
    forall a | 0 <= a < |ids|
      ensures ids[a] < |s.spawned| && ids[a] - i <= D / S.SCAN_INTERVAL && i - ids[a] <= D / S.SCAN_INTERVAL
    {
      if a < |ids| - 1 {
        assert ids[a] == stored[at + a] && StoreTimely(s, at + a, D);
        CloseSpawns(s, i, ids[a], D);
        CloseSpawns(s, ids[a], i, D);
      }
    }
    Q.SpreadBound(ids, Overtakers(D));
  }

  lemma OvertakenSnoc(p: C.Plant, es: seq<T.Event>, last: seq<T.Event>, k: nat)
    requires T.OvertakenBy(p.cal, es, k) && |last| <= 1
    requires var adc := T.Run(p.cal, es);
             last != [] && T.Stores(adc, last[0]) ==> |adc.stored| - adc.tasks[last[0].task].at <= k
    ensures T.OvertakenBy(p.cal, es + last, k)
  {
    if last == [] {
      assert es + last == es;
    } else {
      assert (es + last)[..|es|] == es;
    }
  }

  lemma {:induction false} FewOvertakers(p: C.Plant, es: seq<Event>, L: nat, D: nat)
    requires PolledEvery(p, es, L) && L + 1000 <= WORD && Punctual(p, es, D)
    ensures T.OvertakenBy(p.cal, AdcRun(p, es), Overtakers(D))
  {
    if es != [] {
      var front, e := es[..|es| - 1], es[|es| - 1];
      FewOvertakers(p, front, L, D);
      OneMoreEvent(p, front, e, L, D);
      AdcEventsSnoc(Untimed(p, front), Emits(Run(p, front), e));
    }
  }

  lemma OneMoreEvent(p: C.Plant, front: seq<Event>, e: Event, L: nat, D: nat)
    requires PolledEvery(p, front, L) && L + 1000 <= WORD && Punctual(p, front, D)
    requires var s := Run(p, front);
             e.Adc? && T.Stores(s.loop.adc, e.e) && e.e.task < |s.spawned| ==> s.clock <= s.spawned[e.e.task] + D
    requires T.OvertakenBy(p.cal, AdcRun(p, front), Overtakers(D))
    ensures T.OvertakenBy(p.cal, AdcRun(p, front) + AdcOf(Emits(Run(p, front), e)), Overtakers(D))
  {
    var s := Run(p, front);
    AdcIsRun(p, front);
    TasksStayTimely(p, front, L, D);
    if e.Adc? && T.Stores(s.loop.adc, e.e) {
      OvertakenByFew(s, e.e.task, D);
    }
    OvertakenSnoc(p, AdcRun(p, front), AdcOf(Emits(s, e)), Overtakers(D));
  }

  predicate LosesNothing(adc: T.State) {
    adc.latest == E.Fold(0.0, T.Averages(adc.tasks, adc.stored))
  }

  lemma SerialLosesNothing(p: C.Plant, es: seq<T.Event>)
    requires T.OvertakenBy(p.cal, es, 0)
    ensures LosesNothing(T.Run(p.cal, es))
  {
    T.NoUpdateLostIff(p.cal, es);
  }

  /** Tasks that finish within a scan interval lose nothing: the voltage is the filter over all of them. */
  lemma PunctualTasksLoseNothing(p: C.Plant, es: seq<Event>, L: nat, D: nat)
    requires PolledEvery(p, es, L) && L + 1000 <= WORD && Punctual(p, es, D) && D < S.SCAN_INTERVAL
    ensures LosesNothing(Run(p, es).loop.adc)
  {
    assert Overtakers(D) == 0;
    FewOvertakers(p, es, L, D);
    AdcIsRun(p, es);
    SerialLosesNothing(p, AdcRun(p, es));
  }

  // ---------- how many updates can come after the sample ----------

  /** The stores that the cached and the sampled level do not reflect came after these were read, not long ago. */
  predicate SampleRecent(s: State, L: nat) {
    && |s.storedAt| == |s.loop.adc.stored| && s.sampleTime <= s.levelTime <= s.clock
    && (forall j :: s.loop.adc.levelAt <= j < |s.storedAt| ==> s.levelTime <= s.storedAt[j])
    && (forall j :: s.loop.sampleAt <= j < |s.storedAt| ==> s.sampleTime <= s.storedAt[j])
    && (s.loop.adc.pc.Idle? || s.loop.adc.pc.AtVolume? ==> s.scanFired <= s.levelTime)
    && s.autoFired < s.sampleTime + S.SCAN_INTERVAL + L
  }

  lemma StepKeepsSample(p: C.Plant, s: State, e: Event, L: nat)
    requires GatesSound(p, s) && SampleRecent(s, L) && s.clock - s.scanPolled < L
    ensures SampleRecent(Step(p, s, e), L)
  {
    if e.Adc? && T.Stores(s.loop.adc, e.e) {
      StoreStep(p, s, e.e.task);
    } else {
      NoStore(p, s, e);
    }
  }

  lemma {:induction false} SampleStaysRecent(p: C.Plant, es: seq<Event>, L: nat)
    requires PolledEvery(p, es, L) && L + 1000 <= WORD
    ensures SampleRecent(Run(p, es), L)
  {
    if es != [] {
      SampleStaysRecent(p, es[..|es| - 1], L);
      GatesStaySound(p, es[..|es| - 1], L);
      StepKeepsSample(p, Run(p, es[..|es| - 1]), es[|es| - 1], L);
    }
  }

  /** At most so many stores come after the level last sampled was read. */
  function Unseen(L: nat, D: nat): nat {
    (A.AUTO_INTERVAL + S.SCAN_INTERVAL + 2 * L + D - 1) / S.SCAN_INTERVAL + 1
  }

  lemma FewUnseen(p: C.Plant, s: State, L: nat, D: nat)
    requires GatesSound(p, s) && TasksTimely(s, D) && SampleRecent(s, L)
    requires p.auto.mode != 0 && s.clock - s.autoPolled < L && s.loop.sampleAt <= |s.storedAt|
    ensures |s.loop.adc.stored| - s.loop.sampleAt <= Unseen(L, D)
  {
    var at, stored := s.loop.sampleAt, s.loop.adc.stored;
    var ids := stored[at..];
    Q.DistinctSuffix(stored, at);
    forall a, b | 0 <= a < |ids| && 0 <= b < |ids|
      ensures ids[b] - ids[a] <= Unseen(L, D) - 1
    {
      assert StoreTimely(s, at + a, D) && StoreTimely(s, at + b, D);
      CloseSpawns(s, ids[a], ids[b], A.AUTO_INTERVAL + S.SCAN_INTERVAL + 2 * L + D - 1);
    }
    Q.SpreadBound(ids, Unseen(L, D) - 1);
  }

  // ---------- the limit ----------

  lemma {:induction false} ModeZeroNeverFills(p: C.Plant, es: seq<Event>)
    requires p.auto.mode == 0
    ensures !Run(p, es).loop.auto.fillM
  {
    if es != [] {
      ModeZeroNeverFills(p, es[..|es| - 1]);
    }
  }

  lemma LeadAtMost(n: nat, e: real, d: real)
    requires d >= 0.0
    ensures E.Lead(n, e, d) <= Latch.Max0(e) + 7.0 / 3.0 * d
  {
    var t := E.Pow(n);
    E.LeadMonotone(n, e, Latch.Max0(e), d);
    Shrinks(t, Latch.Max0(e));
    Shrinks(1.0 - t, d);
  }

  lemma Shrinks(t: real, x: real)
    requires 0.0 <= t <= 1.0 && x >= 0.0
    ensures t * x <= x && x * t <= x
  {}

  /** The limit with at most k overtakers and `most` unseen stores. */
  function SettledLimit(p: C.Plant, k: nat, most: nat, x0: real, d: real): real {
    p.auto.maxL + 0.005 + Latch.Max0(O.HeadStart(p, x0)) + 7.0 / 3.0 * O.Rise(k + 1, d) + O.Rise(most, d)
  }

  lemma LimitAtMost(p: C.Plant, n: nat, m: nat, k: nat, most: nat, x0: real, d: real)
    requires d >= 0.0 && m <= most
    ensures I.Limit(p, n, m, k, x0, d) <= SettledLimit(p, k, most, x0, d)
  {
    O.RiseMonotone(0, k + 1, d);
    O.RiseMonotone(m, most, d);
    LeadAtMost(n, O.HeadStart(p, x0), O.Rise(k + 1, d));
  }

  /** The limit in terms of the timing alone, x0 and d. */
  function TimedLimit(p: C.Plant, L: nat, D: nat, x0: real, d: real): real {
    p.auto.maxL + 0.005 + Latch.Max0(O.HeadStart(p, x0))
    + 7.0 / 3.0 * ((Overtakers(D) + 1) as real * d) + Unseen(L, D) as real * d
  }

  lemma SettledIsTimed(p: C.Plant, L: nat, D: nat, x0: real, d: real)
    ensures SettledLimit(p, Overtakers(D), Unseen(L, D), x0, d) == TimedLimit(p, L, D, x0, d)
  {
    O.RiseIsProduct(Overtakers(D) + 1, d);
    O.RiseIsProduct(Unseen(L, D), d);
  }

  predicate BelowTimedLimit(p: C.Plant, adc: T.State, L: nat, D: nat, x0: real, d: real) {
    E.LastOf(x0, I.InputLevels(p, adc)) < TimedLimit(p, L, D, x0, d)
  }

  lemma BelowTimedLimitFrom(p: C.Plant, s: I.State, L: nat, D: nat, x0: real, d: real)
    requires d >= 0.0 && I.BelowLimit(p, s, Overtakers(D), x0, d)
    requires |s.adc.stored| - s.sampleAt <= Unseen(L, D)
    ensures BelowTimedLimit(p, s.adc, L, D, x0, d)
  {
    var n, m := |T.ChainAt(s.adc, s.sampleAt)|, |s.adc.stored| - s.sampleAt;
    LimitAtMost(p, n, m, Overtakers(D), Unseen(L, D), x0, d);
    SettledIsTimed(p, L, D, x0, d);
  }

  /** On those runs, while filling: few stores are not yet reflected in the level last sampled. */
  lemma UnseenOnRun(p: C.Plant, es: seq<Event>, L: nat, D: nat)
    requires PolledEvery(p, es, L) && L + 1000 <= WORD && Punctual(p, es, D)
    requires Run(p, es).loop.auto.fillM
    ensures var s := Run(p, es);
            0 <= |s.loop.adc.stored| - s.loop.sampleAt <= Unseen(L, D)
  {
    if p.auto.mode == 0 {
      ModeZeroNeverFills(p, es);
    }
    GatesStaySound(p, es, L);
    TasksStayTimely(p, es, L, D);
    SampleStaysRecent(p, es, L);
    LoopRefines(p, es);
    I.LoopStaysSound(p, Untimed(p, es));
    FewUnseen(p, Run(p, es), L, D);
  }

  /**
   * On every densely polled and punctual run, whenever the fill flag is on: if the input level has risen by at
   * most d points per store from x0, it now lies below
   *   maxL + 0.005 + head start + (7/3) (2 floor(D / 1000) + 1) d + (floor((1999 + 2 L + D) / 1000) + 1) d.
   */
  lemma TimedOverfillBound(p: C.Plant, es: seq<Event>, L: nat, D: nat, x0: real, d: real)
    requires p.auto.maxL <= 100.0 && d >= 0.0
    requires PolledEvery(p, es, L) && L + 1000 <= WORD && Punctual(p, es, D)
    requires E.RisesAtMost(x0, I.InputLevels(p, Run(p, es).loop.adc), d)
    requires Run(p, es).loop.auto.fillM
    ensures BelowTimedLimit(p, Run(p, es).loop.adc, L, D, x0, d)
  {
    UnseenOnRun(p, es, L, D);
    FewOvertakers(p, es, L, D);
    LoopRefines(p, es);
    I.InterleavedOverfillBound(p, Untimed(p, es), Overtakers(D), x0, d);
    BelowTimedLimitFrom(p, Run(p, es).loop, L, D, x0, d);
  }
}
