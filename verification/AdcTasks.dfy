/**
 * The ADC tasks and the scan that spawns them share `latestVoltage` without a lock. Every access to
 * it is a step of its own; a run is any sequence of steps, and a step that is not enabled changes
 * nothing, so all interleavings are covered.
 */
module AdcTasks {
  import E = Ema
  import S = Sensor

  /** A task samples its block, loads the shared voltage, and stores the filtered one. */
  datatype Task =
    | Sampling
    | Sampled(average: real)
    | Loaded(average: real, seen: real, at: nat)  // `at`: how many stores had happened
    | Done(average: real)

  datatype Pc = Idle | AtCurrent | AtLevel | AtVolume

  /**
   * Program state: `latest`, the tasks, the scan's program counter and its three cached values.
   * History: the tasks that stored (in order); after each number of stores, the voltage and the tasks it
   * is built from; and how many stores had happened at the scan's start and at each of its three reads.
   */
  datatype State = State(
    latest: real, tasks: seq<Task>, pc: Pc, current: real, level: real, volume: real,
    stored: seq<nat>, voltages: seq<real>, chains: seq<seq<nat>>,
    startAt: nat, currentAt: nat, levelAt: nat, volumeAt: nat)

  const BOOT := State(0.0, [], Idle, 0.0, 0.0, 0.0, [], [0.0], [[]], 0, 0, 0, 0)

  datatype Event =
    | StartScan
    | ReadCurrent
    | ReadLevel
    | ReadVolume
    | FinishBlock(task: nat, average: real)
    | Load(task: nat)
    | Store(task: nat)

  predicate Stores(s: State, e: Event) {
    e.Store? && e.task < |s.tasks| && s.tasks[e.task].Loaded?
  }

  /** The tasks that the voltage after k stores is built from. */
  function ChainAt(s: State, k: nat): seq<nat> {
    if k < |s.chains| then s.chains[k] else []
  }

  function Chain(s: State): seq<nat> {
    ChainAt(s, |s.stored|)
  }

  function Stored(s: State, i: nat): State
    requires Stores(s, Store(i))
  {
    var t := s.tasks[i];
    var v := E.Ema(t.seen, t.average);
    s.(latest := v, tasks := s.tasks[i := Done(t.average)],
       stored := s.stored + [i], voltages := s.voltages + [v], chains := s.chains + [ChainAt(s, t.at) + [i]])
  }

  function Step(c: S.Calibration, s: State, e: Event): State {
    match e
    case StartScan =>
      if s.pc.Idle? then s.(tasks := s.tasks + [Sampling], pc := AtCurrent, startAt := |s.stored|) else s
    case ReadCurrent =>
      if s.pc.AtCurrent?
      then s.(current := S.Round2(S.Current(s.latest)), pc := AtLevel, currentAt := |s.stored|) else s
    case ReadLevel =>
      if s.pc.AtLevel?
      then s.(level := S.Round2(S.Level(c, s.latest)), pc := AtVolume, levelAt := |s.stored|) else s
    case ReadVolume =>
      if s.pc.AtVolume?
      then s.(volume := S.Round2(S.Volume(c, s.latest)), pc := Idle, volumeAt := |s.stored|) else s
    case FinishBlock(i, average) =>
      if i < |s.tasks| && s.tasks[i].Sampling? then s.(tasks := s.tasks[i := Sampled(average)]) else s
    case Load(i) =>
      if i < |s.tasks| && s.tasks[i].Sampled?
      then s.(tasks := s.tasks[i := Loaded(s.tasks[i].average, s.latest, |s.stored|)]) else s
    case Store(i) => if Stores(s, e) then Stored(s, i) else s
  }

  function Run(c: S.Calibration, es: seq<Event>): State {
    if es == [] then BOOT else Step(c, Run(c, es[..|es| - 1]), es[|es| - 1])
  }

  // ---------- what the voltage is made of ----------

  /** xs arises from ys by leaving out elements. */
  predicate Subsequence(xs: seq<nat>, ys: seq<nat>) {
    xs == [] ||
    (ys != [] &&
     ((xs[|xs| - 1] == ys[|ys| - 1] && Subsequence(xs[..|xs| - 1], ys[..|ys| - 1])) ||
      Subsequence(xs, ys[..|ys| - 1])))
  }

  lemma SubsequenceSnoc(xs: seq<nat>, ys: seq<nat>, y: nat)
    requires Subsequence(xs, ys)
    ensures Subsequence(xs + [y], ys + [y])
  {
    assert (ys + [y])[..|ys|] == ys && (xs + [y])[..|xs|] == xs;
  }

  lemma {:induction false} SubsequenceOfPrefix(xs: seq<nat>, ys: seq<nat>, n: nat)
    requires n <= |ys| && Subsequence(xs, ys[..n])
    ensures Subsequence(xs, ys)
  {
    if n == |ys| {
      assert ys[..n] == ys;
    } else {
      assert ys[..|ys| - 1][..n] == ys[..n];
      SubsequenceOfPrefix(xs, ys[..|ys| - 1], n);
    }
  }

  lemma {:induction false} SubsequenceLength(xs: seq<nat>, ys: seq<nat>)
    requires Subsequence(xs, ys)
    ensures |xs| <= |ys| && (|xs| == |ys| ==> xs == ys)
  {
    if xs != [] {
      var front := ys[..|ys| - 1];
      if Subsequence(xs, front) {
        SubsequenceLength(xs, front);
      } else {
        SubsequenceLength(xs[..|xs| - 1], front);
      }
    }
  }

  function AverageOf(tasks: seq<Task>, i: nat): real {
    if i < |tasks| && !tasks[i].Sampling? then tasks[i].average else 0.0
  }

  function Averages(tasks: seq<Task>, ids: seq<nat>): (xs: seq<real>)
    ensures |xs| == |ids|
  {
    seq(|ids|, k requires 0 <= k < |ids| => AverageOf(tasks, ids[k]))
  }

  predicate AllDone(tasks: seq<Task>, ids: seq<nat>) {
    forall k :: 0 <= k < |ids| ==> ids[k] < |tasks| && tasks[ids[k]].Done?
  }

  /** v is the filter run over the averages of the tasks `ids`, some of the `stored` ones. */
  predicate BuiltFrom(tasks: seq<Task>, stored: seq<nat>, v: real, ids: seq<nat>) {
    AllDone(tasks, ids) && Subsequence(ids, stored) && v == E.Fold(0.0, Averages(tasks, ids))
  }

  /** After each number of stores the voltage was built from some of the tasks that had stored by then. */
  predicate HistoryBuilt(s: State) {
    && |s.voltages| == |s.chains| == |s.stored| + 1
    && s.chains[0] == [] && s.latest == s.voltages[|s.stored|]
    && forall m :: 0 <= m <= |s.stored| ==> BuiltFrom(s.tasks, s.stored[..m], s.voltages[m], s.chains[m])
  }

  predicate LoadsSound(s: State) {
    |s.voltages| == |s.stored| + 1 &&
    forall i :: 0 <= i < |s.tasks| && s.tasks[i].Loaded? ==>
      s.tasks[i].at <= |s.stored| && s.tasks[i].seen == s.voltages[s.tasks[i].at]
  }

  predicate Provenance(s: State) {
    AllDone(s.tasks, s.stored) && HistoryBuilt(s) && LoadsSound(s)
  }

  /** Finished tasks stay as they are. */
  predicate KeepsDone(tasks: seq<Task>, tasks': seq<Task>) {
    |tasks| <= |tasks'| && forall i :: 0 <= i < |tasks| && tasks[i].Done? ==> tasks'[i] == tasks[i]
  }

  lemma BuiltStays(tasks: seq<Task>, tasks': seq<Task>, stored: seq<nat>, v: real, ids: seq<nat>)
    requires BuiltFrom(tasks, stored, v, ids) && KeepsDone(tasks, tasks')
    ensures BuiltFrom(tasks', stored, v, ids)
  {
    assert Averages(tasks', ids) == Averages(tasks, ids);
  }

  lemma HistoryStays(s: State, tasks': seq<Task>)
    requires Provenance(s) && KeepsDone(s.tasks, tasks')
    ensures AllDone(tasks', s.stored) && HistoryBuilt(s.(tasks := tasks'))
  {
    forall m | 0 <= m <= |s.stored|
      ensures BuiltFrom(tasks', s.stored[..m], s.voltages[m], s.chains[m])
    {
      BuiltStays(s.tasks, tasks', s.stored[..m], s.voltages[m], s.chains[m]);
    }
  }

  /** A store extends what it saw by its own task. */
  lemma BuiltByStore(s: State, i: nat)
    requires Provenance(s) && Stores(s, Store(i))
    ensures var s' := Stored(s, i);
            BuiltFrom(s'.tasks, s.stored + [i], s'.latest, ChainAt(s, s.tasks[i].at) + [i])
  {
    var t := s.tasks[i];
    var ids, tasks' := s.chains[t.at], Stored(s, i).tasks;
    BuiltStays(s.tasks, tasks', s.stored[..t.at], t.seen, ids);
    SubsequenceOfPrefix(ids, s.stored, t.at);
    SubsequenceSnoc(ids, s.stored, i);
    assert Averages(tasks', ids + [i]) == Averages(tasks', ids) + [t.average];
    E.FoldSnoc(0.0, Averages(tasks', ids), t.average);
  }

  lemma StoreKeepsProvenance(s: State, i: nat)
    requires Provenance(s) && Stores(s, Store(i))
    ensures Provenance(Stored(s, i))
  {
    var s', n := Stored(s, i), |s.stored|;
    HistoryStays(s, s'.tasks);
    BuiltByStore(s, i);
    assert s'.stored[..n + 1] == s'.stored;
    forall m | 0 <= m <= n
      ensures BuiltFrom(s'.tasks, s'.stored[..m], s'.voltages[m], s'.chains[m])
    {
      assert s'.stored[..m] == s.stored[..m];
      assert BuiltFrom(s'.tasks, s.stored[..m], s.voltages[m], s.chains[m]);
    }
  }

  lemma StepKeepsProvenance(c: S.Calibration, s: State, e: Event)
    requires Provenance(s)
    ensures Provenance(Step(c, s, e))
  {
    if Stores(s, e) {
      StoreKeepsProvenance(s, e.task);
    } else {
      HistoryStays(s, Step(c, s, e).tasks);
    }
  }

  /**
   * Under every interleaving of any number of tasks, lost updates included, the voltage is and always
   * was the sequential filter run over the averages of some of the tasks that stored, in store order.
   */
  lemma {:induction false} VoltageIsFilterOfSomeTasks(c: S.Calibration, es: seq<Event>)
    ensures Provenance(Run(c, es))
  {
    if es != [] {
      VoltageIsFilterOfSomeTasks(c, es[..|es| - 1]);
      StepKeepsProvenance(c, Run(c, es[..|es| - 1]), es[|es| - 1]);
    }
  }

  // ---------- how many updates are lost ----------

  /** Between any task's load and store at most k other tasks store. */
  predicate OvertakenBy(c: S.Calibration, es: seq<Event>, k: nat) {
    es == [] ||
    (var s, e := Run(c, es[..|es| - 1]), es[|es| - 1];
     OvertakenBy(c, es[..|es| - 1], k) && (Stores(s, e) ==> |s.stored| - s.tasks[e.task].at <= k))
  }

  /**
   * No update is lost if and only if no store falls between another task's load and store; then the
   * voltage is the filter over all tasks in store order.
   */
  lemma {:induction false} NoUpdateLostIff(c: S.Calibration, es: seq<Event>)
    ensures var s := Run(c, es);
            && (Chain(s) == s.stored <==> OvertakenBy(c, es, 0))
            && (OvertakenBy(c, es, 0) ==> s.latest == E.Fold(0.0, Averages(s.tasks, s.stored)))
  {
    VoltageIsFilterOfSomeTasks(c, es);
    var s' := Run(c, es);
    assert s'.stored[..|s'.stored|] == s'.stored;
    if es != [] {
      var n := |es| - 1;
      NoUpdateLostIff(c, es[..n]);
      VoltageIsFilterOfSomeTasks(c, es[..n]);
      LostByStep(c, Run(c, es[..n]), es[n]);
    }
  }

  /** A step loses an update, or follows a loss, exactly if it stores over another store or if one was lost before. */
  lemma LostByStep(c: S.Calibration, s: State, e: Event)
    requires Provenance(s)
    ensures var s' := Step(c, s, e);
            Chain(s') == s'.stored <==> Chain(s) == s.stored && (Stores(s, e) ==> s.tasks[e.task].at == |s.stored|)
  {
    if Stores(s, e) {
      var at := s.tasks[e.task].at;
      var used := s.chains[at];
      assert (used + [e.task])[..|used|] == used && (s.stored + [e.task])[..|s.stored|] == s.stored;
      assert BuiltFrom(s.tasks, s.stored[..at], s.voltages[at], used);
      SubsequenceLength(used, s.stored[..at]);
    }
  }

  /** The tasks behind the voltage after m stores: the m-th store, and those behind one of the k + 1 voltages before it. */
  ghost predicate LinkedAt(s: State, m: nat, k: nat)
    requires 0 < m <= |s.stored| < |s.chains|
  {
    exists at: nat :: m - 1 - k <= at < m && s.chains[m] == s.chains[at] + [s.stored[m - 1]]
  }

  ghost predicate Linked(s: State, k: nat) {
    |s.chains| == |s.stored| + 1 && s.chains[0] == [] && forall m :: 0 < m <= |s.stored| ==> LinkedAt(s, m, k)
  }

  lemma OldLinkStays(c: S.Calibration, s: State, e: Event, k: nat, m: nat)
    requires Linked(s, k) && 0 < m <= |s.stored|
    ensures var s' := Step(c, s, e);
            |s.stored| <= |s'.stored| < |s'.chains| && LinkedAt(s', m, k)
  {
    var s' := Step(c, s, e);
    assert LinkedAt(s, m, k);
    var at: nat :| m - 1 - k <= at < m && s.chains[m] == s.chains[at] + [s.stored[m - 1]];
    assert s'.chains[m] == s'.chains[at] + [s'.stored[m - 1]];
  }

  lemma StoreLinks(s: State, i: nat, k: nat)
    requires Provenance(s) && Stores(s, Store(i)) && |s.stored| - s.tasks[i].at <= k
    ensures LinkedAt(Stored(s, i), |s.stored| + 1, k)
  {
    var s', at, m := Stored(s, i), s.tasks[i].at, |s.stored| + 1;
    assert s'.chains[m] == s'.chains[at] + [s'.stored[m - 1]];
  }

  lemma StepKeepsLinked(c: S.Calibration, s: State, e: Event, k: nat)
    requires Provenance(s) && Linked(s, k)
    requires Stores(s, e) ==> |s.stored| - s.tasks[e.task].at <= k
    ensures Linked(Step(c, s, e), k)
  {
    var s' := Step(c, s, e);
    if Stores(s, e) {
      StoreLinks(s, e.task, k);
    }
    forall m | 0 < m <= |s'.stored|
      ensures LinkedAt(s', m, k)
    {
      if m <= |s.stored| {
        OldLinkStays(c, s, e, k, m);
      }
    }
  }

  lemma {:induction false} RunIsLinked(c: S.Calibration, es: seq<Event>, k: nat)
    requires OvertakenBy(c, es, k)
    ensures Linked(Run(c, es), k)
  {
    if es != [] {
      var n := |es| - 1;
      RunIsLinked(c, es[..n], k);
      VoltageIsFilterOfSomeTasks(c, es[..n]);
      StepKeepsLinked(c, Run(c, es[..n]), es[n], k);
    }
  }

  /** If no task is overtaken more than k times, at least every (k + 1)-th update is retained. */
  lemma {:induction false} RetainedUpdates(s: State, k: nat, m: nat)
    requires Linked(s, k) && m <= |s.stored|
    ensures |s.chains[m]| * (k + 1) >= m
  {
    if m > 0 {
      assert LinkedAt(s, m, k);
      var at: nat :| m - 1 - k <= at < m && s.chains[m] == s.chains[at] + [s.stored[m - 1]];
      RetainedUpdates(s, k, at);
      S.OneMore(|s.chains[at]|, k + 1);
    }
  }

  // ---------- bounds on the voltage, and lost updates ----------

  /** The block averages that tasks finish on a run all lie in [lo, hi]. */
  predicate BlocksWithin(es: seq<Event>, lo: real, hi: real) {
    forall k :: 0 <= k < |es| && es[k].FinishBlock? ==> lo <= es[k].average <= hi
  }

  predicate TasksWithin(ts: seq<Task>, lo: real, hi: real) {
    forall i :: 0 <= i < |ts| && !ts[i].Sampling? ==> lo <= ts[i].average <= hi
  }

  lemma {:induction false} TaskAveragesWithin(c: S.Calibration, es: seq<Event>, lo: real, hi: real)
    requires BlocksWithin(es, lo, hi)
    ensures TasksWithin(Run(c, es).tasks, lo, hi)
  {
    if es != [] {
      var n := |es| - 1;
      assert forall k :: 0 <= k < n ==> es[..n][k] == es[k];
      TaskAveragesWithin(c, es[..n], lo, hi);
      assert es[n].FinishBlock? ==> lo <= es[n].average <= hi;
    }
  }

  /** Whatever the interleaving, the voltage stays in every interval holding 0 and all block averages. */
  lemma VoltageInHull(c: S.Calibration, es: seq<Event>, lo: real, hi: real)
    requires lo <= 0.0 <= hi && BlocksWithin(es, lo, hi)
    ensures lo <= Run(c, es).latest <= hi
  {
    var s := Run(c, es);
    VoltageIsFilterOfSomeTasks(c, es);
    TaskAveragesWithin(c, es, lo, hi);
    var ids := Chain(s);
    var xs := Averages(s.tasks, ids);
    assert BuiltFrom(s.tasks, s.stored[..|s.stored|], s.latest, ids);
    forall k | 0 <= k < |xs|
      ensures lo <= xs[k] <= hi
    {
      assert s.tasks[ids[k]].Done?;
    }
    E.StaysInHull(0.0, xs, lo, hi);
  }

  /**
   * Two tasks that have both loaded: once the first stores and then the second, the voltage is what
   * the second alone makes of the value it saw, and nothing of the first remains.
   */
  lemma LostUpdate(c: S.Calibration, s: State, i: nat, j: nat)
    requires Provenance(s) && i != j && Stores(s, Store(i)) && Stores(s, Store(j))
    ensures var s' := Step(c, Step(c, s, Store(i)), Store(j));
            && s'.latest == E.Ema(s.tasks[j].seen, s.tasks[j].average)
            && i !in Chain(s') && s'.stored == s.stored + [i, j]
  {
    var at := s.tasks[j].at;
    assert BuiltFrom(s.tasks, s.stored[..at], s.voltages[at], s.chains[at]);
    assert s.stored + [i] + [j] == s.stored + [i, j];
  }

  // ---------- what a scan caches ----------

  predicate CurrentFrom(s: State, k: nat) {
    k < |s.voltages| && s.current == S.Round2(S.Current(s.voltages[k]))
  }

  predicate LevelFrom(c: S.Calibration, s: State, k: nat) {
    k < |s.voltages| && s.level == S.Round2(S.Level(c, s.voltages[k]))
  }

  predicate VolumeFrom(c: S.Calibration, s: State, k: nat) {
    k < |s.voltages| && s.volume == S.Round2(S.Volume(c, s.voltages[k]))
  }

  /** The reads a scan has made so far each saw the voltage at some store count, in order. */
  predicate ScanSound(c: S.Calibration, s: State) {
    var over := s.pc.Idle? && s.tasks != [];
    && |s.voltages| == |s.stored| + 1 && s.latest == s.voltages[|s.stored|]
    && s.startAt <= |s.stored|
    && (s.pc.AtLevel? || s.pc.AtVolume? || over ==> s.startAt <= s.currentAt <= |s.stored| && CurrentFrom(s, s.currentAt))
    && (s.pc.AtVolume? || over ==> s.currentAt <= s.levelAt <= |s.stored| && LevelFrom(c, s, s.levelAt))
    && (over ==> s.levelAt <= s.volumeAt <= |s.stored| && VolumeFrom(c, s, s.volumeAt))
  }

  lemma StepKeepsScan(c: S.Calibration, s: State, e: Event)
    requires ScanSound(c, s)
    ensures ScanSound(c, Step(c, s, e))
  {
    if Stores(s, e) {
      var s' := Step(c, s, e);
      assert forall k :: 0 <= k < |s.voltages| ==> s'.voltages[k] == s.voltages[k];
    }
  }

  /** On every interleaving a scan's three values come from three points of the voltage's history, in order. */
  lemma {:induction false} ScanReadsInOrder(c: S.Calibration, es: seq<Event>)
    ensures ScanSound(c, Run(c, es))
  {
    if es != [] {
      ScanReadsInOrder(c, es[..|es| - 1]);
      StepKeepsScan(c, Run(c, es[..|es| - 1]), es[|es| - 1]);
    }
  }

  /** Does a reading taken as the k-th of the scan (0, 1, 2) use the voltage from before or after the split? */
  function SplitAt(s: State, split: nat, k: nat): nat {
    if k < split then s.startAt else s.volumeAt
  }

  /** The readings before the split come from the old voltage, the rest from the new one. */
  predicate SplitReadings(c: S.Calibration, s: State, split: nat) {
    && split <= 3 && CurrentFrom(s, SplitAt(s, split, 0))
    && LevelFrom(c, s, SplitAt(s, split, 1)) && VolumeFrom(c, s, SplitAt(s, split, 2))
  }

  lemma SoundScanSplits(c: S.Calibration, s: State)
    requires ScanSound(c, s) && s.pc.Idle? && s.tasks != [] && s.volumeAt <= s.startAt + 1
    ensures exists split: nat :: SplitReadings(c, s, split)
  {
    var split: nat := if s.currentAt == s.volumeAt then 0 else if s.levelAt == s.volumeAt then 1 else 2;
    assert SplitAt(s, split, 0) == s.currentAt;
    assert SplitAt(s, split, 1) == s.levelAt;
    assert SplitAt(s, split, 2) == s.volumeAt;
    assert SplitReadings(c, s, split);
  }

  /**
   * If at most one task stores during a finished scan, there is a split such that the readings before
   * it (in the order current, level, volume) come from the old voltage and the rest from the new one.
   */
  lemma ScanSplits(c: S.Calibration, es: seq<Event>)
    requires var s := Run(c, es); s.pc.Idle? && s.tasks != [] && s.volumeAt <= s.startAt + 1
    ensures exists split: nat :: SplitReadings(c, Run(c, es), split)
  {
    ScanReadsInOrder(c, es);
    SoundScanSplits(c, Run(c, es));
  }
}
