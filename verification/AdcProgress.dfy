/** What ADC tasks and scans get done: a task that runs through its steps stores its block, whatever runs in between. */
module AdcProgress {
  import E = Ema
  import S = Sensor
  import opened AdcTasks

  // ---------- left alone ----------

  /** A task left alone after its creation: the voltage takes one filter update with its block, and the task has stored. */
  lemma UndisturbedTask(c: S.Calibration, s: State, i: nat, average: real)
    requires i < |s.tasks| && s.tasks[i].Sampling?
    ensures var s' := Step(c, Step(c, Step(c, s, FinishBlock(i, average)), Load(i)), Store(i));
            s'.latest == E.Ema(s.latest, average) && s'.stored == s.stored + [i] && s'.tasks[i] == Done(average)
  {}

  /** A scan left alone creates one task, caches what the present voltage means, and ends. */
  lemma UndisturbedScan(c: S.Calibration, s: State, t: real)
    requires s.pc.Idle?
    ensures var s' := Step(c, Step(c, Step(c, Step(c, s, StartScan), ReadCurrent), ReadLevel), ReadVolume);
            var r := S.Scan(c, S.Readings(s.latest, s.current, t, s.level, s.volume), t);
            && s'.pc.Idle? && s'.tasks == s.tasks + [Sampling] && s'.latest == s.latest
            && s'.current == r.current && s'.level == r.level && s'.volume == r.volume
  {}

  // ---------- on every interleaving ----------

  /** How far a task has come. */
  function Stage(t: Task): nat {
    match t
    case Sampling => 0
    case Sampled(_) => 1
    case Loaded(_, _, _) => 2
    case Done(_) => 3
  }

  /** Tasks never go back, and keep their block. */
  predicate Advanced(ts: seq<Task>, ts': seq<Task>) {
    |ts| <= |ts'| &&
    forall i :: 0 <= i < |ts| ==>
      Stage(ts[i]) <= Stage(ts'[i]) && (!ts[i].Sampling? ==> ts'[i].average == ts[i].average)
  }

  lemma StepAdvances(c: S.Calibration, s: State, e: Event)
    ensures Advanced(s.tasks, Step(c, s, e).tasks)
  {}

  lemma {:induction false} RunAdvances(c: S.Calibration, es: seq<Event>, n: nat)
    requires n <= |es|
    ensures Advanced(Run(c, es[..n]).tasks, Run(c, es).tasks)
  {
    if n == |es| {
      assert es[..n] == es;
    } else {
      var front := es[..|es| - 1];
      assert front[..n] == es[..n];
      RunAdvances(c, front, n);
      StepAdvances(c, Run(c, front), es[|es| - 1]);
    }
  }

  lemma RunNext(c: S.Calibration, es: seq<Event>, n: nat)
    requires n < |es|
    ensures Run(c, es[..n + 1]) == Step(c, Run(c, es[..n]), es[n])
  {
    assert es[..n + 1][..n] == es[..n];
  }

  predicate DoneIffStored(s: State) {
    forall i :: 0 <= i < |s.tasks| ==> (s.tasks[i].Done? <==> i in s.stored)
  }

  lemma StepStoresDone(c: S.Calibration, s: State, e: Event)
    requires DoneIffStored(s) && AllDone(s.tasks, s.stored)
    ensures DoneIffStored(Step(c, s, e))
  {
    var s' := Step(c, s, e);
    forall i | 0 <= i < |s'.tasks|
      ensures s'.tasks[i].Done? <==> i in s'.stored
    {
      if i == |s.tasks| {
        assert i !in s.stored;
      }
    }
  }

  /** The tasks that have stored are exactly those that are done. */
  lemma {:induction false} StoredAreDone(c: S.Calibration, es: seq<Event>)
    ensures DoneIffStored(Run(c, es))
  {
    if es != [] {
      StoredAreDone(c, es[..|es| - 1]);
      VoltageIsFilterOfSomeTasks(c, es[..|es| - 1]);
      StepStoresDone(c, Run(c, es[..|es| - 1]), es[|es| - 1]);
    }
  }

  /** After n events of the run, task i exists and has come at least to the stage. */
  predicate HasReached(c: S.Calibration, es: seq<Event>, i: nat, n: nat, stage: nat) {
    n <= |es| && i < |Run(c, es[..n]).tasks| && Stage(Run(c, es[..n]).tasks[i]) >= stage
  }

  /** The event that brings a task to this stage. */
  predicate Brings(e: Event, i: nat, stage: nat) {
    match e
    case FinishBlock(task, _) => task == i && stage == 1
    case Load(task) => task == i && stage == 2
    case Store(task) => task == i && stage == 3
    case _ => false
  }

  /** Its own event brings a task to the next stage if it was at the one before, and there it stays at least. */
  lemma Reaches(c: S.Calibration, es: seq<Event>, i: nat, n: nat, k: nat, stage: nat)
    requires n < k <= |es| && stage > 0 && HasReached(c, es, i, n, stage - 1) && Brings(es[n], i, stage)
    ensures HasReached(c, es, i, k, stage)
  {
    RunNext(c, es, n);
    assert es[..k][..n + 1] == es[..n + 1];
    RunAdvances(c, es[..k], n + 1);
  }

  /** A block delivered to a task that was sampling is the one it keeps. */
  lemma KeepsBlock(c: S.Calibration, es: seq<Event>, i: nat, f: nat)
    requires f < |es| && es[f].FinishBlock? && es[f].task == i
    requires i < |Run(c, es[..f]).tasks| && Run(c, es[..f]).tasks[i].Sampling?
    ensures AverageOf(Run(c, es).tasks, i) == es[f].average
  {
    RunNext(c, es, f);
    RunAdvances(c, es, f + 1);
  }

  /**
   * On every interleaving: a task that exists, then delivers its block, then loads and then stores, with anything in between,
   * is among the tasks that stored; and if it was still sampling, the average it is filtered with is that block's.
   */
  lemma EveryTaskStores(c: S.Calibration, es: seq<Event>, i: nat, average: real, f: nat, l: nat, m: nat)
    requires f < l < m < |es| && es[f] == FinishBlock(i, average) && es[l] == Load(i) && es[m] == Store(i)
    requires i < |Run(c, es[..f]).tasks|
    ensures i in Run(c, es).stored
    ensures Run(c, es[..f]).tasks[i].Sampling? ==> AverageOf(Run(c, es).tasks, i) == average
  {
    assert HasReached(c, es, i, f, 0);
    Reaches(c, es, i, f, l, 1);
    Reaches(c, es, i, l, m, 2);
    Reaches(c, es, i, m, |es|, 3);
    assert es[..|es|] == es;
    StoredAreDone(c, es);
    if Run(c, es[..f]).tasks[i].Sampling? {
      KeepsBlock(c, es, i, f);
    }
  }
}
