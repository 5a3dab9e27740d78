/** Runs: what waiting guarantees, and why every call returns. */
module EventProgress {
  import opened EventBlocks
  import opened Wrappers
  import opened EventStore
  import opened EventThreads
  import opened EventInvariant

  // ---- Runs ----------------------------------------------------------------------------------

  /** The steps lead from `s` to `s'`. */
  ghost predicate Runs(s: State, steps: seq<Step>, s': State)
    requires Inv(s)
    decreases |steps|
  {
    if steps == [] then s' == s
    else
      && Enabled(s, steps[0])
      && (StepKeepsInv(s, steps[0]); Runs(Next(s, steps[0]), steps[1..], s'))
  }

  /** The invariant holds at the end of every run, however the threads were interleaved and however
      often writing failed. */
  lemma {:induction false} RunKeepsInv(s: State, steps: seq<Step>, s': State)
    requires Inv(s) && Runs(s, steps, s')
    ensures Inv(s')
    decreases |steps|
  {
    if steps != [] {
      StepKeepsInv(s, steps[0]);
      RunKeepsInv(Next(s, steps[0]), steps[1..], s');
    }
  }

  /** Over every run: the blocks in the order they were handed on, followed by the current one, spell
      the events that a stream has accepted, in order, and each of these is in exactly one place: in
      the current block, in a block that is being written, or in one that is stored. */
  lemma ConservationOverRuns(s: State, steps: seq<Step>, s': State, key: Key, e: nat)
    requires Initial(s) && (InitialInv(s); Runs(s, steps, s'))
    requires key in s'.sh.accepted && e < |s'.sh.accepted[key]|
    ensures key in s'.sh.writers && InOnePlace(s'.sh, key, e)
    ensures s'.sh.accepted[key] == Events(BlocksOf(s'.sh.disk.sent, key)) + s'.sh.writers[key].events
  {
    InitialInv(s);
    RunKeepsInv(s, steps, s');
    hide Initial, Runs;
    Conservation(s'.sh, key, e);
    hide SharedOk, InOnePlace;
  }

  /** A step moves the disk on and takes no event away. */
  lemma StepMovesOn(s: State, step: Step) returns (d: int)
    requires Inv(s) && Enabled(s, step)
    ensures var sh' := Next(s, step).sh;
            && DiskMoves(s.sh.disk, sh'.disk, d)
            && s.sh.writers.Keys <= sh'.writers.Keys
            && forall key :: AcceptedAt(s.sh, key) <= AcceptedAt(sh', key)
  {
    d := -1;
    match step {
      case Begin(t) =>
        BegunOk(s.sh, s.threads[t], s.threads[t].todo[0]);
      case Stream(t, stream, idle) =>
        var section := s.threads[t].driver.value;
        StreamedMoves(s.sh, section, stream, idle);
        d := section.driver;
      case WriteSucceeds(id) => WriteMoves(s.sh.disk, id);
      case AddsMetadata(id) => AddMetadataMoves(s.sh.disk, id);
      case Finishes(id) => FinishMoves(s.sh.disk, id);
      case _ =>
    }
  }

  /** What has been handed on and what is durable stays so for the rest of the run. */
  lemma {:induction false} AchievementsStay(s: State, steps: seq<Step>, s': State, key: Key, n: nat)
    requires Inv(s) && Runs(s, steps, s')
    ensures HandedOn(s.sh.disk, key, n) ==> HandedOn(s'.sh.disk, key, n)
    ensures Durable(s.sh.disk, key, n) ==> Durable(s'.sh.disk, key, n)
    ensures key in s.sh.writers ==> key in s'.sh.writers
    decreases |steps|
  {
    if steps != [] {
      StepKeepsInv(s, steps[0]);
      var d := StepMovesOn(s, steps[0]);
      var next := Next(s, steps[0]);
      hide DiskMoves;
      if HandedOn(s.sh.disk, key, n) {
        HandedOnStays(s.sh.disk, next.sh.disk, d, key, n);
      }
      if Durable(s.sh.disk, key, n) {
        DurableStays(s.sh.disk, next.sh.disk, d, key, n);
      }
      AchievementsStay(next, steps[1..], s', key, n);
    }
  }

  // ---- The barriers --------------------------------------------------------------------------

  /** Some thread has just finished this work on the driver and is about to let go of its lock. */
  ghost predicate About(s: State, d: nat, work: Work) {
    exists t :: 0 <= t < |s.threads| && s.threads[t].driver == Some(Section(d, work, {}))
  }

  lemma FlushedIsHandedOn(s: State, key: Key)
    requires Inv(s) && key in s.sh.writers && About(s, key.driver, Flushing)
    ensures HandedOn(s.sh.disk, key, |s.sh.accepted[key]|)
  {
    var t :| 0 <= t < |s.threads| && s.threads[t].driver == Some(Section(key.driver, Flushing, {}));
    assert ThreadOk(s.sh, s.threads[t]);
    assert DealtWith(s.sh, Flushing, key);
    hide SharedOk, ThreadOk;
    EmptyMeansHandedOn(s.sh, key, |s.sh.accepted[key]|);
  }

  lemma WaitedHasNoJobs(s: State, key: Key)
    requires Inv(s) && key in s.sh.writers && About(s, key.driver, Waiting)
    ensures NoJobs(s.sh.disk, key)
  {
    var t :| 0 <= t < |s.threads| && s.threads[t].driver == Some(Section(key.driver, Waiting, {}));
    assert ThreadOk(s.sh, s.threads[t]);
    assert DealtWith(s.sh, Waiting, key);
  }

  /** Every event that a driver's stream accepted before a flush of the driver is stored, with its
      metadata, once a wait that ends after that flush returns, whatever else went on meanwhile. */
  lemma FlushThenWaitIsDurable(s: State, steps: seq<Step>, s': State, key: Key)
    requires Inv(s) && Runs(s, steps, s') && key in s.sh.writers
    requires About(s, key.driver, Flushing) && About(s', key.driver, Waiting)
    ensures Durable(s'.sh.disk, key, |s.sh.accepted[key]|)
  {
    var n := |s.sh.accepted[key]|;
    FlushedIsHandedOn(s, key);
    AchievementsStay(s, steps, s', key, n);
    RunKeepsInv(s, steps, s');
    WaitedHasNoJobs(s', key);
    assert DiskOk(s'.sh.disk);
    hide Inv, Runs;
    NoJobsMeansDurable(s'.sh.disk, key, n);
  }

  /** Thread `t` holds the store's lock throughout. */
  ghost predicate HoldsStoreThroughout(s: State, steps: seq<Step>, t: nat)
    requires Inv(s)
    decreases |steps|
  {
    && t < |s.threads| && s.threads[t].store.Some?
    && (steps == [] ||
        (&& Enabled(s, steps[0])
         && (StepKeepsInv(s, steps[0]); HoldsStoreThroughout(Next(s, steps[0]), steps[1..], t))))
  }

  lemma SinceStep(s: State, step: Step, t: nat)
    requires Inv(s) && Enabled(s, step) && t < |s.threads| && s.threads[t].store.Some?
    requires Next(s, step).threads[t].store.Some?
    ensures Next(s, step).threads[t].store.value.since == s.threads[t].store.value.since
    ensures Next(s, step).threads[t].store.value.phase == TickPhase <==> s.threads[t].store.value.phase == TickPhase
  {
    hide Inv;
  }

  lemma {:induction false} SinceStays(s: State, steps: seq<Step>, s': State, t: nat)
    requires Inv(s) && Runs(s, steps, s') && HoldsStoreThroughout(s, steps, t)
    ensures t < |s'.threads| && s'.threads[t].store.Some?
    ensures s'.threads[t].store.value.since == s.threads[t].store.value.since
    ensures s'.threads[t].store.value.phase == TickPhase <==> s.threads[t].store.value.phase == TickPhase
    decreases |steps|
  {
    if steps != [] {
      StepKeepsInv(s, steps[0]);
      SinceStep(s, steps[0], t);
      hide Inv, Enabled, Next;
      SinceStays(Next(s, steps[0]), steps[1..], s', t);
    }
  }

  /** A flush of the whole store that has dealt with all drivers has made its census durable. */
  lemma CensusIsDurable(s: State, t: nat, key: Key)
    requires Inv(s) && Enabled(s, Advance(t)) && s.threads[t].store.value.phase == WaitPhase
    requires key in s.threads[t].store.value.since
    ensures Durable(s.sh.disk, key, s.threads[t].store.value.since[key])
  {
    var thread := s.threads[t];
    assert ThreadOk(s.sh, thread);
    assert !Outstanding(thread, thread.store.value, key.driver);
  }

  /** Thread `t` is about to let go of the store's lock. */
  predicate LetsGo(s: State, t: nat)
    requires Inv(s)
  {
    Enabled(s, Advance(t)) && Next(s, Advance(t)).threads[t].store.None?
  }

  /** That is only after waiting, unless the lock was taken for a tick. */
  lemma LetsGoAfterWaiting(s: State, t: nat)
    requires Inv(s) && LetsGo(s, t)
    ensures Enabled(s, Advance(t)) && s.threads[t].store.value.phase in {WaitPhase, TickPhase}
  {
    hide Inv;
  }

  /** A flush of the whole store returns only when every event that any listed driver had accepted
      before it began is stored, with its metadata. */
  lemma StoreFlushIsDurable(s: State, t: nat, steps: seq<Step>, s': State, key: Key)
    requires Inv(s) && Enabled(s, Begin(t)) && s.threads[t].todo[0] == FlushStore
    requires key in s.sh.accepted && key.driver in Listed(s.sh)
    requires Inv(Next(s, Begin(t))) && Runs(Next(s, Begin(t)), steps, s')
    requires HoldsStoreThroughout(Next(s, Begin(t)), steps, t)
    requires Inv(s') && LetsGo(s', t)
    ensures Durable(s'.sh.disk, key, |s.sh.accepted[key]|)
  {
    var begun := Next(s, Begin(t));
    assert begun.threads[t].store.value == StoreSection(FlushPhase, Listed(s.sh), Census(s.sh));
    hide Inv, Enabled, Next, Runs, HoldsStoreThroughout, LetsGo;
    SinceStays(begun, steps, s', t);
    LetsGoAfterWaiting(s', t);
    CensusIsDurable(s', t, key);
  }

  // ---- No deadlock ---------------------------------------------------------------------------

  predicate AllDone(s: State) {
    && s.sh.disk.jobs == map[]
    && forall t :: 0 <= t < |s.threads| ==>
         s.threads[t].todo == [] && s.threads[t].driver.None? && s.threads[t].store.None?
  }

  /** While anything is left to do, somebody can do something other than fail to write. */
  lemma SomebodyCanMove(s: State) returns (step: Step)
    requires Inv(s) && !AllDone(s)
    ensures Enabled(s, step) && !step.WriteFails?
  {
    var disk := s.sh.disk;
    if disk.jobs != map[] {
      var id :| id in disk.jobs;
      return match disk.jobs[id]
        case Writing => WriteSucceeds(id)
        case Adding => AddsMetadata(id)
        case Finishing => Finishes(id);
    }
    if t :| 0 <= t < |s.threads| && s.threads[t].driver.Some? {
      var section := s.threads[t].driver.value;
      if section.left == {} {
        return Leave(t);
      }
      var stream :| stream in section.left;
      return Stream(t, stream, false);
    }
    // Now every driver's lock is free
    if t :| 0 <= t < |s.threads| && s.threads[t].store.Some? {
      var store := s.threads[t].store.value;
      if store.left == {} {
        return Advance(t);
      }
      var d :| d in store.left;
      return Enter(t, d);
    }
    // Now every lock is free
    var t :| 0 <= t < |s.threads| && s.threads[t].todo != [];
    return Begin(t);
  }

  // ---- No endless run ------------------------------------------------------------------------

  function CallsLeft(thread: Thread): nat {
    |thread.todo|
  }

  function PhasesLeft(thread: Thread): nat {
    if thread.store.None? then 0 else if thread.store.value.phase == FlushPhase then 2 else 1
  }

  function DriversLeft(thread: Thread): nat {
    if thread.store.None? then 0 else |thread.store.value.left|
  }

  function StreamsLeft(thread: Thread): nat {
    if thread.driver.None? then 0 else 1 + |thread.driver.value.left|
  }

  function Total(threads: seq<Thread>, measure: Thread -> nat): nat {
    if threads == [] then 0 else measure(threads[0]) + Total(threads[1..], measure)
  }

  lemma {:induction false} TotalUpdate(threads: seq<Thread>, measure: Thread -> nat, t: nat, thread: Thread)
    requires t < |threads|
    ensures Total(threads[t := thread], measure) == Total(threads, measure) - measure(threads[t]) + measure(thread)
  {
    var updated := threads[t := thread];
    if t == 0 {
      assert updated[1..] == threads[1..];
    } else {
      assert updated[1..] == threads[1..][t - 1 := thread];
      TotalUpdate(threads[1..], measure, t - 1, thread);
    }
  }

  /** What the background writers have left to do: each job is counted once for every stage that it
      has yet to pass. */
  function JobsLeft(jobs: map<nat, Phase>): nat {
    |jobs.Keys|
    + |set id | id in jobs && jobs[id] != Finishing|
    + |set id | id in jobs && jobs[id] == Writing|
  }

  /** What is left to do: calls, stages of store flushes, drivers and streams in locked sections, and
      background writers, in this order of weight. */
  datatype Rank = Rank(calls: nat, phases: nat, drivers: nat, streams: nat, jobs: nat)

  function RankOf(s: State): Rank {
    Rank(Total(s.threads, CallsLeft), Total(s.threads, PhasesLeft), Total(s.threads, DriversLeft),
         Total(s.threads, StreamsLeft), JobsLeft(s.sh.disk.jobs))
  }

  predicate Below(a: Rank, b: Rank) {
    || a.calls < b.calls
    || (a.calls == b.calls && a.phases < b.phases)
    || (a.calls == b.calls && a.phases == b.phases && a.drivers < b.drivers)
    || (a.calls == b.calls && a.phases == b.phases && a.drivers == b.drivers && a.streams < b.streams)
    || (a.calls == b.calls && a.phases == b.phases && a.drivers == b.drivers && a.streams == b.streams && a.jobs < b.jobs)
  }

  lemma TotalsUpdate(threads: seq<Thread>, t: nat, thread: Thread)
    requires t < |threads|
    ensures var updated := threads[t := thread];
            && Total(updated, CallsLeft) == Total(threads, CallsLeft) - CallsLeft(threads[t]) + CallsLeft(thread)
            && Total(updated, PhasesLeft) == Total(threads, PhasesLeft) - PhasesLeft(threads[t]) + PhasesLeft(thread)
            && Total(updated, DriversLeft) == Total(threads, DriversLeft) - DriversLeft(threads[t]) + DriversLeft(thread)
            && Total(updated, StreamsLeft) == Total(threads, StreamsLeft) - StreamsLeft(threads[t]) + StreamsLeft(thread)
  {
    TotalUpdate(threads, CallsLeft, t, thread);
    TotalUpdate(threads, PhasesLeft, t, thread);
    TotalUpdate(threads, DriversLeft, t, thread);
    TotalUpdate(threads, StreamsLeft, t, thread);
  }

  lemma Smaller<T>(a: set<T>, b: set<T>, x: T)
    requires a <= b && x in b && x !in a
    ensures |a| < |b|
  {
    assert b == a + (b - a) && x in b - a;
  }

  lemma JobProgresses(jobs: map<nat, Phase>, id: nat, jobs': map<nat, Phase>)
    requires id in jobs
    requires || (jobs[id] == Writing && jobs' == jobs[id := Adding])
             || (jobs[id] == Adding && jobs' == jobs[id := Finishing])
             || (jobs[id] == Finishing && jobs' == jobs - {id})
    ensures JobsLeft(jobs') < JobsLeft(jobs)
  {
    var a, a' := jobs.Keys, jobs'.Keys;
    var b, b' := (set i | i in jobs && jobs[i] != Finishing), (set i | i in jobs' && jobs'[i] != Finishing);
    var c, c' := (set i | i in jobs && jobs[i] == Writing), (set i | i in jobs' && jobs'[i] == Writing);
    match jobs[id] {
      case Writing =>
        assert a' == a && b' == b;
        Smaller(c', c, id);
      case Adding =>
        assert a' == a && c' == c;
        Smaller(b', b, id);
      case Finishing =>
        assert b' == b && c' == c;
        Smaller(a', a, id);
    }
  }

  /** Every step but a failed write takes something off what is left to do, so a run has only
      finitely many of them. */
  lemma StepMakesProgress(s: State, step: Step)
    requires Inv(s) && Enabled(s, step) && !step.WriteFails?
    ensures Below(RankOf(Next(s, step)), RankOf(s))
  {
    if step.Begin? || step.Stream? || step.Leave? || step.Enter? || step.Advance? {
      var t := step.t;
      var thread, thread' := s.threads[t], Next(s, step).threads[t];
      assert Next(s, step).threads == s.threads[t := thread'];
      TotalsUpdate(s.threads, t, thread');
      ThreadProgresses(s, step);
    } else {
      JobProgresses(s.sh.disk.jobs, step.id, Next(s, step).sh.disk.jobs);
    }
  }

  /** The part of the rank that belongs to the thread that moves. */
  lemma ThreadProgresses(s: State, step: Step)
    requires Inv(s) && Enabled(s, step)
    requires step.Begin? || step.Stream? || step.Leave? || step.Enter? || step.Advance?
    ensures var a, b := Next(s, step).threads[step.t], s.threads[step.t];
            || CallsLeft(a) < CallsLeft(b)
            || (CallsLeft(a) == CallsLeft(b) && PhasesLeft(a) < PhasesLeft(b))
            || (CallsLeft(a) == CallsLeft(b) && PhasesLeft(a) == PhasesLeft(b) && DriversLeft(a) < DriversLeft(b))
            || (CallsLeft(a) == CallsLeft(b) && PhasesLeft(a) == PhasesLeft(b) && DriversLeft(a) == DriversLeft(b)
                && StreamsLeft(a) < StreamsLeft(b))
  {
    match step {
      case Begin(t) => BeginUsesACall(s, t);
      case Stream(t, stream, idle) => StreamUsesAStream(s, t, stream, idle);
      case Enter(t, d) => EnterUsesADriver(s, t, d);
      case _ => hide Inv;
    }
  }

  lemma StreamUsesAStream(s: State, t: nat, stream: string, idle: bool)
    requires Inv(s) && Enabled(s, Stream(t, stream, idle))
    ensures var a, b := Next(s, Stream(t, stream, idle)).threads[t], s.threads[t];
            && CallsLeft(a) == CallsLeft(b) && PhasesLeft(a) == PhasesLeft(b) && DriversLeft(a) == DriversLeft(b)
            && StreamsLeft(a) < StreamsLeft(b)
  {
    hide Inv;
    var left := s.threads[t].driver.value.left;
    Smaller(left - {stream}, left, stream);
  }

  lemma EnterUsesADriver(s: State, t: nat, d: nat)
    requires Inv(s) && Enabled(s, Enter(t, d))
    ensures var a, b := Next(s, Enter(t, d)).threads[t], s.threads[t];
            CallsLeft(a) == CallsLeft(b) && PhasesLeft(a) == PhasesLeft(b) && DriversLeft(a) < DriversLeft(b)
  {
    hide Inv;
    var left := s.threads[t].store.value.left;
    Smaller(left - {d}, left, d);
  }

  lemma BeginUsesACall(s: State, t: nat)
    requires Inv(s) && Enabled(s, Begin(t))
    ensures CallsLeft(Next(s, Begin(t)).threads[t]) == CallsLeft(s.threads[t]) - 1
  {
    hide Inv;
  }

  /** From every reachable state the threads and background writers can run until every call has
      returned and every block is stored. */
  lemma EverythingCompletes(s: State) returns (steps: seq<Step>, s': State)
    requires Inv(s)
    ensures Runs(s, steps, s') && AllDone(s')
    decreases RankOf(s).calls, RankOf(s).phases, RankOf(s).drivers, RankOf(s).streams, RankOf(s).jobs
  {
    if AllDone(s) {
      return [], s;
    }
    var step := SomebodyCanMove(s);
    StepKeepsInv(s, step);
    StepMakesProgress(s, step);
    var rest;
    rest, s' := EverythingCompletes(Next(s, step));
    steps := [step] + rest;
    assert steps[1..] == rest;
  }
}
