/** What removing a driver guarantees, and what happens to events that come too late for it. */
module EventRemoval {
  import opened EventBlocks
  import opened Wrappers
  import opened EventStore
  import opened EventThreads
  import opened EventInvariant
  import opened EventProgress

  // ---- A driver that is not listed -----------------------------------------------------------

  /** The step is the start of a call that takes the driver's lock. */
  predicate CallsDriver(s: State, step: Step, d: nat) {
    && step.Begin? && step.t < |s.threads| && s.threads[step.t].todo != []
    && var thread, op := s.threads[step.t], s.threads[step.t].todo[0];
       (op.Handle? || op.Flush? || op.Wait?) && op.um in thread.held && thread.held[op.um] == d
  }

  /** No thread calls the driver; the store may still flush it. */
  ghost predicate NobodyCalls(s: State, steps: seq<Step>, d: nat)
    requires Inv(s)
    decreases |steps|
  {
    steps == [] ||
    (&& Enabled(s, steps[0]) && !CallsDriver(s, steps[0], d)
     && (StepKeepsInv(s, steps[0]); NobodyCalls(Next(s, steps[0]), steps[1..], d)))
  }

  /** The driver is not listed, and nobody is inside its lock. */
  predicate Forgotten(s: State, d: nat) {
    d < |s.sh.drivers| && d !in Listed(s.sh) && DriverFree(s, d)
  }

  /** Nothing has happened to the stream. */
  ghost predicate Untouched(sh: Shared, sh': Shared, key: Key) {
    && key in sh.writers && key in sh'.writers && sh'.writers[key] == sh.writers[key]
    && AcceptedAt(sh', key) == AcceptedAt(sh, key)
    && BlocksOf(sh'.disk.sent, key) == BlocksOf(sh.disk.sent, key)
  }

  lemma BeginForgets(s: State, t: nat, key: Key)
    requires Inv(s) && Enabled(s, Begin(t)) && Forgotten(s, key.driver) && key in s.sh.writers
    requires !CallsDriver(s, Begin(t), key.driver)
    ensures Forgotten(Next(s, Begin(t)), key.driver) && Untouched(s.sh, Next(s, Begin(t)).sh, key)
  {
    BegunOk(s.sh, s.threads[t], s.threads[t].todo[0]);
    hide Inv;
  }

  lemma StreamForgets(s: State, t: nat, stream: string, idle: bool, key: Key)
    requires Inv(s) && Enabled(s, Stream(t, stream, idle)) && Forgotten(s, key.driver) && key in s.sh.writers
    ensures Forgotten(Next(s, Stream(t, stream, idle)), key.driver)
    ensures Untouched(s.sh, Next(s, Stream(t, stream, idle)).sh, key)
  {
    var section := s.threads[t].driver.value;
    assert !Holds(s.threads[t], key.driver);
    StreamedElsewhere(s.sh, section, stream, idle, key);
    hide Inv, Streamed;
  }

  lemma AcceptElsewhere(sh: Shared, here: Key, event: Event, key: Key)
    requires here.driver < |sh.drivers| && key in sh.writers && here != key && Encoded(WriterAt(sh, here).events)
    ensures Untouched(sh, AcceptInto(sh, here, event), key)
    ensures AcceptInto(sh, here, event).drivers == sh.drivers && AcceptInto(sh, here, event).table == sh.table
  {
    BlocksOfSpawn(sh.disk, here, sh.drivers[here.driver].um.user, Accept(sh.size, WriterAt(sh, here), event).1, key);
    hide Spawn, BlocksOf, Accept;
    assert BlocksOf(sh.disk.sent, key) + [] == BlocksOf(sh.disk.sent, key);
  }

  lemma FlushElsewhere(sh: Shared, here: Key, key: Key)
    requires here in sh.writers && here.driver < |sh.drivers| && key in sh.writers && here != key
    ensures Untouched(sh, FlushStream(sh, here), key)
    ensures FlushStream(sh, here).drivers == sh.drivers && FlushStream(sh, here).table == sh.table
  {
    BlocksOfSpawn(sh.disk, here, sh.drivers[here.driver].um.user, EventBlocks.Flush(sh.writers[here], false).1, key);
    hide Spawn, BlocksOf, EventBlocks.Flush;
    assert BlocksOf(sh.disk.sent, key) + [] == BlocksOf(sh.disk.sent, key);
  }

  lemma StreamedElsewhere(sh: Shared, section: Section, stream: string, idle: bool, key: Key)
    requires SharedOk(sh) && section.driver < |sh.drivers| && key in sh.writers && section.driver != key.driver
    requires section.work.Flushing? || section.work.Ticking? ==> Key(section.driver, stream) in sh.writers
    ensures var sh' := Streamed(sh, section, stream, idle);
            Untouched(sh, sh', key) && sh'.drivers == sh.drivers && sh'.table == sh.table
  {
    hide AcceptInto, FlushStream, SharedOk, Untouched;
    var here := Key(section.driver, stream);
    NothingHappens(sh, key);
    if section.work.Handling? {
      WriterIsEncoded(sh, here);
      AcceptElsewhere(sh, here, section.work.event, key);
    } else if here in sh.writers {
      FlushElsewhere(sh, here, key);
    }
  }

  lemma WriterIsEncoded(sh: Shared, key: Key)
    requires SharedOk(sh)
    ensures Encoded(WriterAt(sh, key).events)
  {
    AcceptedIsOk(sh, key);
  }

  lemma NothingHappens(sh: Shared, key: Key)
    requires key in sh.writers
    ensures Untouched(sh, sh, key)
  {
  }

  lemma EnterForgets(s: State, t: nat, d: nat, key: Key)
    requires Inv(s) && Enabled(s, Enter(t, d)) && Forgotten(s, key.driver) && key in s.sh.writers
    ensures Forgotten(Next(s, Enter(t, d)), key.driver) && Untouched(s.sh, Next(s, Enter(t, d)).sh, key)
  {
    assert ThreadOk(s.sh, s.threads[t]);
    hide Inv, SharedOk;
  }

  lemma LetGoForgets(s: State, step: Step, key: Key)
    requires Inv(s) && Enabled(s, step) && Forgotten(s, key.driver) && key in s.sh.writers
    requires step.Leave? || step.Advance?
    ensures Forgotten(Next(s, step), key.driver) && Untouched(s.sh, Next(s, step).sh, key)
  {
    hide Inv;
  }

  lemma JobForgets(s: State, step: Step, key: Key)
    requires Inv(s) && Enabled(s, step) && Forgotten(s, key.driver) && key in s.sh.writers
    requires step.WriteFails? || step.WriteSucceeds? || step.AddsMetadata? || step.Finishes?
    ensures Forgotten(Next(s, step), key.driver) && Untouched(s.sh, Next(s, step).sh, key)
  {
    hide Inv, BlocksOf;
  }

  /** A driver that is not listed stays so, and nobody finds it. */
  lemma StepForgets(s: State, step: Step, key: Key)
    requires Inv(s) && Enabled(s, step) && Forgotten(s, key.driver) && key in s.sh.writers
    requires !CallsDriver(s, step, key.driver)
    ensures Forgotten(Next(s, step), key.driver) && Untouched(s.sh, Next(s, step).sh, key)
  {
    match step {
      case Begin(t) => BeginForgets(s, t, key);
      case Stream(t, stream, idle) => StreamForgets(s, t, stream, idle, key);
      case Enter(t, d) => EnterForgets(s, t, d, key);
      case Leave(_) => LetGoForgets(s, step, key);
      case Advance(_) => LetGoForgets(s, step, key);
      case _ => JobForgets(s, step, key);
    }
  }

  /** Whatever else goes on, flushes and ticks of the store included, nothing happens to the streams of
      a driver that is not listed unless somebody calls it. */
  lemma {:induction false} ForgottenIsUntouched(s: State, steps: seq<Step>, s': State, key: Key)
    requires Inv(s) && Runs(s, steps, s') && NobodyCalls(s, steps, key.driver)
    requires Forgotten(s, key.driver) && key in s.sh.writers
    ensures Forgotten(s', key.driver) && Untouched(s.sh, s'.sh, key)
    decreases |steps|
  {
    if steps != [] {
      StepKeepsInv(s, steps[0]);
      StepForgets(s, steps[0], key);
      hide Inv, Enabled, Next, Forgotten;
      ForgottenIsUntouched(Next(s, steps[0]), steps[1..], s', key);
    }
  }

  /** All events of a stream have been handed on exactly if its current block is empty. */
  lemma HandedOnIffEmpty(sh: Shared, key: Key)
    requires SharedOk(sh) && key in sh.writers
    ensures HandedOn(sh.disk, key, |sh.accepted[key]|) <==> sh.writers[key].events == []
  {
    assert WriterOk(sh.size, sh.accepted[key], BlocksOf(sh.disk.sent, key), sh.writers[key]);
  }

  lemma DurableIsHandedOn(disk: Disk, key: Key, n: nat)
    requires Durable(disk, key, n)
    ensures HandedOn(disk, key, n)
  {
    var cut: nat :| DurableUpTo(disk, key, n, cut);
    PrefixOfBlocks(disk.sent, key, cut);
  }

  /** If nobody calls a driver after a flush of the whole store has begun, then when that returns, all
      that a stream of the driver had accepted has been handed on exactly if the driver was listed or
      there was nothing to hand on; and if it was listed, all of it is durable. */
  lemma StoreFlushReachesIffListed(s: State, t: nat, steps: seq<Step>, s': State, key: Key)
    requires Inv(s) && Enabled(s, Begin(t)) && s.threads[t].todo[0] == FlushStore
    requires key in s.sh.writers && key in s.sh.accepted && DriverFree(s, key.driver)
    requires Inv(Next(s, Begin(t))) && Runs(Next(s, Begin(t)), steps, s')
    requires HoldsStoreThroughout(Next(s, Begin(t)), steps, t)
    requires NobodyCalls(Next(s, Begin(t)), steps, key.driver)
    requires Inv(s') && LetsGo(s', t)
    ensures var n := |s.sh.accepted[key]|;
            && (HandedOn(s'.sh.disk, key, n) <==> key.driver in Listed(s.sh) || s.sh.writers[key].events == [])
            && (key.driver in Listed(s.sh) ==> Durable(s'.sh.disk, key, n))
  {
    var n := |s.sh.accepted[key]|;
    if key.driver in Listed(s.sh) {
      StoreFlushIsDurable(s, t, steps, s', key);
      DurableIsHandedOn(s'.sh.disk, key, n);
    } else {
      BeginForgets(s, t, key);
      ForgottenIsUntouched(Next(s, Begin(t)), steps, s', key);
      HandedOnIffEmpty(s.sh, key);
    }
    hide Inv, Enabled, Next, Runs, HoldsStoreThroughout, NobodyCalls, LetsGo;
  }

  // ---- What removing a driver guarantees -----------------------------------------------------

  /** Removing a driver: three calls, one after the other. */
  function Removal(um: UserMachine): seq<Op> {
    [Op.Flush(um), Op.Wait(um), Op.Unlist(um)]
  }

  predicate Inside(thread: Thread, d: nat, work: Work) {
    thread.driver.Some? && thread.driver.value.driver == d && thread.driver.value.work == work
  }

  /** What `thread` has achieved for the first `n` events of the stream when it has `left` of the three
      calls left to begin. */
  ghost predicate Progress(disk: Disk, thread: Thread, left: nat, key: Key, n: nat) {
    match left
    case 3 => thread.driver.None?
    case 2 => if thread.driver.Some? then Inside(thread, key.driver, Flushing) else HandedOn(disk, key, n)
    case 1 =>
      if thread.driver.Some? then Inside(thread, key.driver, Waiting) && HandedOn(disk, key, n)
      else Durable(disk, key, n)
    case _ => false
  }

  /** Thread `t` is removing the driver, `rest` being what it is to do afterwards, or is done with it. */
  ghost predicate Removing(s: State, t: nat, um: UserMachine, rest: seq<Op>, key: Key, n: nat) {
    && t < |s.threads| && key in s.sh.writers && n <= |AcceptedAt(s.sh, key)|
    && var thread := s.threads[t];
       var left := |thread.todo| - |rest|;
       left <= 0 ||
       (&& left <= 3 && thread.todo == Removal(um)[3 - left..] + rest
        && um in thread.held && thread.held[um] == key.driver && thread.store.None?
        && Progress(s.sh.disk, thread, left, key, n))
  }

  /** A step that thread `t` does not take. */
  predicate ByOther(step: Step, t: nat) {
    match step
    case Begin(u) => u != t
    case Stream(u, _, _) => u != t
    case Leave(u) => u != t
    case Enter(u, _) => u != t
    case Advance(u) => u != t
    case _ => true
  }

  /** What has been achieved is kept, whoever moves. */
  lemma ProgressStays(s: State, step: Step, thread: Thread, left: nat, key: Key, n: nat)
    requires Inv(s) && Enabled(s, step) && key in s.sh.writers && n <= |AcceptedAt(s.sh, key)|
    requires Progress(s.sh.disk, thread, left, key, n)
    ensures Progress(Next(s, step).sh.disk, thread, left, key, n)
    ensures key in Next(s, step).sh.writers && n <= |AcceptedAt(Next(s, step).sh, key)|
  {
    var d := StepMovesOn(s, step);
    var disk, disk' := s.sh.disk, Next(s, step).sh.disk;
    assert AcceptedAt(s.sh, key) <= AcceptedAt(Next(s, step).sh, key);
    hide Inv, Enabled, Next, DiskMoves;
    if HandedOn(disk, key, n) {
      HandedOnStays(disk, disk', d, key, n);
    }
    if Durable(disk, key, n) {
      DurableStays(disk, disk', d, key, n);
    }
    hide HandedOn, Durable;
  }

  lemma ThreadWaits(s: State, step: Step, t: nat)
    requires Inv(s) && Enabled(s, step) && ByOther(step, t) && t < |s.threads|
    ensures var s' := Next(s, step); t < |s'.threads| && s'.threads[t] == s.threads[t]
  {
    hide Inv;
  }

  lemma StreamGrows(s: State, step: Step, key: Key)
    requires Inv(s) && Enabled(s, step) && key in s.sh.writers
    ensures key in Next(s, step).sh.writers
    ensures |AcceptedAt(s.sh, key)| <= |AcceptedAt(Next(s, step).sh, key)|
  {
    var d := StepMovesOn(s, step);
    assert AcceptedAt(s.sh, key) <= AcceptedAt(Next(s, step).sh, key);
    hide Inv, Enabled, Next, DiskMoves;
  }

  lemma OtherKeepsRemoving(s: State, step: Step, t: nat, um: UserMachine, rest: seq<Op>, key: Key, n: nat)
    requires Inv(s) && Enabled(s, step) && ByOther(step, t) && Removing(s, t, um, rest, key, n)
    ensures Removing(Next(s, step), t, um, rest, key, n)
  {
    ThreadWaits(s, step, t);
    StreamGrows(s, step, key);
    var left := |s.threads[t].todo| - |rest|;
    if left > 0 {
      ProgressStays(s, step, s.threads[t], left, key, n);
    }
    StillRemoving(s, Next(s, step), t, um, rest, key, n);
    hide *;
  }

  lemma StillRemoving(s: State, s': State, t: nat, um: UserMachine, rest: seq<Op>, key: Key, n: nat)
    requires Removing(s, t, um, rest, key, n)
    requires t < |s'.threads| && s'.threads[t] == s.threads[t] && key in s'.sh.writers
    requires |AcceptedAt(s.sh, key)| <= |AcceptedAt(s'.sh, key)|
    requires var left := |s.threads[t].todo| - |rest|; left > 0 ==> Progress(s'.sh.disk, s.threads[t], left, key, n)
    ensures Removing(s', t, um, rest, key, n)
  {
    hide Progress, Removal;
  }

  /** Once the thread is done with removing the driver it stays done. */
  lemma DoneRemoving(s: State, step: Step, t: nat, um: UserMachine, rest: seq<Op>, key: Key, n: nat)
    requires Inv(s) && Enabled(s, step) && !ByOther(step, t) && Removing(s, t, um, rest, key, n)
    requires |s.threads[t].todo| <= |rest|
    ensures Removing(Next(s, step), t, um, rest, key, n)
  {
    StreamGrows(s, step, key);
    TodoShrinks(s, step, t);
    hide Inv, Enabled, Next;
  }

  lemma TodoShrinks(s: State, step: Step, t: nat)
    requires Inv(s) && Enabled(s, step) && t < |s.threads|
    ensures var s' := Next(s, step); t < |s'.threads| && |s'.threads[t].todo| <= |s.threads[t].todo|
  {
    hide Inv;
  }

  /** What beginning a call of a removal does. */
  ghost predicate CallBegun(s: State, s': State, t: nat, um: UserMachine)
    requires t < |s.threads| && s.threads[t].todo != [] && um in s.threads[t].held
  {
    && s'.sh.disk == s.sh.disk && s'.sh.writers == s.sh.writers && s'.sh.accepted == s.sh.accepted
    && t < |s'.threads|
    && var a, b, op := s.threads[t], s'.threads[t], s.threads[t].todo[0];
       && b.todo == a.todo[1..] && b.held == a.held && b.store == a.store
       && (op.Flush? ==> Inside(b, a.held[um], Flushing))
       && (op.Wait? ==> Inside(b, a.held[um], Waiting))
       && (op.Unlist? ==> b.driver.None?)
  }

  lemma CallBegins(s: State, t: nat, um: UserMachine)
    requires Inv(s) && Enabled(s, Begin(t)) && um in s.threads[t].held && s.threads[t].todo[0] in Removal(um)
    ensures CallBegun(s, Next(s, Begin(t)), t, um)
  {
    hide Inv;
  }

  lemma OneCallLess(um: UserMachine, rest: seq<Op>, todo: seq<Op>, left: nat)
    requires 0 < left <= 3 && todo == Removal(um)[3 - left..] + rest
    ensures todo != [] && todo[0] in Removal(um)
    ensures todo[0] == if left == 3 then Op.Flush(um) else if left == 2 then Op.Wait(um) else Op.Unlist(um)
    ensures todo[1..] == Removal(um)[3 - (left - 1)..] + rest
  {
  }

  lemma BegunRemoving(s: State, s': State, t: nat, um: UserMachine, rest: seq<Op>, key: Key, n: nat)
    requires Removing(s, t, um, rest, key, n) && |s.threads[t].todo| > |rest| && s.threads[t].driver.None?
    requires CallBegun(s, s', t, um)
    ensures Removing(s', t, um, rest, key, n)
  {
    OneCallLess(um, rest, s.threads[t].todo, |s.threads[t].todo| - |rest|);
    hide HandedOn, Durable, Removal;
  }

  /** The thread begins one of the three calls. */
  lemma BeginRemoving(s: State, t: nat, um: UserMachine, rest: seq<Op>, key: Key, n: nat)
    requires Inv(s) && Enabled(s, Begin(t)) && Removing(s, t, um, rest, key, n)
    requires |s.threads[t].todo| > |rest|
    ensures Removing(Next(s, Begin(t)), t, um, rest, key, n)
  {
    OneCallLess(um, rest, s.threads[t].todo, |s.threads[t].todo| - |rest|);
    CallBegins(s, t, um);
    BegunRemoving(s, Next(s, Begin(t)), t, um, rest, key, n);
    hide *;
  }

  lemma StreamedRemoving(s: State, s': State, t: nat, um: UserMachine, rest: seq<Op>, key: Key, n: nat)
    requires Removing(s, t, um, rest, key, n) && |s.threads[t].todo| > |rest| && s.threads[t].driver.Some?
    requires SameWork(s, s', t) && key in s'.sh.writers && n <= |AcceptedAt(s'.sh, key)|
    requires Progress(s'.sh.disk, s.threads[t], |s.threads[t].todo| - |rest|, key, n)
    ensures Removing(s', t, um, rest, key, n)
  {
    hide HandedOn, Durable, Removal;
  }

  /** The thread deals with one stream. */
  lemma StreamRemoving(s: State, t: nat, stream: string, idle: bool, um: UserMachine, rest: seq<Op>, key: Key, n: nat)
    requires Inv(s) && Enabled(s, Stream(t, stream, idle)) && Removing(s, t, um, rest, key, n)
    requires |s.threads[t].todo| > |rest|
    ensures Removing(Next(s, Stream(t, stream, idle)), t, um, rest, key, n)
  {
    var step := Stream(t, stream, idle);
    ProgressStays(s, step, s.threads[t], |s.threads[t].todo| - |rest|, key, n);
    StreamKeepsWork(s, t, stream, idle);
    StreamedRemoving(s, Next(s, step), t, um, rest, key, n);
    hide *;
  }

  /** Thread `t` goes on with what it is doing to the driver. */
  ghost predicate SameWork(s: State, s': State, t: nat)
    requires t < |s.threads| && s.threads[t].driver.Some?
  {
    && t < |s'.threads|
    && var a, b := s.threads[t], s'.threads[t];
       && b.todo == a.todo && b.held == a.held && b.store == a.store
       && b.driver.Some? && b.driver.value.driver == a.driver.value.driver && b.driver.value.work == a.driver.value.work
  }

  lemma StreamKeepsWork(s: State, t: nat, stream: string, idle: bool)
    requires Inv(s) && Enabled(s, Stream(t, stream, idle))
    ensures SameWork(s, Next(s, Stream(t, stream, idle)), t)
  {
    hide Inv;
  }

  /** Letting go of a driver after flushing it: its events have been handed on. */
  lemma FlushedUpTo(s: State, t: nat, key: Key, n: nat)
    requires Inv(s) && Enabled(s, Leave(t)) && Inside(s.threads[t], key.driver, Flushing)
    requires key in s.sh.writers && n <= |AcceptedAt(s.sh, key)|
    ensures HandedOn(s.sh.disk, key, n)
  {
    assert s.threads[t].driver == Some(Section(key.driver, Flushing, {}));
    assert About(s, key.driver, Flushing);
    FlushedIsHandedOn(s, key);
    hide Inv;
  }

  /** Letting go of a driver after waiting: what had been handed on is durable. */
  lemma WaitedUpTo(s: State, t: nat, key: Key, n: nat)
    requires Inv(s) && Enabled(s, Leave(t)) && Inside(s.threads[t], key.driver, Waiting)
    requires key in s.sh.writers && HandedOn(s.sh.disk, key, n)
    ensures Durable(s.sh.disk, key, n)
  {
    assert s.threads[t].driver == Some(Section(key.driver, Waiting, {}));
    assert About(s, key.driver, Waiting);
    WaitedHasNoJobs(s, key);
    NoJobsMeansDurable(s.sh.disk, key, n);
    hide *;
  }

  lemma LeaveLetsGo(s: State, t: nat)
    requires Inv(s) && Enabled(s, Leave(t))
    ensures Next(s, Leave(t)) == s.(threads := s.threads[t := s.threads[t].(driver := None)])
  {
  }

  lemma LeftRemoving(s: State, t: nat, um: UserMachine, rest: seq<Op>, key: Key, n: nat)
    requires Removing(s, t, um, rest, key, n) && s.threads[t].driver.Some?
    requires var left := |s.threads[t].todo| - |rest|;
             (left == 2 ==> HandedOn(s.sh.disk, key, n)) && (left == 1 ==> Durable(s.sh.disk, key, n))
    ensures Removing(s.(threads := s.threads[t := s.threads[t].(driver := None)]), t, um, rest, key, n)
  {
    hide HandedOn, Durable, Removal;
  }

  /** Letting go of the driver is what a thread does that is inside it, in one of two of the calls. */
  lemma InsideWhich(s: State, t: nat, um: UserMachine, rest: seq<Op>, key: Key, n: nat)
    requires Removing(s, t, um, rest, key, n) && |s.threads[t].todo| > |rest| && s.threads[t].driver.Some?
    ensures var left, thread := |s.threads[t].todo| - |rest|, s.threads[t];
            && key in s.sh.writers && n <= |AcceptedAt(s.sh, key)|
            && ((left == 2 && Inside(thread, key.driver, Flushing))
                || (left == 1 && Inside(thread, key.driver, Waiting) && HandedOn(s.sh.disk, key, n)))
  {
    hide HandedOn, Durable, Removal;
  }

  /** The thread lets go of the driver. */
  lemma LeaveRemoving(s: State, t: nat, um: UserMachine, rest: seq<Op>, key: Key, n: nat)
    requires Inv(s) && Enabled(s, Leave(t)) && Removing(s, t, um, rest, key, n)
    requires t < |s.threads| && |s.threads[t].todo| > |rest| && s.threads[t].driver.Some?
    ensures Removing(Next(s, Leave(t)), t, um, rest, key, n)
  {
    hide *;
    InsideWhich(s, t, um, rest, key, n);
    if |s.threads[t].todo| - |rest| == 2 {
      FlushedUpTo(s, t, key, n);
    } else {
      WaitedUpTo(s, t, key, n);
    }
    LeaveLetsGo(s, t);
    LeftRemoving(s, t, um, rest, key, n);
  }

  lemma StepKeepsRemoving(s: State, step: Step, t: nat, um: UserMachine, rest: seq<Op>, key: Key, n: nat)
    requires Inv(s) && Enabled(s, step) && Removing(s, t, um, rest, key, n)
    ensures Removing(Next(s, step), t, um, rest, key, n)
  {
    if ByOther(step, t) {
      OtherKeepsRemoving(s, step, t, um, rest, key, n);
    } else if |s.threads[t].todo| <= |rest| {
      DoneRemoving(s, step, t, um, rest, key, n);
    } else {
      match step {
        case Begin(_) => BeginRemoving(s, t, um, rest, key, n);
        case Stream(_, stream, idle) => StreamRemoving(s, t, stream, idle, um, rest, key, n);
        case Leave(_) => LeaveRemoving(s, t, um, rest, key, n);
        case _ => assert false;
      }
    }
  }

  lemma {:induction false} RunKeepsRemoving(s: State, steps: seq<Step>, s': State,
                                            t: nat, um: UserMachine, rest: seq<Op>, key: Key, n: nat)
    requires Inv(s) && Runs(s, steps, s') && Removing(s, t, um, rest, key, n)
    ensures Removing(s', t, um, rest, key, n)
    decreases |steps|
  {
    if steps != [] {
      StepKeepsInv(s, steps[0]);
      StepKeepsRemoving(s, steps[0], t, um, rest, key, n);
      hide Inv, Enabled, Next, Removing;
      RunKeepsRemoving(Next(s, steps[0]), steps[1..], s', t, um, rest, key, n);
    }
  }

  /** Every event that a stream of the driver had accepted before a removal of the driver began is
      stored, with its metadata, when the removal takes the driver off the list, whatever other threads
      do meanwhile. */
  lemma RemovedIsDurable(s: State, steps: seq<Step>, s': State, t: nat, um: UserMachine, rest: seq<Op>, key: Key)
    requires Inv(s) && Runs(s, steps, s') && t < |s.threads| && t < |s'.threads|
    requires var thread := s.threads[t];
             && thread.todo == Removal(um) + rest && thread.driver.None? && thread.store.None?
             && um in thread.held && thread.held[um] == key.driver
    requires s'.threads[t].todo == [Op.Unlist(um)] + rest && s'.threads[t].driver.None?
    requires key in s.sh.writers && key in s.sh.accepted
    ensures Durable(s'.sh.disk, key, |s.sh.accepted[key]|)
  {
    assert Removal(um)[0..] == Removal(um);
    RunKeepsRemoving(s, steps, s', t, um, rest, key, |s.sh.accepted[key]|);
    hide Inv, Runs;
  }
}
