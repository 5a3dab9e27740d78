/** Every step of every thread and background writer keeps the invariant. */
module EventInvariant {
  import opened EventBlocks
  import opened Wrappers
  import opened EventStore
  import opened EventThreads

  // ---- What one step may do to the shared state ----------------------------------------------

  /** At most the streams of driver `d` have moved on, and background writers have made progress. */
  ghost predicate Moves(sh: Shared, sh': Shared, d: int) {
    && sh'.table == sh.table && |sh.drivers| <= |sh'.drivers|
    && (forall key :: key in sh.writers ==>
          key in sh'.writers && (key.driver != d ==> sh'.writers[key] == sh.writers[key]))
    && (forall key :: key in sh'.writers ==> key in sh.writers || key.driver == d)
    && (forall key :: AcceptedAt(sh, key) <= AcceptedAt(sh', key))
    && DiskMoves(sh.disk, sh'.disk, d)
  }

  ghost predicate DiskMoves(disk: Disk, disk': Disk, d: int) {
    && disk.sent <= disk'.sent
    && (forall id :: id in disk'.jobs && id < |disk.sent| ==> id in disk.jobs)
    && (forall id: nat :: |disk.sent| <= id < |disk'.sent| ==> disk'.sent[id].key.driver == d)
    && disk.added <= disk'.added
    && (forall id: nat :: id < |disk.sent| && Stored(disk, id) ==> Stored(disk', id))
  }

  lemma NobodyMoves(sh: Shared)
    ensures Moves(sh, sh, -1)
  {
  }

  lemma SpawnMoves(disk: Disk, key: Key, user: int, blocks: seq<Block>)
    ensures DiskMoves(disk, Spawn(disk, key, user, blocks), key.driver)
  {
    var disk' := Spawn(disk, key, user, blocks);
    hide File, Contents;
    forall id: nat | id < |disk.sent| && Stored(disk, id)
      ensures Stored(disk', id)
    {
      assert disk'.sent[id] == disk.sent[id];
    }
  }

  lemma AcceptIntoMoves(sh: Shared, key: Key, event: Event)
    requires key.driver < |sh.drivers| && Encoded(WriterAt(sh, key).events)
    ensures Moves(sh, AcceptInto(sh, key, event), key.driver)
  {
    SpawnMoves(sh.disk, key, sh.drivers[key.driver].um.user, Accept(sh.size, WriterAt(sh, key), event).1);
    hide DiskMoves, Accept, Spawn;
    var sh' := AcceptInto(sh, key, event);
    forall k
      ensures AcceptedAt(sh, k) <= AcceptedAt(sh', k)
    {
    }
  }

  lemma FlushStreamMoves(sh: Shared, key: Key)
    requires key.driver < |sh.drivers| && key in sh.writers
    ensures Moves(sh, FlushStream(sh, key), key.driver)
  {
    SpawnMoves(sh.disk, key, sh.drivers[key.driver].um.user, EventBlocks.Flush(sh.writers[key], false).1);
    hide DiskMoves, Spawn;
  }

  lemma StreamedMoves(sh: Shared, section: Section, stream: string, idle: bool)
    requires SharedOk(sh) && section.driver < |sh.drivers|
    requires section.work.Flushing? || section.work.Ticking? ==> Key(section.driver, stream) in sh.writers
    ensures SharedOk(Streamed(sh, section, stream, idle))
    ensures Moves(sh, Streamed(sh, section, stream, idle), section.driver)
  {
    var key := Key(section.driver, stream);
    hide SharedOk, Moves, AcceptInto, FlushStream;
    match section.work {
      case Handling(event) =>
        AcceptIntoKeepsOk(sh, key, event);
        AcceptIntoMoves(sh, key, event);
      case Flushing =>
        FlushStreamKeepsOk(sh, key);
        FlushStreamMoves(sh, key);
      case Waiting =>
        MovesAnyway(sh, section.driver);
      case Ticking =>
        FlushStreamKeepsOk(sh, key);
        FlushStreamMoves(sh, key);
        MovesAnyway(sh, section.driver);
    }
  }

  lemma MovesAnyway(sh: Shared, d: int)
    ensures Moves(sh, sh, d)
  {
  }

  /** A background writer that only lets files and records come in. */
  lemma Progresses(disk: Disk, disk': Disk)
    requires disk'.sent == disk.sent && disk'.jobs.Keys <= disk.jobs.Keys && disk.added <= disk'.added
    requires forall id: nat :: id < |disk.sent| && Stored(disk, id) ==> Stored(disk', id)
    ensures DiskMoves(disk, disk', -1)
  {
    hide Stored;
  }

  lemma WriteMoves(disk: Disk, id: nat)
    requires DiskOk(disk) && id in disk.jobs && disk.jobs[id] == Writing
    ensures DiskOk(Write(disk, id)) && DiskMoves(disk, Write(disk, id), -1)
  {
    WriteKeepsJobsOk(disk, id);
    WriteKeepsFilesOk(disk, id);
    hide Contents, JobsOk, FilesOk;
    Progresses(disk, Write(disk, id));
  }

  lemma AddMetadataMoves(disk: Disk, id: nat)
    requires DiskOk(disk) && id in disk.jobs && disk.jobs[id] == Adding
    ensures DiskOk(AddMetadata(disk, id)) && DiskMoves(disk, AddMetadata(disk, id), -1)
  {
    AddMetadataKeepsOk(disk, id);
    hide Contents, File, JobsOk, FilesOk;
    Progresses(disk, AddMetadata(disk, id));
  }

  lemma FinishMoves(disk: Disk, id: nat)
    requires DiskOk(disk) && id in disk.jobs && disk.jobs[id] == Finishing
    ensures DiskOk(Finish(disk, id)) && DiskMoves(disk, Finish(disk, id), -1)
  {
    FinishKeepsOk(disk, id);
    hide Contents, File, JobsOk, FilesOk;
    Progresses(disk, Finish(disk, id));
  }

  // ---- What the others keep ------------------------------------------------------------------

  lemma NoJobsStays(sh: Shared, sh': Shared, d: int, key: Key)
    requires SharedOk(sh) && Moves(sh, sh', d) && key.driver != d && NoJobs(sh.disk, key)
    ensures NoJobs(sh'.disk, key)
  {
    forall id | id in sh'.disk.jobs && id < |sh'.disk.sent|
      ensures sh'.disk.sent[id].key != key
    {
      if id < |sh.disk.sent| {
        assert sh'.disk.sent[id] == sh.disk.sent[id];
      }
    }
  }

  /** A section inside another driver's lock stays as it was. */
  lemma SectionStays(sh: Shared, sh': Shared, d: int, section: Section)
    requires SharedOk(sh) && Moves(sh, sh', d) && section.driver != d && SectionOk(sh, section)
    ensures SectionOk(sh', section)
  {
    forall key | key in sh'.writers && key.driver == section.driver && key.stream !in section.left
      ensures DealtWith(sh', section.work, key)
    {
      assert DealtWith(sh, section.work, key);
      if section.work == Waiting {
        NoJobsStays(sh, sh', d, key);
      }
    }
  }

  lemma HandedOnStays(disk: Disk, disk': Disk, d: int, key: Key, n: nat)
    requires DiskMoves(disk, disk', d) && HandedOn(disk, key, n)
    ensures HandedOn(disk', key, n)
  {
    PrefixOfBlocks(disk'.sent, key, |disk.sent|);
    assert disk'.sent[..|disk.sent|] == disk.sent;
  }

  lemma DurableStays(disk: Disk, disk': Disk, d: int, key: Key, n: nat)
    requires DiskMoves(disk, disk', d) && Durable(disk, key, n)
    ensures Durable(disk', key, n)
  {
    var cut: nat :| DurableUpTo(disk, key, n, cut);
    assert disk'.sent[..cut] == disk.sent[..cut];
    forall id: nat | id < cut && disk'.sent[id].key == key
      ensures id in disk'.added && Stored(disk', id)
    {
      assert disk'.sent[id] == disk.sent[id];
    }
    assert DurableUpTo(disk', key, n, cut);
  }

  /** A flush of the whole store keeps what it has achieved, whichever driver moves on. */
  lemma StoreSectionStays(sh: Shared, sh': Shared, d: int, thread: Thread, thread': Thread, store: StoreSection)
    requires SharedOk(sh) && Moves(sh, sh', d) && StoreSectionOk(sh, thread, store)
    requires thread'.driver.Some? ==> thread'.driver.value.work == WorkOf(store.phase)
    requires forall e: nat :: Outstanding(thread, store, e) ==> Outstanding(thread', store, e)
    ensures StoreSectionOk(sh', thread', store)
  {
    forall key | key in store.since
      ensures key in sh'.writers && store.since[key] <= |AcceptedAt(sh', key)|
      ensures store.phase == WaitPhase ==> HandedOn(sh'.disk, key, store.since[key])
      ensures !Outstanding(thread', store, key.driver) ==> Achieved(sh', store.phase, key, store.since[key])
    {
      assert AcceptedAt(sh, key) <= AcceptedAt(sh', key);
      var n := store.since[key];
      if HandedOn(sh.disk, key, n) {
        HandedOnStays(sh.disk, sh'.disk, d, key, n);
      }
      if store.phase == WaitPhase && Durable(sh.disk, key, n) {
        DurableStays(sh.disk, sh'.disk, d, key, n);
      }
    }
  }

  lemma ThreadStays(sh: Shared, sh': Shared, d: int, thread: Thread)
    requires SharedOk(sh) && Moves(sh, sh', d) && ThreadOk(sh, thread)
    requires d >= 0 ==> !Holds(thread, d)
    ensures ThreadOk(sh', thread)
  {
    if thread.driver.Some? {
      SectionStays(sh, sh', d, thread.driver.value);
    }
    if thread.store.Some? {
      StoreSectionStays(sh, sh', d, thread, thread, thread.store.value);
    }
  }

  /** If the shared state has moved as `Moves` says and the thread that moved is fine, all are. */
  lemma OthersStay(s: State, sh': Shared, d: int, t: nat, thread': Thread)
    requires Inv(s) && t < |s.threads| && SharedOk(sh') && Moves(s.sh, sh', d)
    requires forall u :: 0 <= u < |s.threads| && u != t ==>
               !Clash(thread', s.threads[u]) && (d >= 0 ==> !Holds(s.threads[u], d))
    requires ThreadOk(sh', thread')
    ensures Inv(State(sh', s.threads[t := thread']))
  {
    var s' := State(sh', s.threads[t := thread']);
    hide ThreadOk, SharedOk, Moves;
    forall u | 0 <= u < |s'.threads|
      ensures ThreadOk(sh', s'.threads[u])
    {
      if u != t {
        ThreadStays(s.sh, sh', d, s.threads[u]);
      }
    }
    ClashIsSymmetric();
  }

  lemma ClashIsSymmetric()
    ensures forall a, b :: Clash(a, b) <==> Clash(b, a)
  {
  }

  // ---- The thread that moves -----------------------------------------------------------------

  lemma StreamKeepsInv(s: State, t: nat, stream: string, idle: bool)
    requires Inv(s) && Enabled(s, Stream(t, stream, idle))
    ensures Inv(Next(s, Stream(t, stream, idle)))
  {
    var thread := s.threads[t];
    var section := thread.driver.value;
    var sh' := Streamed(s.sh, section, stream, idle);
    var section' := section.(left := section.left - {stream});
    var thread' := thread.(driver := Some(section'));
    StreamedMoves(s.sh, section, stream, idle);
    StreamDeals(s.sh, section, stream, idle);
    if thread.store.Some? {
      StoreSectionStays(s.sh, sh', section.driver, thread, thread', thread.store.value);
    }
    forall u | 0 <= u < |s.threads| && u != t
      ensures !Clash(thread', s.threads[u]) && !Holds(s.threads[u], section.driver)
    {
      assert !Clash(thread, s.threads[u]);
    }
    OthersStay(s, sh', section.driver, t, thread');
  }

  /** The stream has been dealt with, and no other has been touched. */
  lemma StreamDealsWith(sh: Shared, section: Section, stream: string, idle: bool, k: Key)
    requires SharedOk(sh) && SectionOk(sh, section) && stream in section.left
    requires section.work == Waiting ==> NoJobs(sh.disk, Key(section.driver, stream))
    requires k in Streamed(sh, section, stream, idle).writers
    requires k.driver == section.driver && k.stream !in section.left - {stream}
    ensures DealtWith(Streamed(sh, section, stream, idle), section.work, k)
  {
    if k.stream == stream {
      if section.work == Flushing {
        FlushStreamKeepsOk(sh, k);
      }
    } else {
      assert k in sh.writers ==> DealtWith(sh, section.work, k);
    }
  }

  /** After a stream has been dealt with, it and those before it have been dealt with. */
  lemma StreamDeals(sh: Shared, section: Section, stream: string, idle: bool)
    requires SharedOk(sh) && SectionOk(sh, section) && stream in section.left
    requires section.work == Waiting ==> NoJobs(sh.disk, Key(section.driver, stream))
    ensures SectionOk(Streamed(sh, section, stream, idle), section.(left := section.left - {stream}))
  {
    var sh', left := Streamed(sh, section, stream, idle), section.left - {stream};
    StreamedMoves(sh, section, stream, idle);
    forall k | k in sh'.writers && k.driver == section.driver && k.stream !in left
      ensures DealtWith(sh', section.work, k)
    {
      StreamDealsWith(sh, section, stream, idle, k);
    }
  }

  lemma LeaveKeepsInv(s: State, t: nat)
    requires Inv(s) && Enabled(s, Leave(t))
    ensures Inv(Next(s, Leave(t)))
  {
    var thread := s.threads[t];
    var thread' := thread.(driver := None);
    if thread.store.Some? {
      LeaveAchieves(s.sh, thread);
    }
    forall u | 0 <= u < |s.threads| && u != t
      ensures !Clash(thread', s.threads[u])
    {
      assert !Clash(thread, s.threads[u]);
    }
    NobodyMoves(s.sh);
    OthersStay(s, s.sh, -1, t, thread');
  }

  /** When a flush of the whole store lets go of a driver, it has achieved what it came for there. */
  lemma LeaveAchieves(sh: Shared, thread: Thread)
    requires SharedOk(sh) && ThreadOk(sh, thread) && thread.store.Some?
    requires thread.driver.Some? && thread.driver.value.left == {}
    ensures StoreSectionOk(sh, thread.(driver := None), thread.store.value)
  {
    var section, store := thread.driver.value, thread.store.value;
    forall key | key in store.since && !Outstanding(thread.(driver := None), store, key.driver)
      ensures Achieved(sh, store.phase, key, store.since[key])
    {
      if key.driver == section.driver {
        assert DealtWith(sh, section.work, key);
        match store.phase {
          case FlushPhase => EmptyMeansHandedOn(sh, key, store.since[key]);
          case WaitPhase => NoJobsMeansDurable(sh.disk, key, store.since[key]);
          case TickPhase =>
        }
      }
    }
  }

  lemma EmptyMeansHandedOn(sh: Shared, key: Key, n: nat)
    requires SharedOk(sh) && key in sh.writers && sh.writers[key].events == [] && n <= |AcceptedAt(sh, key)|
    ensures HandedOn(sh.disk, key, n)
  {
    assert WriterOk(sh.size, sh.accepted[key], BlocksOf(sh.disk.sent, key), sh.writers[key]);
  }

  lemma EnterKeepsInv(s: State, t: nat, d: nat)
    requires Inv(s) && Enabled(s, Enter(t, d))
    ensures Inv(Next(s, Enter(t, d)))
  {
    var thread := s.threads[t];
    var store := thread.store.value;
    var thread' := Next(s, Enter(t, d)).threads[t];
    FreshSection(s.sh, d, WorkOf(store.phase));
    EnterOutstands(s.sh, thread, thread', d);
    forall u | 0 <= u < |s.threads| && u != t
      ensures !Clash(thread', s.threads[u])
    {
      assert !Clash(thread, s.threads[u]) && !Holds(s.threads[u], d);
    }
    NobodyMoves(s.sh);
    OthersStay(s, s.sh, -1, t, thread');
  }

  /** The driver that is entered is dealt with no longer later, but now. */
  lemma EnterOutstands(sh: Shared, thread: Thread, thread': Thread, d: nat)
    requires thread.store.Some? && thread.driver.None? && StoreSectionOk(sh, thread, thread.store.value)
    requires d in thread.store.value.left && Holds(thread', d)
    requires thread'.driver.value.work == WorkOf(thread.store.value.phase)
    requires thread'.store == Some(thread.store.value.(left := thread.store.value.left - {d}))
    ensures StoreSectionOk(sh, thread', thread'.store.value)
  {
    hide Achieved;
  }

  /** A section that still has all of the driver's writers in front of it. */
  lemma FreshSection(sh: Shared, d: nat, work: Work)
    requires SharedOk(sh) && d < |sh.drivers|
    ensures SectionOk(sh, Section(d, work, WriterStreams(sh, d)))
  {
    forall key | key in sh.writers && key.driver == d
      ensures key.stream in WriterStreams(sh, d)
    {
    }
    forall stream | stream in WriterStreams(sh, d)
      ensures Key(d, stream) in sh.writers
    {
    }
  }

  lemma AdvanceKeepsInv(s: State, t: nat)
    requires Inv(s) && Enabled(s, Advance(t))
    ensures Inv(Next(s, Advance(t)))
  {
    var thread := s.threads[t];
    var store := thread.store.value;
    var thread' := thread.(store := Advanced(s.sh, store));
    forall u | 0 <= u < |s.threads| && u != t
      ensures !Clash(thread', s.threads[u])
    {
      assert !Clash(thread, s.threads[u]);
    }
    assert forall key :: key in store.since ==> !Outstanding(thread, store, key.driver);
    NobodyMoves(s.sh);
    OthersStay(s, s.sh, -1, t, thread');
  }

  // ---- Calls that begin ----------------------------------------------------------------------

  /** Only the list of drivers has changed; none has gone. */
  ghost predicate SameEvents(sh: Shared, sh': Shared) {
    && sh'.size == sh.size && sh'.writers == sh.writers && sh'.accepted == sh.accepted && sh'.disk == sh.disk
    && |sh.drivers| <= |sh'.drivers|
    && forall um :: um in sh'.table ==> sh'.table[um] < |sh'.drivers|
  }

  lemma SameEventsOk(sh: Shared, sh': Shared)
    requires SharedOk(sh) && SameEvents(sh, sh')
    ensures SharedOk(sh')
  {
    forall key | key in sh'.writers
      ensures WriterOk(sh'.size, sh'.accepted[key], BlocksOf(sh'.disk.sent, key), sh'.writers[key])
    {
      assert WriterOk(sh.size, sh.accepted[key], BlocksOf(sh.disk.sent, key), sh.writers[key]);
    }
  }

  lemma BeginKeepsInv(s: State, t: nat)
    requires Inv(s) && Enabled(s, Begin(t))
    ensures Inv(Next(s, Begin(t)))
  {
    var thread := s.threads[t];
    var op := thread.todo[0];
    var (sh', begun) := Begun(s.sh, thread, op);
    var thread' := begun.(todo := thread.todo[1..]);
    BegunOk(s.sh, thread, op);
    SameEventsOk(s.sh, sh');
    var s' := State(sh', s.threads[t := thread']);
    forall u | 0 <= u < |s'.threads|
      ensures ThreadOk(sh', s'.threads[u])
    {
      if u != t {
        OtherThreadStays(s, sh', thread, op, u);
      }
    }
    forall u | 0 <= u < |s.threads| && u != t
      ensures !Clash(thread', s.threads[u])
    {
      BeginDoesNotClash(s, thread, op, u);
    }
    ClashIsSymmetric();
  }

  lemma BegunOk(sh: Shared, thread: Thread, op: Op)
    requires SharedOk(sh) && ThreadOk(sh, thread) && thread.driver.None? && thread.store.None?
    ensures var (sh', begun) := Begun(sh, thread, op);
            && SameEvents(sh, sh')
            && forall todo :: ThreadOk(sh', begun.(todo := todo))
  {
    if !Skips(thread, op) {
      hide WritersOk, DiskOk;
      match op {
        case Handle(um, event) =>
          PassingSection(sh, thread.held[um], event);
        case Flush(um) =>
          FreshSection(sh, thread.held[um], Flushing);
        case Wait(um) =>
          FreshSection(sh, thread.held[um], Waiting);
        case AddStream(_, _, _) => RegistryOk(sh, thread, op);
        case DriverForUser(_) => RegistryOk(sh, thread, op);
        case Unlist(_) => RegistryOk(sh, thread, op);
        case FlushStore =>
          CensusOk(sh, thread);
        case Tick =>
      }
    }
  }

  lemma RegistryOk(sh: Shared, thread: Thread, op: Op)
    requires SharedOk(sh) && ThreadOk(sh, thread) && thread.driver.None? && thread.store.None?
    requires !Skips(thread, op) && (op.AddStream? || op.DriverForUser? || op.Unlist?)
    ensures var (sh', begun) := Begun(sh, thread, op);
            && SameEvents(sh, sh')
            && forall todo :: ThreadOk(sh', begun.(todo := todo))
  {
    hide WritersOk, DiskOk;
  }

  lemma PassingSection(sh: Shared, d: nat, event: Event)
    requires SharedOk(sh) && d < |sh.drivers|
    ensures SectionOk(sh, Section(d, Handling(event), PassingStreams(sh, d, event)))
  {
  }

  lemma CensusOk(sh: Shared, thread: Thread)
    requires SharedOk(sh) && thread.driver.None?
    ensures forall todo ::
              var store := StoreSection(FlushPhase, Listed(sh), Census(sh));
              StoreSectionOk(sh, thread.(store := Some(store), todo := todo), store)
  {
  }

  lemma OtherThreadStays(s: State, sh': Shared, thread: Thread, op: Op, u: nat)
    requires Inv(s) && u < |s.threads| && ThreadOk(s.sh, thread) && CanBegin(s, thread, op)
    requires sh' == Begun(s.sh, thread, op).0 && SameEvents(s.sh, sh')
    ensures ThreadOk(sh', s.threads[u])
  {
    var other := s.threads[u];
    if other.driver.Some? {
      SectionSame(s.sh, sh', other.driver.value);
    }
    if other.store.Some? {
      assert sh'.table == s.sh.table;
      StoreSectionSame(s.sh, sh', other, other.store.value);
    }
  }

  lemma SectionSame(sh: Shared, sh': Shared, section: Section)
    requires SameEvents(sh, sh') && SectionOk(sh, section)
    ensures SectionOk(sh', section)
  {
    forall key | key in sh'.writers && key.driver == section.driver && key.stream !in section.left
      ensures DealtWith(sh', section.work, key)
    {
      assert DealtWith(sh, section.work, key);
    }
  }

  lemma StoreSectionSame(sh: Shared, sh': Shared, thread: Thread, store: StoreSection)
    requires SameEvents(sh, sh') && sh'.table == sh.table && StoreSectionOk(sh, thread, store)
    ensures StoreSectionOk(sh', thread, store)
  {
  }

  lemma BeginDoesNotClash(s: State, thread: Thread, op: Op, u: nat)
    requires Inv(s) && u < |s.threads| && ThreadOk(s.sh, thread) && CanBegin(s, thread, op)
    requires thread.driver.None? && thread.store.None?
    ensures !Clash(Begun(s.sh, thread, op).1, s.threads[u])
  {
  }

  // ---- All steps -----------------------------------------------------------------------------

  lemma JobKeepsInv(s: State, step: Step)
    requires Inv(s) && Enabled(s, step)
    requires step.WriteFails? || step.WriteSucceeds? || step.AddsMetadata? || step.Finishes?
    ensures Inv(Next(s, step))
  {
    if !step.WriteFails? {
      var s' := Next(s, step);
      match step {
        case WriteSucceeds(id) => WriteMoves(s.sh.disk, id);
        case AddsMetadata(id) => AddMetadataMoves(s.sh.disk, id);
        case Finishes(id) => FinishMoves(s.sh.disk, id);
      }
      JobKeepsShared(s.sh, s'.sh);
      forall t | 0 <= t < |s'.threads|
        ensures ThreadOk(s'.sh, s'.threads[t])
      {
        ThreadStays(s.sh, s'.sh, -1, s.threads[t]);
      }
    }
  }

  lemma JobKeepsShared(sh: Shared, sh': Shared)
    requires SharedOk(sh) && sh' == sh.(disk := sh'.disk) && sh'.disk.sent == sh.disk.sent
    requires DiskOk(sh'.disk) && DiskMoves(sh.disk, sh'.disk, -1)
    ensures SharedOk(sh') && Moves(sh, sh', -1)
  {
    hide DiskOk, DiskMoves;
  }

  /** Whatever moves next, the invariant stays: events are conserved, locks are exclusive, and what
      flushing and waiting have achieved is not lost. */
  lemma StepKeepsInv(s: State, step: Step)
    requires Inv(s) && Enabled(s, step)
    ensures Inv(Next(s, step))
  {
    match step {
      case Begin(t) => BeginKeepsInv(s, t);
      case Stream(t, stream, idle) => StreamKeepsInv(s, t, stream, idle);
      case Leave(t) => LeaveKeepsInv(s, t);
      case Enter(t, d) => EnterKeepsInv(s, t, d);
      case Advance(t) => AdvanceKeepsInv(s, t);
      case WriteFails(_) => JobKeepsInv(s, step);
      case WriteSucceeds(_) => JobKeepsInv(s, step);
      case AddsMetadata(_) => JobKeepsInv(s, step);
      case Finishes(_) => JobKeepsInv(s, step);
    }
  }
}
