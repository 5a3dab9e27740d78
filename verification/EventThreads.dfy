/** Threads that handle events, flush and wait, and the locks between them.

A run is a sequence of steps. A thread takes a driver's lock, deals with the driver's streams one at
a time, and lets go of the lock; a flush of the whole store holds the store's lock around that. The
background writers take no lock. Between any two steps any other thread or background writer may
move. A lock is held by the thread that is inside the section it guards.
*/
module EventThreads {
  import opened EventBlocks
  import opened Wrappers
  import opened EventStore

  // ---- Threads -------------------------------------------------------------------------------

  /** A call. Except for those to the store itself they go through a driver that the thread has got
      hold of; `RemoveDriver` is `Flush`, `Wait` and `Unlist` in a row. */
  datatype Op =
    | Handle(um: UserMachine, event: Event)
    | Flush(um: UserMachine)
    | Wait(um: UserMachine)
    | AddStream(um: UserMachine, name: string, filter: Filter)
    | DriverForUser(um: UserMachine)
    | Unlist(um: UserMachine)
    | FlushStore
    | Tick

  datatype Work = Handling(event: Event) | Flushing | Waiting | Ticking

  /** Inside a driver's lock: what is being done there, and the streams still to be dealt with. */
  datatype Section = Section(driver: nat, work: Work, left: set<string>)

  datatype StorePhase = FlushPhase | WaitPhase | TickPhase

  /** Inside the store's lock: the drivers still to be dealt with. `since` records how many events
      each stream of the listed drivers had when the lock was taken. */
  datatype StoreSection = StoreSection(phase: StorePhase, left: set<nat>, since: map<Key, nat>)

  datatype Thread = Thread(
    todo: seq<Op>,
    held: map<UserMachine, nat>,
    driver: Option<Section>,
    store: Option<StoreSection>)

  datatype State = State(sh: Shared, threads: seq<Thread>)

  // ---- Locks ---------------------------------------------------------------------------------

  predicate Holds(thread: Thread, d: nat) {
    thread.driver.Some? && thread.driver.value.driver == d
  }

  predicate DriverFree(s: State, d: nat) {
    forall t :: 0 <= t < |s.threads| ==> !Holds(s.threads[t], d)
  }

  predicate StoreFree(s: State) {
    forall t :: 0 <= t < |s.threads| ==> s.threads[t].store.None?
  }

  // ---- Steps ---------------------------------------------------------------------------------

  datatype Step =
    | Begin(t: nat)                                // start the next call, taking its first lock
    | Stream(t: nat, stream: string, idle: bool)   // deal with one stream of the locked driver
    | Leave(t: nat)                                // let go of the driver's lock
    | Enter(t: nat, d: nat)                        // inside the store's lock, take a driver's lock
    | Advance(t: nat)                              // go from flushing to waiting, or let go of the store's lock
    | WriteFails(id: nat)
    | WriteSucceeds(id: nat)
    | AddsMetadata(id: nat)
    | Finishes(id: nat)

  /** The call does nothing at all: there is no driver to call, or the event is to be ignored. */
  predicate Skips(thread: Thread, op: Op) {
    match op
    case Handle(um, event) => um !in thread.held || Ignored(event)
    case Flush(um) => um !in thread.held
    case Wait(um) => um !in thread.held
    case AddStream(um, _, _) => um !in thread.held
    case DriverForUser(_) => false
    case Unlist(um) => um !in thread.held
    case FlushStore => false
    case Tick => false
  }

  /** The lock that the call starts with is free. */
  predicate CanBegin(s: State, thread: Thread, op: Op) {
    Skips(thread, op) ||
    match op
    case Handle(um, _) => DriverFree(s, thread.held[um])
    case Flush(um) => DriverFree(s, thread.held[um])
    case Wait(um) => DriverFree(s, thread.held[um])
    case AddStream(um, _, _) => DriverFree(s, thread.held[um])
    case DriverForUser(_) => StoreFree(s)
    case Unlist(_) => StoreFree(s)
    case FlushStore => StoreFree(s)
    case Tick => StoreFree(s)
  }

  predicate CanStream(s: State, section: Section, stream: string) {
    && stream in section.left
    && (section.work == Waiting ==> NoJobs(s.sh.disk, Key(section.driver, stream)))
  }

  predicate Enabled(s: State, step: Step) {
    match step
    case Begin(t) =>
      && t < |s.threads| && s.threads[t].todo != []
      && s.threads[t].driver.None? && s.threads[t].store.None?
      && CanBegin(s, s.threads[t], s.threads[t].todo[0])
    case Stream(t, stream, _) =>
      t < |s.threads| && s.threads[t].driver.Some? && CanStream(s, s.threads[t].driver.value, stream)
    case Leave(t) =>
      t < |s.threads| && s.threads[t].driver.Some? && s.threads[t].driver.value.left == {}
    case Enter(t, d) =>
      && t < |s.threads| && s.threads[t].store.Some? && s.threads[t].driver.None?
      && d in s.threads[t].store.value.left && DriverFree(s, d)
    case Advance(t) =>
      && t < |s.threads| && s.threads[t].store.Some? && s.threads[t].driver.None?
      && s.threads[t].store.value.left == {}
    case WriteFails(id) => id in s.sh.disk.jobs && s.sh.disk.jobs[id] == Writing
    case WriteSucceeds(id) => id in s.sh.disk.jobs && s.sh.disk.jobs[id] == Writing
    case AddsMetadata(id) => id in s.sh.disk.jobs && s.sh.disk.jobs[id] == Adding
    case Finishes(id) => id in s.sh.disk.jobs && s.sh.disk.jobs[id] == Finishing
  }

  /** The streams of a driver that have a writer. */
  function WriterStreams(sh: Shared, d: nat): set<string> {
    set key | key in sh.writers && key.driver == d :: key.stream
  }

  /** The streams of a driver whose filter lets the event through. */
  function PassingStreams(sh: Shared, d: nat, event: Event): set<string>
    requires d < |sh.drivers|
  {
    set name | name in sh.drivers[d].streams && sh.drivers[d].streams[name](event)
  }

  function Listed(sh: Shared): set<nat> {
    set um | um in sh.table :: sh.table[um]
  }

  /** How many events the streams of the listed drivers have so far. */
  function Census(sh: Shared): map<Key, nat> {
    map key | key in sh.accepted && key.driver in Listed(sh) :: |sh.accepted[key]|
  }

  function Locked(thread: Thread, d: nat, work: Work, left: set<string>): Thread {
    thread.(driver := Some(Section(d, work, left)))
  }

  /** The thread and the shared state once a call has begun. */
  function Begun(sh: Shared, thread: Thread, op: Op): (r: (Shared, Thread))
    requires SharedOk(sh) && HeldOk(sh, thread)
  {
    if Skips(thread, op) then (sh, thread)
    else
      match op
      case Handle(um, event) =>
        var d := thread.held[um];
        (sh, Locked(thread, d, Handling(event), PassingStreams(sh, d, event)))
      case Flush(um) => (sh, Locked(thread, thread.held[um], Flushing, WriterStreams(sh, thread.held[um])))
      case Wait(um) => (sh, Locked(thread, thread.held[um], Waiting, WriterStreams(sh, thread.held[um])))
      case AddStream(um, name, filter) =>
        var d := thread.held[um];
        var driver := sh.drivers[d];
        (sh.(drivers := sh.drivers[d := driver.(streams := driver.streams[name := filter])]), thread)
      case DriverForUser(um) =>
        var sh' := if um in sh.table then sh
                   else sh.(drivers := sh.drivers + [Driver(um, map[])], table := sh.table[um := |sh.drivers|]);
        (sh', thread.(held := thread.held[um := sh'.table[um]]))
      case Unlist(um) => (sh.(table := sh.table - {sh.drivers[thread.held[um]].um}), thread)
      case FlushStore => (sh, thread.(store := Some(StoreSection(FlushPhase, Listed(sh), Census(sh)))))
      case Tick => (sh, thread.(store := Some(StoreSection(TickPhase, Listed(sh), map[]))))
  }

  /** What dealing with one stream does to the shared state. */
  function Streamed(sh: Shared, section: Section, stream: string, idle: bool): Shared
    requires SharedOk(sh) && section.driver < |sh.drivers|
    requires section.work.Flushing? || section.work.Ticking? ==> Key(section.driver, stream) in sh.writers
  {
    var key := Key(section.driver, stream);
    match section.work
    case Handling(event) => AcceptIntoKeepsOk(sh, key, event); AcceptInto(sh, key, event)
    case Flushing => FlushStream(sh, key)
    case Waiting => sh
    case Ticking => if idle then FlushStream(sh, key) else sh
  }

  function WorkOf(phase: StorePhase): Work {
    match phase
    case FlushPhase => Flushing
    case WaitPhase => Waiting
    case TickPhase => Ticking
  }

  function Advanced(sh: Shared, store: StoreSection): Option<StoreSection> {
    if store.phase == FlushPhase then Some(StoreSection(WaitPhase, Listed(sh), store.since)) else None
  }

  function Next(s: State, step: Step): State
    requires Inv(s) && Enabled(s, step)
  {
    var sh := s.sh;
    match step
    case Begin(t) =>
      var thread := s.threads[t];
      var (sh', thread') := Begun(sh, thread, thread.todo[0]);
      State(sh', s.threads[t := thread'.(todo := thread.todo[1..])])
    case Stream(t, stream, idle) =>
      var section := s.threads[t].driver.value;
      State(Streamed(sh, section, stream, idle),
            s.threads[t := s.threads[t].(driver := Some(section.(left := section.left - {stream})))])
    case Leave(t) => s.(threads := s.threads[t := s.threads[t].(driver := None)])
    case Enter(t, d) =>
      var store := s.threads[t].store.value;
      s.(threads := s.threads[t := s.threads[t].(
           driver := Some(Section(d, WorkOf(store.phase), WriterStreams(sh, d))),
           store := Some(store.(left := store.left - {d})))])
    case Advance(t) =>
      s.(threads := s.threads[t := s.threads[t].(store := Advanced(sh, s.threads[t].store.value))])
    case WriteFails(_) => s
    case WriteSucceeds(id) => s.(sh := sh.(disk := Write(sh.disk, id)))
    case AddsMetadata(id) => s.(sh := sh.(disk := AddMetadata(sh.disk, id)))
    case Finishes(id) => s.(sh := sh.(disk := Finish(sh.disk, id)))
  }

  // ---- The invariant -------------------------------------------------------------------------

  predicate HeldOk(sh: Shared, thread: Thread) {
    forall um :: um in thread.held ==> thread.held[um] < |sh.drivers|
  }

  /** What has been achieved for a stream that the section has dealt with. */
  predicate DealtWith(sh: Shared, work: Work, key: Key) {
    match work
    case Handling(_) => true
    case Flushing => key in sh.writers ==> sh.writers[key].events == []
    case Waiting => NoJobs(sh.disk, key)
    case Ticking => true
  }

  ghost predicate SectionOk(sh: Shared, section: Section) {
    && section.driver < |sh.drivers|
    && (!section.work.Handling? ==> forall stream :: stream in section.left ==> Key(section.driver, stream) in sh.writers)
    && (forall key :: key in sh.writers && key.driver == section.driver && key.stream !in section.left ==>
          DealtWith(sh, section.work, key))
  }

  /** What a flush of the whole store has achieved for a stream whose driver has been dealt with. */
  ghost predicate Achieved(sh: Shared, phase: StorePhase, key: Key, n: nat) {
    match phase
    case FlushPhase => HandedOn(sh.disk, key, n)
    case WaitPhase => Durable(sh.disk, key, n)
    case TickPhase => true
  }

  /** The driver is still to be dealt with, or is being dealt with. */
  predicate Outstanding(thread: Thread, store: StoreSection, d: nat) {
    d in store.left || Holds(thread, d)
  }

  ghost predicate StoreSectionOk(sh: Shared, thread: Thread, store: StoreSection) {
    && store.left <= Listed(sh)
    && (thread.driver.Some? ==> thread.driver.value.work == WorkOf(store.phase))
    && forall key :: key in store.since ==>
         && key in sh.writers && store.since[key] <= |AcceptedAt(sh, key)|
         && key.driver in Listed(sh)
         && (store.phase == WaitPhase ==> HandedOn(sh.disk, key, store.since[key]))
         && (!Outstanding(thread, store, key.driver) ==> Achieved(sh, store.phase, key, store.since[key]))
  }

  ghost predicate ThreadOk(sh: Shared, thread: Thread) {
    && HeldOk(sh, thread)
    && (thread.driver.Some? ==> SectionOk(sh, thread.driver.value))
    && (thread.store.Some? ==> StoreSectionOk(sh, thread, thread.store.value))
  }

  /** Two threads are in each other's way: they hold the same lock. */
  predicate Clash(a: Thread, b: Thread) {
    || (a.store.Some? && b.store.Some?)
    || (a.driver.Some? && b.driver.Some? && a.driver.value.driver == b.driver.value.driver)
  }

  ghost predicate Exclusive(threads: seq<Thread>) {
    forall i, j :: 0 <= i < |threads| && 0 <= j < |threads| && i != j ==> !Clash(threads[i], threads[j])
  }

  ghost predicate Inv(s: State) {
    && SharedOk(s.sh)
    && (forall t :: 0 <= t < |s.threads| ==> ThreadOk(s.sh, s.threads[t]))
    && Exclusive(s.threads)
  }

  /** Nothing has happened yet: no driver, no event, no lock. */
  predicate Initial(s: State) {
    && s.sh.drivers == [] && s.sh.table == map[] && s.sh.writers == map[] && s.sh.accepted == map[]
    && s.sh.disk == Disk([], map[], map[], map[], {}, {})
    && forall t :: 0 <= t < |s.threads| ==>
         s.threads[t].held == map[] && s.threads[t].driver.None? && s.threads[t].store.None?
  }

  lemma InitialInv(s: State)
    requires Initial(s)
    ensures Inv(s)
  {
  }
}
