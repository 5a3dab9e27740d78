/** What handling an event and flushing come to over runs of the threads. */
module EventHandling {
  import opened GoStrings
  import opened EventBlocks
  import opened Wrappers
  import opened EventStore
  import opened EventThreads
  import opened EventInvariant
  import opened EventProgress
  import opened EventRemoval

  // ---- Blocks are packed -------------------------------------------------------------------------

  /** The step is a flush of the stream, or a flush for its being idle. */
  predicate FlushesStream(s: State, step: Step, key: Key) {
    && step.Stream? && step.t < |s.threads| && s.threads[step.t].driver.Some?
    && var section := s.threads[step.t].driver.value;
       section.driver == key.driver && step.stream == key.stream && (section.work.Flushing? || (section.work.Ticking? && step.idle))
  }

  function BlocksAt(s: State, key: Key): seq<Block> {
    BlocksOf(s.sh.disk.sent, key)
  }

  lemma AcceptPacks(sh: Shared, key: Key, event: Event)
    requires SharedOk(sh) && key.driver < |sh.drivers|
    ensures Encoded(WriterAt(sh, key).events)
    ensures NotFull(BlocksOf(AcceptInto(sh, key, event).disk.sent, key)) == NotFull(BlocksOf(sh.disk.sent, key))
  {
    AcceptedIsOk(sh, key);
    var w, blocks := WriterAt(sh, key), BlocksOf(sh.disk.sent, key);
    AcceptIs(sh.size, w, event);
    var handedOn := Accept(sh.size, w, event).1;
    BlocksOfSpawn(sh.disk, key, sh.drivers[key.driver].um.user, handedOn, key);
    if handedOn == [] {
      assert blocks + handedOn == blocks;
    } else {
      NotFullAppends(blocks, handedOn[0]);
    }
    hide SharedOk, WriterOk, CurrentOk, Accept, BlocksOf, Spawn, NotFull;
  }

  lemma FlushPacks(sh: Shared, key: Key)
    requires SharedOk(sh) && key in sh.writers && key.driver < |sh.drivers|
    ensures NotFull(BlocksOf(FlushStream(sh, key).disk.sent, key)) <= NotFull(BlocksOf(sh.disk.sent, key)) + 1
  {
    AcceptedIsOk(sh, key);
    var blocks := BlocksOf(sh.disk.sent, key);
    var handedOn := EventBlocks.Flush(sh.writers[key], false).1;
    BlocksOfSpawn(sh.disk, key, sh.drivers[key.driver].um.user, handedOn, key);
    if handedOn == [] {
      assert blocks + handedOn == blocks;
    } else {
      NotFullAppends(blocks, handedOn[0]);
    }
    hide SharedOk, WriterOk, BlocksOf, Spawn, NotFull;
  }

  lemma OtherBlocksStay(sh: Shared, here: Key, event: Event, key: Key)
    requires SharedOk(sh) && here.driver < |sh.drivers| && here != key
    ensures Encoded(WriterAt(sh, here).events)
    ensures BlocksOf(AcceptInto(sh, here, event).disk.sent, key) == BlocksOf(sh.disk.sent, key)
    ensures here in sh.writers ==> BlocksOf(FlushStream(sh, here).disk.sent, key) == BlocksOf(sh.disk.sent, key)
  {
    AcceptedIsOk(sh, here);
    var user := sh.drivers[here.driver].um.user;
    BlocksOfSpawn(sh.disk, here, user, Accept(sh.size, WriterAt(sh, here), event).1, key);
    if here in sh.writers {
      BlocksOfSpawn(sh.disk, here, user, EventBlocks.Flush(sh.writers[here], false).1, key);
    }
    hide SharedOk, WriterOk, CurrentOk, BlocksOf, Spawn;
    assert BlocksOf(sh.disk.sent, key) + [] == BlocksOf(sh.disk.sent, key);
  }

  function OneIf(b: bool): nat {
    if b then 1 else 0
  }

  lemma StreamedPacks(sh: Shared, section: Section, stream: string, idle: bool, key: Key)
    requires SharedOk(sh) && section.driver < |sh.drivers|
    requires section.work.Flushing? || section.work.Ticking? ==> Key(section.driver, stream) in sh.writers
    ensures NotFull(BlocksOf(Streamed(sh, section, stream, idle).disk.sent, key))
         <= NotFull(BlocksOf(sh.disk.sent, key))
            + OneIf(Key(section.driver, stream) == key && (section.work.Flushing? || (section.work.Ticking? && idle)))
  {
    var here := Key(section.driver, stream);
    hide SharedOk, AcceptInto, FlushStream, NotFull, BlocksOf;
    if here != key {
      OtherBlocksStay(sh, here, if section.work.Handling? then section.work.event else Event(0, "", "", NotEncodable), key);
    } else if section.work.Handling? {
      AcceptPacks(sh, key, section.work.event);
    } else if section.work.Flushing? || (section.work.Ticking? && idle) {
      FlushPacks(sh, key);
    }
  }

  /** Only a flush of the stream hands a block on that is not full, and no more than one. */
  lemma StepPacks(s: State, step: Step, key: Key)
    requires Inv(s) && Enabled(s, step)
    ensures NotFull(BlocksAt(Next(s, step), key)) <= NotFull(BlocksAt(s, key)) + OneIf(FlushesStream(s, step, key))
  {
    if step.Stream? {
      assert ThreadOk(s.sh, s.threads[step.t]);
      StreamedPacks(s.sh, s.threads[step.t].driver.value, step.stream, step.idle, key);
      hide Inv, SharedOk, ThreadOk, Streamed, NotFull, BlocksOf;
    } else {
      OthersPack(s, step, key);
      hide Inv, Enabled, Next, BlocksAt, NotFull;
    }
  }

  lemma OthersPack(s: State, step: Step, key: Key)
    requires Inv(s) && Enabled(s, step) && !step.Stream?
    ensures BlocksAt(Next(s, step), key) == BlocksAt(s, key)
  {
    if step.Begin? {
      BegunOk(s.sh, s.threads[step.t], s.threads[step.t].todo[0]);
    }
    hide Inv, BlocksOf;
  }

  /** How often the stream is flushed in a run. */
  ghost function Flushes(s: State, steps: seq<Step>, key: Key): nat
    requires Inv(s)
    decreases |steps|
  {
    if steps == [] || !Enabled(s, steps[0]) then 0
    else
      StepKeepsInv(s, steps[0]);
      OneIf(FlushesStream(s, steps[0], key)) + Flushes(Next(s, steps[0]), steps[1..], key)
  }

  lemma {:induction false} RunPacks(s: State, steps: seq<Step>, s': State, key: Key)
    requires Inv(s) && Runs(s, steps, s')
    ensures NotFull(BlocksAt(s', key)) <= NotFull(BlocksAt(s, key)) + Flushes(s, steps, key)
    decreases |steps|
  {
    if steps != [] {
      StepKeepsInv(s, steps[0]);
      StepPacks(s, steps[0], key);
      hide Inv, Enabled, Next, NotFull, BlocksAt, FlushesStream;
      RunPacks(Next(s, steps[0]), steps[1..], s', key);
    }
  }

  /** Over every run from the beginning, all blocks of a stream but one for each time that it was flushed
      were closed for lack of space, and take more than half the block size each, on average, of the bytes
      of the accepted events. */
  lemma RunsArePacked(s: State, steps: seq<Step>, s': State, key: Key)
    requires Initial(s) && (InitialInv(s); Runs(s, steps, s')) && key in s'.sh.accepted
    ensures Inv(s) && Encoded(s'.sh.accepted[key])
    ensures var blocks, flushes := |BlocksAt(s', key)|, Flushes(s, steps, key);
            blocks > flushes ==> (blocks - flushes) * s'.sh.size < 2 * Bytes(s'.sh.accepted[key])
  {
    hide *;
    InitialInv(s);
    RunKeepsInv(s, steps, s');
    RunPacks(s, steps, s', key);
    NoBlocksAtFirst(s, key);
    StreamIsOk(s', key);
    PackedBlocks(s'.sh.size, s'.sh.accepted[key], BlocksAt(s', key), s'.sh.writers[key], Flushes(s, steps, key));
  }

  lemma NoBlocksAtFirst(s: State, key: Key)
    requires Initial(s)
    ensures NotFull(BlocksAt(s, key)) == 0
  {
  }

  lemma StreamIsOk(s: State, key: Key)
    requires Inv(s) && key in s.sh.accepted
    ensures key in s.sh.writers && WriterOk(s.sh.size, s.sh.accepted[key], BlocksAt(s, key), s.sh.writers[key])
  {
    hide WriterOk;
  }

  lemma PackedBlocks(size: nat, accepted: seq<Event>, blocks: seq<Block>, w: Writer, flushes: nat)
    requires WriterOk(size, accepted, blocks, w) && NotFull(blocks) <= flushes
    ensures Encoded(accepted)
    ensures |blocks| > flushes ==> (|blocks| - flushes) * size < 2 * Bytes(accepted)
  {
    FullOrNot(blocks);
    PackingBound(size, accepted, blocks, w);
    if |blocks| > flushes {
      MoreBlocks(|blocks| - flushes, FullBlocks(blocks), size);
    }
    hide WriterOk, Bytes, FullBlocks, NotFull;
  }

  // ---- Events are handled once -------------------------------------------------------------------

  /** The event goes to this stream of the driver. */
  predicate GoesTo(sh: Shared, d: nat, event: Event, stream: string)
    requires d < |sh.drivers|
  {
    stream in sh.drivers[d].streams && sh.drivers[d].streams[stream](event)
  }

  /** Thread `t` is inside a driver's lock throughout. */
  ghost predicate InsideThroughout(s: State, steps: seq<Step>, t: nat)
    requires Inv(s)
    decreases |steps|
  {
    && t < |s.threads| && s.threads[t].driver.Some?
    && (steps == [] ||
        (&& Enabled(s, steps[0])
         && (StepKeepsInv(s, steps[0]); InsideThroughout(Next(s, steps[0]), steps[1..], t))))
  }

  /** What thread `t` has still to do while handling an event: `left`; the streams that it has dealt with
      have taken the event once. */
  ghost predicate Handing(s: State, t: nat, d: nat, event: Event, to: set<string>, before: Shared) {
    && t < |s.threads| && s.threads[t].driver.Some?
    && var section := s.threads[t].driver.value;
       && section.driver == d && section.work == Handling(event) && section.left <= to
       && forall stream :: AcceptedAt(s.sh, Key(d, stream))
            == AcceptedAt(before, Key(d, stream)) + if stream in to && stream !in section.left then Added(event) else []
  }

  /** What one stream of the driver has accepted changes only if the thread inside its lock deals with it. */
  lemma OthersLeaveStreams(s: State, step: Step, t: nat, d: nat, stream: string)
    requires Inv(s) && Enabled(s, step) && ByOther(step, t) && t < |s.threads| && Holds(s.threads[t], d)
    ensures AcceptedAt(Next(s, step).sh, Key(d, stream)) == AcceptedAt(s.sh, Key(d, stream))
  {
    match step {
      case Begin(u) =>
        BegunOk(s.sh, s.threads[u], s.threads[u].todo[0]);
        hide Inv;
      case Stream(u, other, idle) =>
        assert !Clash(s.threads[t], s.threads[u]) && ThreadOk(s.sh, s.threads[u]);
        StreamedAccepts(s.sh, s.threads[u].driver.value, other, idle, Key(d, stream));
        hide Inv, Streamed;
      case _ =>
        hide Inv;
    }
  }

  /** What dealing with one stream adds to what a stream has accepted. */
  lemma StreamedAccepts(sh: Shared, section: Section, stream: string, idle: bool, key: Key)
    requires SharedOk(sh) && section.driver < |sh.drivers|
    requires section.work.Flushing? || section.work.Ticking? ==> Key(section.driver, stream) in sh.writers
    ensures AcceptedAt(Streamed(sh, section, stream, idle), key)
         == AcceptedAt(sh, key)
            + if section.work.Handling? && key == Key(section.driver, stream) then Added(section.work.event) else []
  {
    assert AcceptedAt(sh, key) + [] == AcceptedAt(sh, key);
    if section.work.Handling? {
      AcceptedIsOk(sh, Key(section.driver, stream));
    }
    hide SharedOk, WriterOk, Spawn, Accept, EventBlocks.Flush;
  }

  lemma OtherKeepsHanding(s: State, step: Step, t: nat, d: nat, event: Event, to: set<string>, before: Shared)
    requires Inv(s) && Enabled(s, step) && ByOther(step, t) && Handing(s, t, d, event, to, before)
    ensures Handing(Next(s, step), t, d, event, to, before)
  {
    ThreadWaits(s, step, t);
    forall stream
      ensures AcceptedAt(Next(s, step).sh, Key(d, stream)) == AcceptedAt(s.sh, Key(d, stream))
    {
      OthersLeaveStreams(s, step, t, d, stream);
    }
    hide Inv, Enabled, Next, AcceptedAt, Added;
  }

  lemma StreamKeepsHanding(s: State, t: nat, stream: string, idle: bool, d: nat, event: Event, to: set<string>, before: Shared)
    requires Inv(s) && Enabled(s, Stream(t, stream, idle)) && Handing(s, t, d, event, to, before)
    ensures Handing(Next(s, Stream(t, stream, idle)), t, d, event, to, before)
  {
    var section := s.threads[t].driver.value;
    assert ThreadOk(s.sh, s.threads[t]);
    var sh' := Next(s, Stream(t, stream, idle)).sh;
    forall other
      ensures AcceptedAt(sh', Key(d, other)) == AcceptedAt(s.sh, Key(d, other)) + if other == stream then Added(event) else []
    {
      StreamedAccepts(s.sh, section, stream, idle, Key(d, other));
    }
    StreamTakesOff(s, t, stream, idle);
    HandingGoesOn(s, Next(s, Stream(t, stream, idle)), t, d, event, to, before, stream);
    hide *;
  }

  lemma StreamTakesOff(s: State, t: nat, stream: string, idle: bool)
    requires Inv(s) && Enabled(s, Stream(t, stream, idle))
    ensures var s', section := Next(s, Stream(t, stream, idle)), s.threads[t].driver.value;
            && stream in section.left && t < |s'.threads|
            && s'.threads[t].driver == Some(section.(left := section.left - {stream}))
  {
    hide Inv, Streamed;
  }

  lemma HandingGoesOn(s: State, s': State, t: nat, d: nat, event: Event, to: set<string>, before: Shared, stream: string)
    requires Handing(s, t, d, event, to, before) && t < |s'.threads|
    requires stream in s.threads[t].driver.value.left
    requires s'.threads[t].driver == Some(s.threads[t].driver.value.(left := s.threads[t].driver.value.left - {stream}))
    requires forall other ::
               AcceptedAt(s'.sh, Key(d, other)) == AcceptedAt(s.sh, Key(d, other)) + if other == stream then Added(event) else []
    ensures Handing(s', t, d, event, to, before)
  {
    hide Added, AcceptedAt;
    forall other
      ensures AcceptedAt(s'.sh, Key(d, other))
           == AcceptedAt(before, Key(d, other)) + if other in to && other !in s'.threads[t].driver.value.left then Added(event) else []
    {
      assert AcceptedAt(before, Key(d, other)) + [] == AcceptedAt(before, Key(d, other));
    }
  }

  lemma {:induction false} RunKeepsHanding(s: State, steps: seq<Step>, s': State, t: nat, d: nat, event: Event, to: set<string>, before: Shared)
    requires Inv(s) && Runs(s, steps, s') && InsideThroughout(s, steps, t) && Handing(s, t, d, event, to, before)
    ensures Handing(s', t, d, event, to, before)
    decreases |steps|
  {
    if steps != [] {
      StepKeepsInv(s, steps[0]);
      StepKeepsHanding(s, steps, t, d, event, to, before);
      hide Inv, Enabled, Next, Handing;
      RunKeepsHanding(Next(s, steps[0]), steps[1..], s', t, d, event, to, before);
    }
  }

  lemma StepKeepsHanding(s: State, steps: seq<Step>, t: nat, d: nat, event: Event, to: set<string>, before: Shared)
    requires Inv(s) && steps != [] && InsideThroughout(s, steps, t) && Handing(s, t, d, event, to, before)
    ensures Enabled(s, steps[0]) && Handing(Next(s, steps[0]), t, d, event, to, before)
  {
    var step := steps[0];
    if ByOther(step, t) {
      OtherKeepsHanding(s, step, t, d, event, to, before);
    } else {
      StaysInside(s, steps, t);
      StreamKeepsHanding(s, t, step.stream, step.idle, d, event, to, before);
    }
    hide *;
  }

  /** A thread that stays inside a driver's lock does nothing but deal with streams. */
  lemma StaysInside(s: State, steps: seq<Step>, t: nat)
    requires Inv(s) && steps != [] && InsideThroughout(s, steps, t) && !ByOther(steps[0], t)
    ensures Enabled(s, steps[0]) && steps[0].Stream? && steps[0].t == t
  {
    StepKeepsInv(s, steps[0]);
    hide Inv, Streamed;
  }

  /** Between taking a driver's lock to handle an event and letting go of it, every stream whose filter lets
      the event through takes the event once, unless it cannot be encoded, and the others take nothing,
      whatever other threads do meanwhile. */
  lemma HandledOnce(s: State, t: nat, steps: seq<Step>, s': State, um: UserMachine, event: Event, stream: string)
    requires Inv(s) && Enabled(s, Begin(t)) && s.threads[t].todo[0] == Handle(um, event)
    requires um in s.threads[t].held && !(event.source == "terminal" && event.action != "command")
    requires Inv(Next(s, Begin(t))) && Runs(Next(s, Begin(t)), steps, s') && InsideThroughout(Next(s, Begin(t)), steps, t)
    requires Inv(s') && Enabled(s', Leave(t))
    ensures var d := s.threads[t].held[um];
            && d < |s.sh.drivers|
            && AcceptedAt(s'.sh, Key(d, stream))
               == AcceptedAt(s.sh, Key(d, stream))
                  + if GoesTo(s.sh, d, event, stream) && event.json != NotEncodable then [event] else []
  {
    var d := s.threads[t].held[um];
    var begun := Next(s, Begin(t));
    HandingBegins(s, t, um, event);
    RunKeepsHanding(begun, steps, s', t, d, event, PassingStreams(s.sh, d, event), s.sh);
    assert s'.threads[t].driver.value.left == {};
    HandingEnds(s', t, d, event, PassingStreams(s.sh, d, event), s.sh, stream);
    assert stream in PassingStreams(s.sh, d, event) <==> GoesTo(s.sh, d, event, stream);
    hide Inv, Next, Runs, InsideThroughout, Handing;
  }

  /** A terminal event that is not a complete command changes nothing, whoever handles it. */
  lemma IgnoredIsSkipped(s: State, t: nat, um: UserMachine, event: Event)
    requires Inv(s) && Enabled(s, Begin(t)) && s.threads[t].todo[0] == Handle(um, event)
    requires event.source == "terminal" && event.action != "command"
    ensures var s' := Next(s, Begin(t));
            s'.sh == s.sh && s'.threads == s.threads[t := s.threads[t].(todo := s.threads[t].todo[1..])]
  {
  }

  /** When a driver's streams are checked for being idle, the current block of each one that is goes to a
      background writer, and nothing happens to the others. */
  lemma IdleIsFlushed(s: State, t: nat, stream: string, idle: bool)
    requires Inv(s) && Enabled(s, Stream(t, stream, idle)) && s.threads[t].driver.value.work == Ticking
    ensures var key := Key(s.threads[t].driver.value.driver, stream);
            var s' := Next(s, Stream(t, stream, idle));
            && key in s.sh.writers && key in s'.sh.writers && s'.sh.accepted == s.sh.accepted
            && (!idle ==> s'.sh == s.sh)
            && (idle ==> s'.sh.writers[key].events == []
                         && Events(BlocksAt(s', key)) == Events(BlocksAt(s, key)) + s.sh.writers[key].events)
  {
    var section := s.threads[t].driver.value;
    var key := Key(section.driver, stream);
    assert ThreadOk(s.sh, s.threads[t]) && SectionOk(s.sh, section);
    if idle {
      FlushedGoOn(s.sh, key);
    }
    hide Inv, SharedOk, SectionOk, FlushStream, BlocksOf, Events;
  }

  /** A tick goes over all listed drivers, and over all streams of each that have a writer. */
  lemma TickGoesOverAll(s: State, t: nat)
    requires Inv(s) && Enabled(s, Begin(t)) && s.threads[t].todo[0] == Tick
    ensures var store := Next(s, Begin(t)).threads[t].store;
            && store.Some? && store.value.phase == TickPhase
            && forall um :: um in s.sh.table ==> s.sh.table[um] in store.value.left
  {
    hide Inv;
  }

  lemma EnteringGoesOverAll(s: State, t: nat, d: nat)
    requires Inv(s) && Enabled(s, Enter(t, d))
    ensures var section := Next(s, Enter(t, d)).threads[t].driver;
            && section.Some? && section.value.driver == d
            && (s.threads[t].store.value.phase == TickPhase ==> section.value.work == Ticking)
            && forall key :: key in s.sh.writers && key.driver == d ==> key.stream in section.value.left
  {
    hide Inv;
  }

  lemma FlushedGoOn(sh: Shared, key: Key)
    requires SharedOk(sh) && key in sh.writers && key.driver < |sh.drivers|
    ensures var sh' := FlushStream(sh, key);
            && key in sh'.writers && sh'.accepted == sh.accepted && sh'.writers[key].events == []
            && Events(BlocksOf(sh'.disk.sent, key)) == Events(BlocksOf(sh.disk.sent, key)) + sh.writers[key].events
  {
    FlushStreamKeepsOk(sh, key);
    var sh' := FlushStream(sh, key);
    assert WriterOk(sh.size, sh.accepted[key], BlocksOf(sh.disk.sent, key), sh.writers[key]);
    assert WriterOk(sh'.size, sh'.accepted[key], BlocksOf(sh'.disk.sent, key), sh'.writers[key]);
    hide DiskOk, BlocksOf, Events, CurrentOk, BlocksOk, Chained, Spawn;
  }

  lemma HandingEnds(s: State, t: nat, d: nat, event: Event, to: set<string>, before: Shared, stream: string)
    requires Handing(s, t, d, event, to, before) && s.threads[t].driver.value.left == {}
    ensures AcceptedAt(s.sh, Key(d, stream)) == AcceptedAt(before, Key(d, stream)) + if stream in to then Added(event) else []
  {
    hide AcceptedAt, Added;
  }

  lemma HandingBegins(s: State, t: nat, um: UserMachine, event: Event)
    requires Inv(s) && Enabled(s, Begin(t)) && s.threads[t].todo[0] == Handle(um, event)
    requires um in s.threads[t].held && !(event.source == "terminal" && event.action != "command")
    ensures s.threads[t].held[um] < |s.sh.drivers|
    ensures var d := s.threads[t].held[um]; Handing(Next(s, Begin(t)), t, d, event, PassingStreams(s.sh, d, event), s.sh)
  {
    assert ThreadOk(s.sh, s.threads[t]);
    forall stream
      ensures AcceptedAt(s.sh, Key(s.threads[t].held[um], stream)) + [] == AcceptedAt(s.sh, Key(s.threads[t].held[um], stream))
    {
    }
    hide Inv, AcceptedAt, PassingStreams, SharedOk;
  }

  // ---- Which driver a user gets ------------------------------------------------------------------

  /** Looking a driver up gives the one that is listed for the user and machine, or lists a new one
      without streams. */
  lemma DriverIsListed(s: State, t: nat, um: UserMachine)
    requires Inv(s) && Enabled(s, Begin(t)) && s.threads[t].todo[0] == DriverForUser(um)
    ensures var s' := Next(s, Begin(t));
            && t < |s'.threads| && um in s'.threads[t].held && um in s'.sh.table
            && s'.threads[t].held[um] == s'.sh.table[um] && s'.sh.table[um] in Listed(s'.sh)
            && (um in s.sh.table ==> s'.sh == s.sh)
            && (um !in s.sh.table ==>
                  s'.sh.table[um] == |s.sh.drivers| && s'.sh.drivers == s.sh.drivers + [Driver(um, map[])])
  {
    hide Inv;
  }

  /** Adding a stream to a driver that the thread holds puts the filter in place, and does nothing else to
      what is shared. */
  lemma StreamIsAdded(s: State, t: nat, um: UserMachine, name: string, filter: Filter)
    requires Inv(s) && Enabled(s, Begin(t)) && s.threads[t].todo[0] == AddStream(um, name, filter) && um in s.threads[t].held
    ensures var sh, sh', d := s.sh, Next(s, Begin(t)).sh, s.threads[t].held[um];
            && d < |sh.drivers|
            && sh'.drivers == sh.drivers[d := Driver(sh.drivers[d].um, sh.drivers[d].streams[name := filter])]
            && sh'.table == sh.table && sh'.writers == sh.writers && sh'.accepted == sh.accepted && sh'.disk == sh.disk
  {
    assert ThreadOk(s.sh, s.threads[t]);
    hide Inv;
  }

  /** Unlisting a driver takes its user and machine off the table, and does nothing else. */
  lemma DriverIsUnlisted(s: State, t: nat, um: UserMachine)
    requires Inv(s) && Enabled(s, Begin(t)) && s.threads[t].todo[0] == Unlist(um) && um in s.threads[t].held
    ensures var sh, sh', d := s.sh, Next(s, Begin(t)).sh, s.threads[t].held[um];
            && d < |sh.drivers| && sh.drivers[d].um !in sh'.table
            && sh'.drivers == sh.drivers && sh'.writers == sh.writers && sh'.accepted == sh.accepted && sh'.disk == sh.disk
            && forall other :: other != sh.drivers[d].um ==>
                 (other in sh'.table <==> other in sh.table) && (other in sh.table ==> sh'.table[other] == sh.table[other])
  {
    assert ThreadOk(s.sh, s.threads[t]);
    hide Inv;
  }

  // ---- Whose blocks they are ---------------------------------------------------------------------

  /** Every block that has been handed on is stored under the user of its driver. */
  ghost predicate UsersOk(sh: Shared) {
    forall id: nat :: id < |sh.disk.sent| ==>
      var sent := sh.disk.sent[id];
      sent.key.driver < |sh.drivers| && sent.user == sh.drivers[sent.key.driver].um.user
  }

  lemma SpawnKeepsUsers(sh: Shared, sh': Shared, key: Key, blocks: seq<Block>)
    requires UsersOk(sh) && key.driver < |sh.drivers| && sh'.drivers == sh.drivers
    requires sh'.disk == Spawn(sh.disk, key, sh.drivers[key.driver].um.user, blocks)
    ensures UsersOk(sh')
  {
    forall id: nat | id < |sh'.disk.sent|
      ensures var sent := sh'.disk.sent[id];
              sent.key.driver < |sh'.drivers| && sent.user == sh'.drivers[sent.key.driver].um.user
    {
      assert id < |sh.disk.sent| ==> sh'.disk.sent[id] == sh.disk.sent[id];
    }
  }

  lemma StreamedKeepsUsers(sh: Shared, section: Section, stream: string, idle: bool)
    requires SharedOk(sh) && UsersOk(sh) && section.driver < |sh.drivers|
    requires section.work.Flushing? || section.work.Ticking? ==> Key(section.driver, stream) in sh.writers
    ensures UsersOk(Streamed(sh, section, stream, idle))
  {
    var key := Key(section.driver, stream);
    if section.work.Handling? {
      WriterIsEncoded(sh, key);
      SpawnKeepsUsers(sh, AcceptInto(sh, key, section.work.event), key, Accept(sh.size, WriterAt(sh, key), section.work.event).1);
    } else if key in sh.writers {
      SpawnKeepsUsers(sh, FlushStream(sh, key), key, EventBlocks.Flush(sh.writers[key], false).1);
    }
    hide SharedOk, UsersOk, Spawn, Accept, EventBlocks.Flush;
  }

  lemma BegunKeepsUsers(s: State, t: nat)
    requires Inv(s) && Enabled(s, Begin(t)) && UsersOk(s.sh)
    ensures UsersOk(Next(s, Begin(t)).sh)
  {
    DriversStay(s, t);
    SameUsers(s.sh, Next(s, Begin(t)).sh);
    hide *;
  }

  lemma DriversStay(s: State, t: nat)
    requires Inv(s) && Enabled(s, Begin(t))
    ensures var sh, sh' := s.sh, Next(s, Begin(t)).sh;
            && sh'.disk == sh.disk && |sh.drivers| <= |sh'.drivers|
            && forall d: nat :: d < |sh.drivers| ==> sh'.drivers[d].um == sh.drivers[d].um
  {
    assert ThreadOk(s.sh, s.threads[t]);
    BegunKeepsDrivers(s.sh, s.threads[t], s.threads[t].todo[0]);
    hide Inv, Begun, SharedOk, CanBegin, SectionOk, StoreSectionOk;
  }

  lemma BegunKeepsDrivers(sh: Shared, thread: Thread, op: Op)
    requires SharedOk(sh) && HeldOk(sh, thread)
    ensures var sh' := Begun(sh, thread, op).0;
            && sh'.disk == sh.disk && |sh.drivers| <= |sh'.drivers|
            && forall d: nat :: d < |sh.drivers| ==> sh'.drivers[d].um == sh.drivers[d].um
  {
    hide WritersOk, DiskOk, Listed, Census, PassingStreams, WriterStreams;
  }

  lemma SameUsers(sh: Shared, sh': Shared)
    requires UsersOk(sh) && sh'.disk == sh.disk && |sh.drivers| <= |sh'.drivers|
    requires forall d: nat :: d < |sh.drivers| ==> sh'.drivers[d].um == sh.drivers[d].um
    ensures UsersOk(sh')
  {
  }

  lemma JobKeepsUsers(s: State, step: Step)
    requires Inv(s) && Enabled(s, step) && UsersOk(s.sh) && !step.Begin? && !step.Stream?
    ensures UsersOk(Next(s, step).sh)
  {
    hide Inv;
  }

  lemma StepKeepsUsers(s: State, step: Step)
    requires Inv(s) && Enabled(s, step) && UsersOk(s.sh)
    ensures UsersOk(Next(s, step).sh)
  {
    if step.Begin? {
      BegunKeepsUsers(s, step.t);
    } else if step.Stream? {
      assert ThreadOk(s.sh, s.threads[step.t]);
      StreamedKeepsUsers(s.sh, s.threads[step.t].driver.value, step.stream, step.idle);
    } else {
      JobKeepsUsers(s, step);
    }
    hide Inv, SharedOk, UsersOk, Streamed;
  }

  lemma {:induction false} RunKeepsUsers(s: State, steps: seq<Step>, s': State)
    requires Inv(s) && Runs(s, steps, s') && UsersOk(s.sh)
    ensures UsersOk(s'.sh)
    decreases |steps|
  {
    if steps != [] {
      StepKeepsInv(s, steps[0]);
      StepKeepsUsers(s, steps[0]);
      hide Inv, Enabled, Next, UsersOk;
      RunKeepsUsers(Next(s, steps[0]), steps[1..], s');
    }
  }

  // ---- What is stored stays ------------------------------------------------------------------

  /** Every entry of the metadata manager and every file is still there, as it was. */
  predicate EntriesStay(disk: Disk, disk': Disk) {
    && (forall name :: name in disk.catalog ==> name in disk'.catalog && disk'.catalog[name] == disk.catalog[name])
    && (forall name :: name in disk.store ==> name in disk'.store && disk'.store[name] == disk.store[name])
  }

  lemma StepKeepsEntries(s: State, step: Step)
    requires Inv(s) && Enabled(s, step)
    ensures EntriesStay(s.sh.disk, Next(s, step).sh.disk)
  {
    if step.Begin? {
      DriversStay(s, step.t);
    } else if step.Stream? {
      assert ThreadOk(s.sh, s.threads[step.t]);
      StreamedKeepsEntries(s.sh, s.threads[step.t].driver.value, step.stream, step.idle);
    } else {
      JobKeepsEntries(s, step);
    }
    hide Inv, SharedOk, Streamed, EntriesStay;
    EntriesStayThere(s.sh.disk);
  }

  lemma EntriesStayThere(disk: Disk)
    ensures EntriesStay(disk, disk)
  {
  }

  lemma StreamedKeepsEntries(sh: Shared, section: Section, stream: string, idle: bool)
    requires SharedOk(sh) && section.driver < |sh.drivers|
    requires section.work.Flushing? || section.work.Ticking? ==> Key(section.driver, stream) in sh.writers
    ensures EntriesStay(sh.disk, Streamed(sh, section, stream, idle).disk)
  {
    var key := Key(section.driver, stream);
    AcceptedIsOk(sh, key);
    if section.work.Handling? {
      AcceptKeepsEntries(sh, key, section.work.event);
    } else if key in sh.writers {
      FlushKeepsEntries(sh, key);
    }
    EntriesStayThere(sh.disk);
    hide SharedOk, AcceptInto, FlushStream, WriterOk, EntriesStay;
  }

  lemma AcceptKeepsEntries(sh: Shared, key: Key, event: Event)
    requires key.driver < |sh.drivers| && Encoded(WriterAt(sh, key).events)
    ensures EntriesStay(sh.disk, AcceptInto(sh, key, event).disk)
  {
    hide Accept;
  }

  lemma FlushKeepsEntries(sh: Shared, key: Key)
    requires key.driver < |sh.drivers| && key in sh.writers
    ensures EntriesStay(sh.disk, FlushStream(sh, key).disk)
  {
    hide EventBlocks.Flush;
  }

  /** A write stores what a file of that name already has, if there is one. */
  lemma JobKeepsEntries(s: State, step: Step)
    requires Inv(s) && Enabled(s, step) && !step.Begin? && !step.Stream?
    ensures EntriesStay(s.sh.disk, Next(s, step).sh.disk)
  {
    hide Inv, Write, AddMetadata, Finish, EntriesStay, CanBegin, CanStream, DiskOk, Begun, Streamed, Listed, WriterStreams;
    JobsAreSent(s);
    match step {
      case WriteSucceeds(id) => WriteKeepsEntries(s.sh.disk, id);
      case AddsMetadata(id) => OthersKeepEntries(s.sh.disk, id);
      case Finishes(id) => OthersKeepEntries(s.sh.disk, id);
      case _ => EntriesStayThere(s.sh.disk);
    }
  }

  lemma JobsAreSent(s: State)
    requires Inv(s)
    ensures DiskOk(s.sh.disk) && forall id :: id in s.sh.disk.jobs ==> id < |s.sh.disk.sent|
  {
    hide JobOk, FilesOk, WritersOk, ThreadOk, Exclusive;
  }

  lemma OthersKeepEntries(disk: Disk, id: nat)
    ensures EntriesStay(disk, Finish(disk, id))
    ensures id < |disk.sent| ==> EntriesStay(disk, AddMetadata(disk, id))
  {
    hide File;
  }

  lemma WriteKeepsEntries(disk: Disk, id: nat)
    requires DiskOk(disk) && id < |disk.sent|
    ensures EntriesStay(disk, Write(disk, id))
  {
    hide Contents, File, EntriesStay, FilesOk, JobsOk;
    if File(disk.sent[id]) in disk.store {
      SameContents(disk, id);
    }
    FileIsAdded(disk, Write(disk, id), File(disk.sent[id]), Contents(disk.sent[id]));
  }

  lemma FileIsAdded(disk: Disk, disk': Disk, file: Filename, contents: seq<byte>)
    requires disk'.catalog == disk.catalog && disk'.store == disk.store[file := contents]
    requires file in disk.store ==> disk.store[file] == contents
    ensures EntriesStay(disk, disk')
  {
  }

  /** Files of the same name have the same contents. */
  lemma SameContents(disk: Disk, id: nat)
    requires FilesOk(disk) && id < |disk.sent| && File(disk.sent[id]) in disk.store
    ensures disk.store[File(disk.sent[id])] == Contents(disk.sent[id])
  {
    var file := File(disk.sent[id]);
    assert FromWrite(disk, file);
    var other :| other in disk.written && other < |disk.sent| && File(disk.sent[other]) == file;
    assert InStore(disk, other);
    hide Contents, FromWrite, FromAdding, InCatalog;
  }

  /** Over every run, a metadata entry once made is never changed or dropped, even when another block comes
      by the same name, and neither is a file. */
  lemma {:induction false} RunKeepsEntries(s: State, steps: seq<Step>, s': State)
    requires Inv(s) && Runs(s, steps, s')
    ensures EntriesStay(s.sh.disk, s'.sh.disk)
    decreases |steps|
  {
    if steps != [] {
      StepKeepsInv(s, steps[0]);
      StepKeepsEntries(s, steps[0]);
      hide Inv, Enabled, Next;
      RunKeepsEntries(Next(s, steps[0]), steps[1..], s');
    }
  }

  /** Over every run from the beginning, a block that is stored is found in full under the user of its
      driver, its stream and its contents. */
  lemma BlocksAreStoredForTheirUser(s: State, steps: seq<Step>, s': State, id: nat)
    requires Initial(s) && (InitialInv(s); Runs(s, steps, s')) && Stored(s'.sh.disk, id)
    ensures var sh := s'.sh;
            var sent := sh.disk.sent[id];
            && sent.key.driver < |sh.drivers| && Encoded(sent.block.events)
            && var name := Filename(sh.drivers[sent.key.driver].um.user, sent.key.stream, Payload(sent.block.events));
               name in sh.disk.store && sh.disk.store[name] == Payload(sent.block.events) && name in sh.disk.catalog
  {
    InitialInv(s);
    assert UsersOk(s.sh);
    RunKeepsUsers(s, steps, s');
    RunKeepsInv(s, steps, s');
    SentIsEncoded(s', id);
    StoredInFull(s'.sh.disk, id);
    hide Inv, Runs, Initial, Payload, Stored;
  }

  lemma SentIsEncoded(s: State, id: nat)
    requires Inv(s) && id < |s.sh.disk.sent|
    ensures Encoded(s.sh.disk.sent[id].block.events)
  {
    var sent := s.sh.disk.sent;
    var key := sent[id].key;
    assert WriterOk(s.sh.size, s.sh.accepted[key], BlocksOf(sent, key), s.sh.writers[key]);
    var i := BlockIsThere(sent, id);
    assert BlockOk(s.sh.size, BlocksOf(sent, key)[i]);
  }

  lemma {:induction false} BlockIsThere(sent: seq<Sent>, id: nat) returns (i: nat)
    requires id < |sent|
    ensures i < |BlocksOf(sent, sent[id].key)| && BlocksOf(sent, sent[id].key)[i] == sent[id].block
  {
    var n := |sent| - 1;
    if id == n {
      i := |BlocksOf(sent[..n], sent[id].key)|;
    } else {
      i := BlockIsThere(sent[..n], id);
    }
  }
}
