/** A run in which an event comes too late for the removal of its driver and is never stored.

Two threads have got hold of the same driver. The first one removes it: it flushes the driver and
waits. Before it takes the driver off the list, the second one handles an event. A flush of the store
then no longer finds the driver.
*/
module EventTooLate {
  import opened EventBlocks
  import opened Wrappers
  import opened EventStore
  import opened EventThreads
  import opened EventInvariant
  import opened EventProgress
  import opened EventRemoval

  /** What the run is about; nothing depends on the choice. */
  datatype Setting = Setting(size: nat, um: UserMachine, name: string, event: Event)
  {
    predicate Valid() {
      event.json.Json? && !Ignored(event)
    }

    function Everything(): Filter {
      _ => true
    }

    function FirstCalls(): seq<Op> {
      [DriverForUser(um), AddStream(um, name, Everything()), Op.Flush(um), Op.Wait(um), Unlist(um), FlushStore]
    }

    function SecondCalls(): seq<Op> {
      [DriverForUser(um), Handle(um, event)]
    }

    function TheKey(): Key {
      Key(0, name)
    }

    function Plain(streams: map<string, Filter>, listed: bool): Shared {
      Shared(size, [Driver(um, streams)], if listed then map[um := 0] else map[], map[], map[],
             Disk([], map[], map[], map[], {}, {}))
    }

    /** The event has been taken. */
    function Late(listed: bool): Shared {
      Plain(map[name := Everything()], listed).(
        writers := map[TheKey() := Appended(NewWriter, event)], accepted := map[TheKey() := [event]])
    }

    /** A thread that holds the driver and has begun all but the calls from the `i`-th on. */
    function At(calls: seq<Op>, i: nat): Thread
      requires i <= |calls|
    {
      Thread(calls[i..], map[um := 0], None, None)
    }
  }

  /** A run of one more step. */
  lemma Further(s: State, steps: seq<Step>, m: State, step: Step, m': State)
    requires Inv(s) && Runs(s, steps, m) && Inv(m) && Enabled(m, step) && m' == Next(m, step)
    ensures Inv(m') && Runs(s, steps + [step], m')
  {
    OneStepFurther(s, steps, m, step);
  }

  lemma {:induction false} OneStepFurther(s: State, steps: seq<Step>, m: State, step: Step)
    requires Inv(s) && Runs(s, steps, m) && Inv(m) && Enabled(m, step)
    ensures Inv(Next(m, step)) && Runs(s, steps + [step], Next(m, step))
    decreases |steps|
  {
    hide *;
    StepKeepsInv(m, step);
    if steps == [] {
      RunOfOne(s, m, step);
      assert [] + [step] == [step];
    } else {
      FirstOfRun(s, steps, m);
      OneStepFurther(Next(s, steps[0]), steps[1..], m, step);
      RunFrom(s, steps[0], steps[1..] + [step], Next(m, step));
      assert steps + [step] == [steps[0]] + (steps[1..] + [step]);
    }
  }

  lemma FirstOfRun(s: State, steps: seq<Step>, m: State)
    requires Inv(s) && Runs(s, steps, m) && steps != []
    ensures Enabled(s, steps[0]) && Inv(Next(s, steps[0])) && Runs(Next(s, steps[0]), steps[1..], m)
  {
    StepKeepsInv(s, steps[0]);
  }

  lemma RunOfOne(s: State, m: State, step: Step)
    requires Inv(s) && Runs(s, [], m) && Inv(m) && Enabled(m, step) && Inv(Next(m, step))
    ensures Runs(s, [step], Next(m, step))
  {
    hide Inv, Enabled, Next;
    assert [step][1..] == [];
  }

  lemma RunFrom(s: State, step: Step, rest: seq<Step>, s': State)
    requires Inv(s) && Enabled(s, step) && Inv(Next(s, step)) && Runs(Next(s, step), rest, s')
    ensures Runs(s, [step] + rest, s')
  {
    hide Inv, Enabled, Next;
    assert ([step] + rest)[1..] == rest;
  }

  /** Nothing has happened yet. */
  function Beginning(x: Setting): State {
    State(Shared(x.size, [], map[], map[], map[], Disk([], map[], map[], map[], {}, {})),
          [Thread(x.FirstCalls(), map[], None, None), Thread(x.SecondCalls(), map[], None, None)])
  }

  lemma FirstGetsDriver(x: Setting) returns (s0: State, steps: seq<Step>, s: State)
    ensures Initial(s0) && Inv(s0) && Inv(s) && Runs(s0, steps, s)
    ensures s == State(x.Plain(map[], true), [x.At(x.FirstCalls(), 1), Thread(x.SecondCalls(), map[], None, None)])
  {
    s0 := Beginning(x);
    InitialInv(s0);
    s := State(x.Plain(map[], true), [x.At(x.FirstCalls(), 1), Thread(x.SecondCalls(), map[], None, None)]);
    assert Next(s0, Begin(0)) == s;
    Further(s0, [], s0, Begin(0), s);
    steps := [] + [Begin(0)];
  }

  lemma SecondGetsDriver(x: Setting, s0: State, steps: seq<Step>, s: State) returns (steps': seq<Step>, s': State)
    requires Inv(s0) && Runs(s0, steps, s) && Inv(s)
    requires s == State(x.Plain(map[], true), [x.At(x.FirstCalls(), 1), Thread(x.SecondCalls(), map[], None, None)])
    ensures Inv(s') && Runs(s0, steps', s')
    ensures s' == State(x.Plain(map[], true), [x.At(x.FirstCalls(), 1), x.At(x.SecondCalls(), 1)])
  {
    hide Runs;
    s' := State(x.Plain(map[], true), [x.At(x.FirstCalls(), 1), x.At(x.SecondCalls(), 1)]);
    assert Next(s, Begin(1)) == s';
    Further(s0, steps, s, Begin(1), s');
    steps' := steps + [Begin(1)];
  }

  lemma FirstAddsStream(x: Setting, s0: State, steps: seq<Step>, s: State) returns (steps': seq<Step>, s': State)
    requires Inv(s0) && Runs(s0, steps, s) && Inv(s)
    requires s == State(x.Plain(map[], true), [x.At(x.FirstCalls(), 1), x.At(x.SecondCalls(), 1)])
    ensures Inv(s') && Runs(s0, steps', s')
    ensures s' == State(x.Plain(map[x.name := x.Everything()], true), [x.At(x.FirstCalls(), 2), x.At(x.SecondCalls(), 1)])
  {
    hide Runs;
    s' := State(x.Plain(map[x.name := x.Everything()], true), [x.At(x.FirstCalls(), 2), x.At(x.SecondCalls(), 1)]);
    assert Next(s, Begin(0)) == s';
    Further(s0, steps, s, Begin(0), s');
    steps' := steps + [Begin(0)];
  }

  /** With no events there are no writers to flush or to wait for. */
  lemma NoWriters(x: Setting, d: nat)
    ensures WriterStreams(x.Plain(map[x.name := x.Everything()], true), d) == {}
  {
  }

  /** The first thread begins its call on the driver, finds nothing to do, and lets go of the driver. */
  lemma FirstFindsNothing(x: Setting, i: nat, work: Work, s0: State, steps: seq<Step>, s: State)
    returns (steps': seq<Step>, s': State)
    requires (i == 2 && work == Flushing) || (i == 3 && work == Waiting)
    requires Inv(s0) && Runs(s0, steps, s) && Inv(s)
    requires s == State(x.Plain(map[x.name := x.Everything()], true), [x.At(x.FirstCalls(), i), x.At(x.SecondCalls(), 1)])
    ensures Inv(s') && Runs(s0, steps', s')
    ensures s' == s.(threads := [x.At(x.FirstCalls(), i + 1), x.At(x.SecondCalls(), 1)])
  {
    var second := x.At(x.SecondCalls(), 1);
    var m := s.(threads := [x.At(x.FirstCalls(), i + 1).(driver := Some(Section(0, work, {}))), second]);
    NoWriters(x, 0);
    hide Runs, WriterStreams;
    assert Next(s, Begin(0)) == m;
    Further(s0, steps, s, Begin(0), m);
    s' := s.(threads := [x.At(x.FirstCalls(), i + 1), second]);
    assert Next(m, Leave(0)) == s';
    Further(s0, steps + [Begin(0)], m, Leave(0), s');
    steps' := steps + [Begin(0)] + [Leave(0)];
  }

  function Handled(x: Setting, sh: Shared, left: set<string>): State {
    State(sh, [x.At(x.FirstCalls(), 4), x.At(x.SecondCalls(), 2).(driver := Some(Section(0, Handling(x.event), left)))])
  }

  lemma SecondBegins(x: Setting, s0: State, steps: seq<Step>, s: State) returns (steps': seq<Step>, s': State)
    requires x.Valid() && Inv(s0) && Runs(s0, steps, s) && Inv(s)
    requires s == State(x.Plain(map[x.name := x.Everything()], true), [x.At(x.FirstCalls(), 4), x.At(x.SecondCalls(), 1)])
    ensures Inv(s') && Runs(s0, steps', s')
    ensures s' == Handled(x, x.Plain(map[x.name := x.Everything()], true), {x.name})
  {
    s' := Handled(x, x.Plain(map[x.name := x.Everything()], true), {x.name});
    hide Runs;
    assert PassingStreams(s.sh, 0, x.event) == {x.name};
    assert Next(s, Begin(1)) == s';
    Further(s0, steps, s, Begin(1), s');
    steps' := steps + [Begin(1)];
  }

  lemma SecondWrites(x: Setting, s0: State, steps: seq<Step>, s: State) returns (steps': seq<Step>, s': State)
    requires x.Valid() && Inv(s0) && Runs(s0, steps, s) && Inv(s)
    requires s == Handled(x, x.Plain(map[x.name := x.Everything()], true), {x.name})
    ensures Inv(s') && Runs(s0, steps', s')
    ensures s' == Handled(x, x.Late(true), {})
  {
    s' := Handled(x, x.Late(true), {});
    EventFits(x);
    hide Runs, AcceptInto, Setting.Late;
    assert {x.name} - {x.name} == {};
    assert Next(s, Stream(1, x.name, false)) == s';
    Further(s0, steps, s, Stream(1, x.name, false), s');
    steps' := steps + [Stream(1, x.name, false)];
  }

  lemma SecondLeaves(x: Setting, s0: State, steps: seq<Step>, s: State) returns (steps': seq<Step>, s': State)
    requires x.Valid() && Inv(s0) && Runs(s0, steps, s) && Inv(s)
    requires s == Handled(x, x.Late(true), {})
    ensures Inv(s') && Runs(s0, steps', s')
    ensures s' == State(x.Late(true), [x.At(x.FirstCalls(), 4), x.At(x.SecondCalls(), 2)])
  {
    s' := State(x.Late(true), [x.At(x.FirstCalls(), 4), x.At(x.SecondCalls(), 2)]);
    hide Runs, Setting.Late;
    assert Next(s, Leave(1)) == s';
    Further(s0, steps, s, Leave(1), s');
    steps' := steps + [Leave(1)];
  }

  /** The second thread handles the event. */
  lemma SecondHandles(x: Setting, s0: State, steps: seq<Step>, s: State) returns (steps': seq<Step>, s': State)
    requires x.Valid() && Inv(s0) && Runs(s0, steps, s) && Inv(s)
    requires s == State(x.Plain(map[x.name := x.Everything()], true), [x.At(x.FirstCalls(), 4), x.At(x.SecondCalls(), 1)])
    ensures Inv(s') && Runs(s0, steps', s')
    ensures s' == State(x.Late(true), [x.At(x.FirstCalls(), 4), x.At(x.SecondCalls(), 2)])
  {
    steps', s' := SecondBegins(x, s0, steps, s);
    hide *;
    steps', s' := SecondWrites(x, s0, steps', s');
    steps', s' := SecondLeaves(x, s0, steps', s');
  }

  /** The first event of a writer never closes a block. */
  lemma EventFits(x: Setting)
    requires x.Valid()
    ensures AcceptInto(x.Plain(map[x.name := x.Everything()], true), x.TheKey(), x.event) == x.Late(true)
  {
    assert [] + [x.event] == [x.event];
  }

  lemma NothingListed(x: Setting)
    ensures x.Late(true).(table := x.Late(true).table - {x.um}) == x.Late(false)
    ensures Listed(x.Late(false)) == {} && Census(x.Late(false)) == map[]
  {
    assert map[x.um := 0] - {x.um} == map[];
  }

  /** The first thread takes the driver off the list. */
  lemma FirstUnlists(x: Setting, s0: State, steps: seq<Step>, s: State) returns (steps': seq<Step>, s': State)
    requires Inv(s0) && Runs(s0, steps, s) && Inv(s)
    requires s == State(x.Late(true), [x.At(x.FirstCalls(), 4), x.At(x.SecondCalls(), 2)])
    ensures Inv(s') && Runs(s0, steps', s')
    ensures s' == State(x.Late(false), [x.At(x.FirstCalls(), 5), x.At(x.SecondCalls(), 2)])
  {
    s' := State(x.Late(false), [x.At(x.FirstCalls(), 5), x.At(x.SecondCalls(), 2)]);
    NothingListed(x);
    assert Next(s, Begin(0)) == s';
    Further(s0, steps, s, Begin(0), s');
    steps' := steps + [Begin(0)];
  }

  /** The first thread flushes the store, which finds no driver. */
  lemma FirstFlushesStore(x: Setting, s0: State, steps: seq<Step>, s: State) returns (steps': seq<Step>, s': State)
    requires Inv(s0) && Runs(s0, steps, s) && Inv(s)
    requires s == State(x.Late(false), [x.At(x.FirstCalls(), 5), x.At(x.SecondCalls(), 2)])
    ensures Inv(s') && Runs(s0, steps', s')
    ensures s' == State(x.Late(false), [x.At(x.FirstCalls(), 6), x.At(x.SecondCalls(), 2)])
  {
    NothingListed(x);
    hide Setting.Late, Listed, Census, Runs;
    var second := x.At(x.SecondCalls(), 2);
    var m1 := State(x.Late(false), [x.At(x.FirstCalls(), 6).(store := Some(StoreSection(FlushPhase, {}, map[]))), second]);
    assert Next(s, Begin(0)) == m1;
    Further(s0, steps, s, Begin(0), m1);
    var m2 := State(x.Late(false), [x.At(x.FirstCalls(), 6).(store := Some(StoreSection(WaitPhase, {}, map[]))), second]);
    assert Next(m1, Advance(0)) == m2;
    Further(s0, steps + [Begin(0)], m1, Advance(0), m2);
    s' := State(x.Late(false), [x.At(x.FirstCalls(), 6), second]);
    assert Next(m2, Advance(0)) == s';
    Further(s0, steps + [Begin(0)] + [Advance(0)], m2, Advance(0), s');
    steps' := steps + [Begin(0)] + [Advance(0)] + [Advance(0)];
  }

  lemma NothingHandedOn(disk: Disk, key: Key)
    requires disk.sent == []
    ensures !Durable(disk, key, 1) && !HandedOn(disk, key, 1)
  {
    assert BlocksOf([], key) == [];
    if Durable(disk, key, 1) {
      DurableIsHandedOn(disk, key, 1);
      assert false;
    }
  }

  /** Whatever the event, the block size and the names: all calls of the run have returned, a removal of
      the driver and a flush of the store among them, and the event is neither durable nor handed on. */
  lemma LateEventIsNotStored(x: Setting) returns (s0: State, steps: seq<Step>, s: State)
    requires x.Valid()
    ensures Initial(s0) && Inv(s0) && Runs(s0, steps, s) && AllDone(s)
    ensures x.TheKey() in s.sh.accepted && s.sh.accepted[x.TheKey()] == [x.event]
    ensures !Durable(s.sh.disk, x.TheKey(), 1) && !HandedOn(s.sh.disk, x.TheKey(), 1)
  {
    hide Inv, Runs, Next;
    s0, steps, s := FirstGetsDriver(x);
    steps, s := SecondGetsDriver(x, s0, steps, s);
    steps, s := FirstAddsStream(x, s0, steps, s);
    steps, s := FirstFindsNothing(x, 2, Flushing, s0, steps, s);
    steps, s := FirstFindsNothing(x, 3, Waiting, s0, steps, s);
    steps, s := SecondHandles(x, s0, steps, s);
    steps, s := FirstUnlists(x, s0, steps, s);
    steps, s := FirstFlushesStore(x, s0, steps, s);
    NothingHandedOn(s.sh.disk, x.TheKey());
    hide Durable, HandedOn, Setting.Plain;
  }
}
