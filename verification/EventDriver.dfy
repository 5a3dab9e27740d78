/** The driver as it is: an object with a block writer for each stream, under one lock.

Each method is one critical section. What it does to a stream is stated as a function of all that has
gone through the stream's writer, and is the same as a step of the threads in `EventThreads`.
*/
module EventDriver {
  import opened EventBlocks
  import opened EventStore
  import BW = BlockWriter

  /** 15 minutes, in nanoseconds. */
  const IDLE_FLUSH_TIMEOUT := 15 * 60 * 1_000_000_000

  // ---- What happens to one stream ------------------------------------------------------------

  /** All that has gone through a writer, as an entry of a table. */
  datatype Log = Log(past: History)

  function NewLog(size: nat): Log {
    Log(NewPast(size))
  }

  /** The stream takes an event. */
  function Took(log: Log, event: Event): Log {
    Log(TakenIn(log.past, event))
  }

  /** The stream's current block is handed on. */
  function Emptied(log: Log): Log {
    Log(HandedOver(log.past))
  }

  // ---- The driver ----------------------------------------------------------------------------

  /** The stream's log, which is new if the stream has no writer. */
  function LogIn(logs: map<string, Log>, size: nat, name: string): Log {
    if name in logs then logs[name] else NewLog(size)
  }

  /** `change` has happened to the named streams, and nothing to any other. */
  ghost predicate Changed(before: map<string, Log>, after: map<string, Log>, size: nat, names: set<string>, change: Log -> Log) {
    forall name :: LogIn(after, size, name) == if name in names then change(LogIn(before, size, name)) else LogIn(before, size, name)
  }

  lemma ChangesOneMore(before: map<string, Log>, after: map<string, Log>, size: nat, names: set<string>, change: Log -> Log, name: string)
    requires Changed(before, after, size, names, change) && name !in names
    ensures Changed(before, after[name := change(LogIn(after, size, name))], size, names + {name}, change)
  {
    hide NewLog;
  }

  lemma NothingChanged(logs: map<string, Log>, size: nat, change: Log -> Log)
    ensures Changed(logs, logs, size, {}, change)
  {
    hide NewLog;
  }

  lemma ChangedMeans(before: map<string, Log>, after: map<string, Log>, size: nat, names: set<string>, change: Log -> Log)
    requires Changed(before, after, size, names, change)
    ensures forall name :: LogIn(after, size, name) == if name in names then change(LogIn(before, size, name)) else LogIn(before, size, name)
  {
  }

  function TimesIn(taken: map<string, seq<int>>, name: string): seq<int> {
    if name in taken then taken[name] else []
  }

  /** The named streams have taken events, and the last time is known of each. */
  predicate LastTimes(names: set<string>, lastEvent: map<string, int>, taken: map<string, seq<int>>) {
    && names == lastEvent.Keys == taken.Keys
    && forall name :: name in taken ==> taken[name] != [] && lastEvent[name] == taken[name][|taken[name]| - 1]
  }

  lemma TakesNow(names: set<string>, lastEvent: map<string, int>, taken: map<string, seq<int>>, name: string, now: int)
    requires LastTimes(names, lastEvent, taken)
    ensures LastTimes(names + {name}, lastEvent[name := now], taken[name := TimesIn(taken, name) + [now]])
  {
  }

  /** The named streams have taken an event now, and no other has. */
  ghost predicate Timed(taken: map<string, seq<int>>, taken': map<string, seq<int>>,
                        lastEvent: map<string, int>, lastEvent': map<string, int>, names: set<string>, now: int)
  {
    && (forall name :: TimesIn(taken', name) == TimesIn(taken, name) + if name in names then [now] else [])
    && (forall name :: name in lastEvent' <==> name in lastEvent || name in names)
    && (forall name :: name in lastEvent' ==> lastEvent'[name] == if name in names then now else lastEvent[name])
  }

  lemma NothingTimed(taken: map<string, seq<int>>, lastEvent: map<string, int>, now: int)
    ensures Timed(taken, taken, lastEvent, lastEvent, {}, now)
  {
    assert forall name :: TimesIn(taken, name) + [] == TimesIn(taken, name);
  }

  lemma TimedOneMore(taken: map<string, seq<int>>, taken': map<string, seq<int>>,
                     lastEvent: map<string, int>, lastEvent': map<string, int>, names: set<string>, now: int, name: string)
    requires Timed(taken, taken', lastEvent, lastEvent', names, now) && name !in names
    ensures Timed(taken, taken'[name := TimesIn(taken', name) + [now]], lastEvent, lastEvent'[name := now], names + {name}, now)
  {
    assert TimesIn(taken, name) + [] == TimesIn(taken, name);
  }

  lemma TimedMeans(taken: map<string, seq<int>>, taken': map<string, seq<int>>,
                   lastEvent: map<string, int>, lastEvent': map<string, int>, names: set<string>, now: int)
    requires Timed(taken, taken', lastEvent, lastEvent', names, now)
    ensures forall name :: TimesIn(taken', name) == TimesIn(taken, name) + if name in names then [now] else []
    ensures forall name :: name in lastEvent' <==> name in lastEvent || name in names
    ensures forall name :: name in lastEvent' ==> lastEvent'[name] == if name in names then now else lastEvent[name]
  {
  }

  /** A stream without a writer has nothing to hand on. */
  lemma OthersEmpty(logs: map<string, Log>, size: nat)
    ensures forall name :: name !in logs ==> Emptied(LogIn(logs, size, name)) == LogIn(logs, size, name)
  {
    assert Emptied(NewLog(size)) == NewLog(size);
  }

  type Writers = map<string, BW.BlockWriter>

  /** The writer is sound, belongs to the driver, and has gone through this. */
  ghost predicate Carries(writer: BW.BlockWriter, size: nat, log: Log)
    reads writer, writer.block
  {
    writer.Valid() && writer.size == size && writer.history == log.past
  }

  method NewBlockWriter(size: nat) returns (writer: BW.BlockWriter)
    ensures fresh(writer) && fresh(writer.block) && Carries(writer, size, NewLog(size))
  {
    writer := new BW.BlockWriter(size);
  }

  method WriteTo(writer: BW.BlockWriter, ghost size: nat, ghost log: Log, event: Event)
    requires Carries(writer, size, log)
    modifies writer, writer.block
    ensures Carries(writer, size, Took(log, event)) && (writer.block == old(writer.block) || fresh(writer.block))
  {
    var _, _ := writer.WriteEvent(event);
  }

  method FlushWriter(writer: BW.BlockWriter, ghost size: nat, ghost log: Log)
    requires Carries(writer, size, log)
    modifies writer
    ensures Carries(writer, size, Emptied(log)) && (writer.block == old(writer.block) || fresh(writer.block))
  {
    var _ := writer.Flush();
  }

  class Driver {
    const size: nat
    var streams: map<string, Filter>
    var writers: Writers
    var lastEvent: map<string, int>
    /** When each stream has taken events, in order. */
    ghost var taken: map<string, seq<int>>
    /** All that has gone through each writer. */
    ghost var logs: map<string, Log>
    /** The writers and their blocks, and the stream that each belongs to. */
    ghost var owner: map<object, string>

    ghost predicate Valid()
      reads this, owner.Keys
    {
      Sound() && OnTime()
    }

    /** Every stream has a writer and a block of its own. */
    ghost predicate Sound()
      reads `writers, `logs, `owner, owner.Keys
    {
      && this !in owner && logs.Keys == writers.Keys
      && forall name :: name in writers ==> Fine(name)
    }

    /** The streams that have taken events are those with a writer, and the last time is known of each. */
    ghost predicate OnTime()
      reads `writers, `lastEvent, `taken
    {
      LastTimes(writers.Keys, lastEvent, taken)
    }

    /** When the stream has taken events. */
    ghost function TimesOf(name: string): seq<int>
      reads `taken
    {
      TimesIn(taken, name)
    }

    ghost predicate Fine(name: string)
      requires name in writers && name in logs
      reads `writers, `owner, `logs, owner.Keys
    {
      Owns(name) && Carries(writers[name], size, logs[name])
    }

    ghost predicate Owns(name: string)
      requires name in writers
      reads `writers, `owner, owner.Keys
    {
      && writers[name] in owner && owner[writers[name]] == name
      && writers[name].block in owner && owner[writers[name].block] == name
    }

    /** All that has gone through the stream's writer, if it has one. */
    ghost function LogOf(name: string): Log
      reads `logs
    {
      LogIn(logs, size, name)
    }

    constructor (size: nat)
      ensures Valid() && owner == map[] && this.size == size
      ensures streams == map[] && logs == map[] && taken == map[]
    {
      this.size := size;
      streams, writers, lastEvent := map[], map[], map[];
      logs, owner, taken := map[], map[], map[];
    }

    method AddStream(name: string, filter: Filter)
      requires Valid()
      modifies `streams
      ensures Valid() && streams == old(streams)[name := filter]
    {
      streams := streams[name := filter];
    }

    predicate Passes(name: string, event: Event)
      reads `streams
    {
      name in streams && streams[name](event)
    }

    /** The stream takes the event: its filter lets it through, and the event is not to be ignored. */
    predicate Takes(name: string, event: Event)
      reads `streams
    {
      name in streams && streams[name](event) && !(event.source == "terminal" && event.action != "command")
    }

    /** Gives the event to every stream whose filter lets it through, in whatever order. */
    method HandleEvent(event: Event, now: int)
      requires Valid()
      modifies `writers, `lastEvent, `logs, `owner, `taken, owner.Keys
      ensures Valid() && fresh(owner.Keys - old(owner.Keys))
      ensures forall name :: LogOf(name) == if Takes(name, event) then Took(old(LogOf(name)), event) else old(LogOf(name))
      ensures forall name :: TimesOf(name) == old(TimesOf(name)) + if Takes(name, event) then [now] else []
      ensures forall name :: name in lastEvent <==> name in old(lastEvent) || Takes(name, event)
      ensures forall name :: name in lastEvent ==> lastEvent[name] == if Takes(name, event) then now else old(lastEvent)[name]
    {
      hide Took, LogIn, Changed, Timed, Fine, Owns, Carries, WriterOk;
      ghost var done: set<string> := {};
      ghost var change := (log: Log) => Took(log, event);
      NothingChanged(logs, size, change);
      NothingTimed(taken, lastEvent, now);
      if !Ignored(event) {
        var todo := streams.Keys;
        while todo != {}
          invariant Valid() && fresh(owner.Keys - old(owner.Keys)) && todo <= streams.Keys
          invariant Changed(old(logs), logs, size, done, change)
          invariant Timed(old(taken), taken, old(lastEvent), lastEvent, done, now)
          invariant forall name :: name in done <==> Passes(name, event) && name !in todo
        {
          var name :| name in todo;
          if streams[name](event) {
            ChangesOneMore(old(logs), logs, size, done, change, name);
            TimedOneMore(old(taken), taken, old(lastEvent), lastEvent, done, now, name);
            Write(name, event, now);
            done := done + {name};
          }
          todo := todo - {name};
        }
      }
      assert forall name :: name in done <==> Takes(name, event);
      ChangedMeans(old(logs), logs, size, done, change);
      TimedMeans(old(taken), taken, old(lastEvent), lastEvent, done, now);
    }

    /** Writes the event to one stream's writer, which is created if there is none. */
    method Write(name: string, event: Event, now: int)
      requires Valid()
      modifies `writers, `lastEvent, `logs, `owner, `taken, owner.Keys
      ensures Valid() && fresh(owner.Keys - old(owner.Keys))
      ensures logs == old(logs)[name := Took(LogIn(old(logs), size, name), event)]
      ensures lastEvent == old(lastEvent)[name := now]
      ensures taken == old(taken)[name := TimesIn(old(taken), name) + [now]]
    {
      hide Took, NewLog, LastTimes, Fine, Owns, Carries, WriterOk;
      ghost var before := writers.Keys;
      EnsureWriter(name);
      Stamp(name, now, before);
      Feed(name, event);
    }

    /** Makes a note of the time at which the stream takes an event. */
    method Stamp(name: string, now: int, ghost before: set<string>)
      requires Sound() && LastTimes(before, lastEvent, taken) && writers.Keys == before + {name}
      modifies `lastEvent, `taken
      ensures Sound() && OnTime()
      ensures lastEvent == old(lastEvent)[name := now]
      ensures taken == old(taken)[name := TimesIn(old(taken), name) + [now]]
    {
      hide Fine, Owns, Carries, WriterOk, LastTimes;
      TakesNow(before, lastEvent, taken, name, now);
      lastEvent := lastEvent[name := now];
      taken := taken[name := TimesIn(taken, name) + [now]];
    }

    /** Creates a writer for the stream if there is none. */
    method EnsureWriter(name: string)
      requires Sound()
      modifies `writers, `logs, `owner
      ensures Sound() && fresh(owner.Keys - old(owner.Keys)) && writers.Keys == old(writers.Keys) + {name}
      ensures logs == old(logs)[name := LogIn(old(logs), size, name)]
    {
      hide NewLog, Fine, Owns, Carries, WriterOk;
      if name !in writers {
        AddWriter(name);
      } else {
        assert logs[name := logs[name]] == logs;
      }
    }

    method AddWriter(name: string)
      requires Sound() && name !in writers
      modifies `writers, `logs, `owner
      ensures Sound() && fresh(owner.Keys - old(owner.Keys)) && writers.Keys == old(writers.Keys) + {name}
      ensures logs == old(logs)[name := NewLog(size)]
    {
      hide NewLog, Fine, Owns, Carries, WriterOk;
      var writer := NewBlockWriter(size);
      assert writer !in owner && writer.block !in owner;
      Adopt(name, writer);
    }

    method Adopt(name: string, writer: BW.BlockWriter)
      requires Sound() && name !in writers && writer !in owner && writer.block !in owner
      requires Carries(writer, size, NewLog(size))
      modifies `writers, `logs, `owner
      ensures Sound() && owner.Keys == old(owner.Keys) + {writer, writer.block} && writers.Keys == old(writers.Keys) + {name}
      ensures logs == old(logs)[name := NewLog(size)]
    {
      hide NewLog, Carries, WriterOk;
      writers := writers[name := writer];
      forall n | n in writers && n != name
        ensures Fine(n)
      {
        assert old(Fine(n));
      }
      Own(name);
      Record(name, NewLog(size));
    }

    /** The stream's writer belongs to it. */
    ghost method Own(name: string)
      requires this !in owner && logs.Keys + {name} == writers.Keys
      requires name in writers && writers[name] !in owner
      requires forall n :: n in writers && n != name ==> Fine(n)
      modifies `owner
      ensures owner == old(owner)[writers[name] := name]
      ensures forall n :: n in writers && n != name ==> Fine(n)
    {
      hide Carries, WriterOk;
      owner := owner[writers[name] := name];
      forall n | n in writers && n != name
        ensures Fine(n)
      {
        assert old(Fine(n));
      }
    }

    method Feed(name: string, event: Event)
      requires Sound() && name in writers
      modifies `logs, `owner, owner.Keys
      ensures Sound() && fresh(owner.Keys - old(owner.Keys))
      ensures logs == old(logs)[name := Took(old(logs)[name], event)]
    {
      hide Took, Carries, WriterOk;
      assert Owns(name);
      WriteTo(writers[name], size, logs[name], event);
      forall n | n in writers && n != name
        ensures Fine(n)
      {
        assert old(Fine(n));
      }
      Record(name, Took(logs[name], event));
    }

    /** Makes a note of what one writer has become. */
    ghost method Record(name: string, log: Log)
      requires this !in owner && logs.Keys + {name} == writers.Keys
      requires forall n :: n in writers && n != name ==> Fine(n)
      requires Carries(writers[name], size, log)
      requires writers[name] in owner && owner[writers[name]] == name
      requires writers[name].block in owner ==> owner[writers[name].block] == name
      modifies `logs, `owner
      ensures Sound() && logs == old(logs)[name := log] && owner == old(owner)[writers[name].block := name]
    {
      hide Carries, WriterOk;
      logs := logs[name := log];
      owner := owner[writers[name].block := name];
      forall n | n in writers
        ensures Fine(n)
      {
        assert n != name ==> old(Fine(n));
      }
    }

    /** Hands on the current block of every stream. */
    method Flush()
      requires Valid()
      modifies `logs, `owner, owner.Keys
      ensures Valid() && fresh(owner.Keys - old(owner.Keys))
      ensures forall name :: LogOf(name) == Emptied(old(LogOf(name)))
    {
      hide Emptied, LogIn, Changed, LastTimes, Fine, Owns, Carries, WriterOk;
      FlushAll();
      ChangedMeans(old(logs), logs, size, writers.Keys, Emptied);
      OthersEmpty(old(logs), size);
    }

    /** The loop over all writers. */
    method FlushAll()
      requires Sound()
      modifies `logs, `owner, owner.Keys
      ensures Sound() && fresh(owner.Keys - old(owner.Keys))
      ensures Changed(old(logs), logs, size, writers.Keys, Emptied)
    {
      hide Emptied, LogIn, Changed, Fine, Owns, Carries, WriterOk;
      NothingChanged(logs, size, Emptied);
      var todo := writers.Keys;
      assert writers.Keys - todo == {};
      while todo != {}
        invariant Sound() && fresh(owner.Keys - old(owner.Keys)) && todo <= writers.Keys
        invariant Changed(old(logs), logs, size, writers.Keys - todo, Emptied)
      {
        var name :| name in todo;
        ChangesOneMore(old(logs), logs, size, writers.Keys - todo, Emptied, name);
        FlushOne(name);
        assert writers.Keys - todo + {name} == writers.Keys - (todo - {name});
        todo := todo - {name};
      }
      assert writers.Keys - todo == writers.Keys;
    }

    method FlushOne(name: string)
      requires Sound() && name in writers
      modifies `logs, `owner, owner.Keys
      ensures Sound() && fresh(owner.Keys - old(owner.Keys))
      ensures logs == old(logs)[name := Emptied(LogIn(old(logs), size, name))]
    {
      hide Emptied, Carries, WriterOk;
      assert Owns(name);
      FlushWriter(writers[name], size, logs[name]);
      forall n | n in writers && n != name
        ensures Fine(n)
      {
        assert old(Fine(n));
      }
      Record(name, Emptied(logs[name]));
    }

    /** The stream has taken an event, but none in the last 15 minutes. */
    ghost predicate Idle(name: string, now: int)
      reads `taken
    {
      var times := TimesIn(taken, name);
      times != [] && now - times[|times| - 1] > 15 * 60 * 1_000_000_000
    }

    /** Hands on the current block of every stream that has been idle for too long. Times are in
        nanoseconds. */
    method FlushTicker(now: int)
      requires Valid()
      modifies `logs, `owner, owner.Keys
      ensures Valid() && fresh(owner.Keys - old(owner.Keys))
      ensures forall name :: LogOf(name) == if Idle(name, now) then Emptied(old(LogOf(name))) else old(LogOf(name))
    {
      hide Emptied, LogIn, Changed, Fine, Owns, Carries, WriterOk;
      ghost var idle := FlushIdle(now);
      ChangedMeans(old(logs), logs, size, idle, Emptied);
    }

    /** The loop over the writers whose last time is too long ago. */
    method FlushIdle(now: int) returns (ghost idle: set<string>)
      requires Sound()
      modifies `logs, `owner, owner.Keys
      ensures Sound() && fresh(owner.Keys - old(owner.Keys))
      ensures forall name :: name in idle <==>
                name in writers && name in lastEvent && now - lastEvent[name] > IDLE_FLUSH_TIMEOUT
      ensures Changed(old(logs), logs, size, idle, Emptied)
    {
      hide Emptied, LogIn, Changed, Fine, Owns, Carries, WriterOk;
      idle := {};
      NothingChanged(logs, size, Emptied);
      var todo := writers.Keys;
      while todo != {}
        invariant Sound() && fresh(owner.Keys - old(owner.Keys)) && todo <= writers.Keys
        invariant Changed(old(logs), logs, size, idle, Emptied)
        invariant forall name :: name in idle <==>
                    name in writers && name !in todo && name in lastEvent && now - lastEvent[name] > IDLE_FLUSH_TIMEOUT
      {
        var name :| name in todo;
        if name in lastEvent && now - lastEvent[name] > IDLE_FLUSH_TIMEOUT {
          ChangesOneMore(old(logs), logs, size, idle, Emptied, name);
          FlushOne(name);
          idle := idle + {name};
        }
        todo := todo - {name};
      }
    }
  }

  // ---- The same in the shared state ----------------------------------------------------------

  /** All that has gone through a stream's writer, as the shared state has it. */
  function LogAt(sh: Shared, key: Key): Log
    requires WritersOk(sh)
  {
    AcceptedIsOk(sh, key);
    Log(Past(sh.size, AcceptedAt(sh, key), BlocksOf(sh.disk.sent, key), WriterAt(sh, key)))
  }

  /** One writer moves on, and with it what has gone through it. */
  lemma LogMovesOn(sh: Shared, sh': Shared, key: Key, w: Writer, accepted: seq<Event>, blocks: seq<Block>, other: Key)
    requires WritersOk(sh) && WritersOk(sh') && key.driver < |sh.drivers| && |blocks| <= 1
    requires sh' == sh.(writers := sh.writers[key := w], accepted := sh.accepted[key := accepted],
                        disk := Spawn(sh.disk, key, sh.drivers[key.driver].um.user, blocks))
    ensures other != key ==> LogAt(sh', other) == LogAt(sh, other)
    ensures LogAt(sh', key).past == Past(sh.size, accepted, BlocksOf(sh.disk.sent, key) + blocks, w)
  {
    var user := sh.drivers[key.driver].um.user;
    BlocksOfSpawn(sh.disk, key, user, blocks, key);
    if other != key {
      BlocksOfSpawn(sh.disk, key, user, blocks, other);
      assert BlocksOf(sh.disk.sent, other) + [] == BlocksOf(sh.disk.sent, other);
    }
    hide *;
  }

  /** In the shared state, handling an event does to the stream what the driver does to it, and
      nothing to any other. */
  lemma AcceptIntoIsTook(sh: Shared, key: Key, event: Event, other: Key)
    requires SharedOk(sh) && key.driver < |sh.drivers|
    ensures Encoded(WriterAt(sh, key).events) && WritersOk(AcceptInto(sh, key, event))
    ensures LogAt(AcceptInto(sh, key, event), other)
         == if other == key then Took(LogAt(sh, key), event) else LogAt(sh, other)
  {
    AcceptIntoKeepsOk(sh, key, event);
    hide WriterOk, BlocksOf, Spawn, Accept, JobsOk, FilesOk;
    var (w, blocks) := Accept(sh.size, WriterAt(sh, key), event);
    AtMostOne(sh.size, WriterAt(sh, key), event);
    LogMovesOn(sh, AcceptInto(sh, key, event), key, w, AcceptedAt(sh, key) + Added(event), blocks, other);
  }

  /** The wait group of the stream counts the blocks handed on by accepting an event, as the block
      writer's does, and no other is touched. */
  lemma AcceptIntoRuns(sh: Shared, key: Key, event: Event, other: Key)
    requires SharedOk(sh) && key.driver < |sh.drivers| && Encoded(WriterAt(sh, key).events)
    ensures Running(AcceptInto(sh, key, event).disk, other)
         == Running(sh.disk, other) + if other == key then |Accept(sh.size, WriterAt(sh, key), event).1| else 0
  {
    AtMostOne(sh.size, WriterAt(sh, key), event);
    SpawnRuns(sh.disk, key, sh.drivers[key.driver].um.user, Accept(sh.size, WriterAt(sh, key), event).1, other);
    hide SharedOk, Accept, Spawn, Running;
  }

  /** The same for handing the current block on. */
  lemma FlushStreamIsEmptied(sh: Shared, key: Key, other: Key)
    requires SharedOk(sh) && key in sh.writers && key.driver < |sh.drivers|
    ensures WritersOk(FlushStream(sh, key))
    ensures LogAt(FlushStream(sh, key), other) == if other == key then Emptied(LogAt(sh, key)) else LogAt(sh, other)
  {
    FlushStreamKeepsOk(sh, key);
    hide WriterOk, BlocksOf, Spawn, EventBlocks.Flush, JobsOk, FilesOk, FlushStream;
    var (w, blocks) := EventBlocks.Flush(sh.writers[key], false);
    FlushStreamMoves(sh, key);
    LogMovesOn(sh, FlushStream(sh, key), key, w, sh.accepted[key], blocks, other);
  }

  lemma FlushStreamMoves(sh: Shared, key: Key)
    requires key in sh.writers && key in sh.accepted && key.driver < |sh.drivers|
    ensures var (w, blocks) := EventBlocks.Flush(sh.writers[key], false);
            && |blocks| <= 1
            && FlushStream(sh, key) == sh.(writers := sh.writers[key := w], accepted := sh.accepted[key := sh.accepted[key]],
                                           disk := Spawn(sh.disk, key, sh.drivers[key.driver].um.user, blocks))
  {
    assert sh.accepted[key := sh.accepted[key]] == sh.accepted;
    hide Spawn;
  }
}
