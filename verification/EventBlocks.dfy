/** Packing one stream's events into bounded blocks.

A writer collects events in its current block. A block is handed on when the next event does not
fit, or when somebody flushes; what is handed on is a `Block` together with its metadata.
*/
module EventBlocks {
  import opened GoStrings
  import opened Wrappers

  /** The outcome of encoding an event. An event's JSON form is never empty. */
  datatype Encoding = NotEncodable | Json(first: byte, rest: seq<byte>)
  {
    function Text(): (r: seq<byte>)
      requires Json?
      ensures |r| == 1 + |rest|
    {
      [first] + rest
    }
  }

  datatype Event = Event(timestamp: int, source: string, action: string, json: Encoding)

  datatype Metadata = Metadata(start: int, end: int, count: nat)

  /** A block that has been handed on; `full` if that was for lack of space. */
  datatype Block = Block(events: seq<Event>, meta: Metadata, full: bool)

  /** The part of a writer that changes: the events in its current block, and their metadata. */
  datatype Writer = Writer(events: seq<Event>, meta: Option<Metadata>)

  const NewWriter := Writer([], None)

  // ---- Encodings -----------------------------------------------------------------------------

  predicate Encoded(events: seq<Event>) {
    forall i :: 0 <= i < |events| ==> events[i].json.Json?
  }

  function Encodings(events: seq<Event>): (r: seq<seq<byte>>)
    requires Encoded(events)
    ensures |r| == |events|
  {
    if events == [] then [] else Encodings(events[..|events| - 1]) + [events[|events| - 1].json.Text()]
  }

  function Concat(parts: seq<seq<byte>>): seq<byte> {
    if parts == [] then [] else Concat(parts[..|parts| - 1]) + parts[|parts| - 1]
  }

  /** How much room the events take. */
  function Bytes(events: seq<Event>): nat
    requires Encoded(events)
  {
    if events == [] then 0 else Bytes(events[..|events| - 1]) + |events[|events| - 1].json.Text()|
  }

  lemma {:induction false} BytesIsLength(events: seq<Event>)
    requires Encoded(events)
    ensures Bytes(events) == |Concat(Encodings(events))|
    ensures Bytes(events) == 0 <==> events == []
  {
    if events != [] {
      BytesIsLength(events[..|events| - 1]);
      assert Encodings(events)[..|events| - 1] == Encodings(events[..|events| - 1]);
    }
  }

  lemma {:induction false} BytesSplits(a: seq<Event>, b: seq<Event>)
    requires Encoded(a) && Encoded(b)
    ensures Encoded(a + b) && Bytes(a + b) == Bytes(a) + Bytes(b)
  {
    if b == [] {
      assert a + b == a;
    } else {
      var b' := b[..|b| - 1];
      BytesSplits(a, b');
      assert (a + b)[..|a + b| - 1] == a + b';
    }
  }

  function Reverse<T>(s: seq<T>): (r: seq<T>)
    ensures |r| == |s|
  {
    if s == [] then [] else [s[|s| - 1]] + Reverse(s[..|s| - 1])
  }

  lemma {:induction false} ReverseSplits<T>(a: seq<T>, b: seq<T>)
    ensures Reverse(a + b) == Reverse(b) + Reverse(a)
  {
    if b == [] {
      assert a + b == a;
    } else {
      ReverseSplits(a, b[..|b| - 1]);
      assert (a + b)[..|a + b| - 1] == a + b[..|b| - 1];
    }
  }

  lemma {:induction false} EncodingsAre(events: seq<Event>, i: nat)
    requires Encoded(events) && i < |events|
    ensures Encodings(events)[i] == [events[i].json.first] + events[i].json.rest
  {
    if i < |events| - 1 {
      EncodingsAre(events[..|events| - 1], i);
    }
  }

  /** What a block is stored as (before compression): its events, newest first. */
  function Payload(events: seq<Event>): seq<byte>
    requires Encoded(events)
  {
    Concat(Reverse(Encodings(events)))
  }

  /** An event that comes later is stored in front of those before it. */
  lemma PayloadNewestFirst(events: seq<Event>, event: Event)
    requires Encoded(events) && event.json.Json?
    ensures Encoded(events + [event])
    ensures Payload([]) == [] && Payload(events + [event]) == [event.json.first] + event.json.rest + Payload(events)
  {
    assert (events + [event])[..|events|] == events;
    var parts, text := Encodings(events), event.json.Text();
    assert (parts + [text])[..|parts|] == parts;
    ConcatFront(text, Reverse(parts));
  }

  lemma {:induction false} ConcatFront(first: seq<byte>, rest: seq<seq<byte>>)
    ensures Concat([first] + rest) == first + Concat(rest)
  {
    if rest == [] {
      assert ([first] + rest)[..0] == [];
    } else {
      ConcatFront(first, rest[..|rest| - 1]);
      assert ([first] + rest)[..|rest|] == [first] + rest[..|rest| - 1];
    }
  }

  // ---- Accepting and flushing ----------------------------------------------------------------

  /** Hands the current block on, if there is anything in it. */
  function Flush(w: Writer, full: bool): (r: (Writer, seq<Block>))
  {
    if w.events == [] || w.meta.None? then (w, [])
    else (NewWriter, [Block(w.events, w.meta.value, full)])
  }

  /** An event at the end of the current block. */
  function Appended(w: Writer, event: Event): Writer {
    var meta := if w.meta.None? then Metadata(event.timestamp, event.timestamp, 1)
                else w.meta.value.(end := event.timestamp, count := w.meta.value.count + 1);
    Writer(w.events + [event], Some(meta))
  }

  /** Hands the current block on if `json` does not fit into it. */
  function Roomy(size: nat, w: Writer, json: seq<byte>): (Writer, seq<Block>)
    requires Encoded(w.events)
  {
    if |json| > size - Bytes(w.events) then Flush(w, true) else (w, [])
  }

  /** Adds an event, after handing the current block on if the event does not fit. An event that
      could not be encoded is dropped. */
  function Accept(size: nat, w: Writer, event: Event): (r: (Writer, seq<Block>))
    requires Encoded(w.events)
  {
    if event.json.NotEncodable? then (w, [])
    else
      var (w', blocks) := Roomy(size, w, event.json.Text());
      (Appended(w', event), blocks)
  }

  /** The events that `Accept` adds to the stream: the event, or none. */
  function Added(event: Event): seq<Event> {
    if event.json.Json? then [event] else []
  }

  function Events(blocks: seq<Block>): seq<Event> {
    if blocks == [] then [] else Events(blocks[..|blocks| - 1]) + blocks[|blocks| - 1].events
  }

  /** Terminal events other than complete commands are of no interest. */
  predicate Ignored(event: Event) {
    event.source == "terminal" && event.action != "command"
  }

  // ---- What holds of a writer at all times ---------------------------------------------------

  /** The metadata counts the events and has the first and the last timestamp. */
  predicate Describes(meta: Metadata, events: seq<Event>) {
    && events != []
    && meta.count == |events|
    && meta.start == events[0].timestamp
    && meta.end == events[|events| - 1].timestamp
  }

  predicate WithinSize(size: nat, events: seq<Event>)
    requires Encoded(events)
  {
    Bytes(events) <= size || |events| == 1
  }

  predicate BlockOk(size: nat, block: Block) {
    Encoded(block.events) && Describes(block.meta, block.events) && WithinSize(size, block.events)
  }

  /** The events of the block after the `i`-th, which may be the current one. */
  function Following(blocks: seq<Block>, current: seq<Event>, i: nat): seq<Event>
    requires i < |blocks|
  {
    if i + 1 < |blocks| then blocks[i + 1].events else current
  }

  /** If a block was closed for lack of space, it and the event that starts the next overflow. */
  predicate Overflows(size: nat, blocks: seq<Block>, current: seq<Event>, i: nat)
    requires i < |blocks|
  {
    blocks[i].full ==> TooMuch(size, blocks[i].events, Following(blocks, current, i))
  }

  /** The first of the `next` events does not fit behind `events`. */
  predicate TooMuch(size: nat, events: seq<Event>, next: seq<Event>) {
    && Encoded(events) && next != [] && next[0].json.Json?
    && Bytes(events) + |next[0].json.Text()| > size
  }

  predicate BlocksOk(size: nat, blocks: seq<Block>) {
    forall i :: 0 <= i < |blocks| ==> BlockOk(size, blocks[i])
  }

  /** No block was closed for lack of space while its successor's first event would have fit. */
  predicate Chained(size: nat, blocks: seq<Block>, current: seq<Event>) {
    forall i :: 0 <= i < |blocks| ==> Overflows(size, blocks, current, i)
  }

  /** The current block is empty exactly if it has no metadata, and is described by what it has. */
  predicate CurrentOk(size: nat, w: Writer) {
    && Encoded(w.events)
    && (w.events == [] <==> w.meta.None?)
    && (w.meta.Some? ==> Describes(w.meta.value, w.events))
    && WithinSize(size, w.events)
  }

  /** The stream's events in order are those of the blocks handed on followed by those of the
      current block; every block is described by its metadata, within the size or a single event;
      and blocks are closed for lack of space only when there is none. */
  ghost predicate WriterOk(size: nat, accepted: seq<Event>, blocks: seq<Block>, w: Writer) {
    && accepted == Events(blocks) + w.events
    && CurrentOk(size, w)
    && BlocksOk(size, blocks)
    && Chained(size, blocks, w.events)
  }

  /** A writer together with all that has gone through it. */
  datatype Past = Past(size: nat, accepted: seq<Event>, blocks: seq<Block>, writer: Writer)

  type History = past: Past | WriterOk(past.size, past.accepted, past.blocks, past.writer)
    ghost witness Past(0, [], [], NewWriter)

  lemma NewWriterOk(size: nat)
    ensures WriterOk(size, [], [], NewWriter)
  {
  }

  lemma EventsAppend(blocks: seq<Block>, block: Block)
    ensures Events(blocks + [block]) == Events(blocks) + block.events
  {
    assert (blocks + [block])[..|blocks|] == blocks;
  }

  lemma BlocksAppend(size: nat, blocks: seq<Block>, block: Block, next: seq<Event>)
    requires BlocksOk(size, blocks) && Chained(size, blocks, block.events) && BlockOk(size, block)
    requires block.full ==> TooMuch(size, block.events, next)
    ensures BlocksOk(size, blocks + [block]) && Chained(size, blocks + [block], next)
  {
    var all := blocks + [block];
    hide BlockOk, TooMuch;
    forall i | 0 <= i < |all|
      ensures BlockOk(size, all[i])
    {
      assert i < |blocks| ==> all[i] == blocks[i];
    }
    forall i | 0 <= i < |all|
      ensures Overflows(size, all, next, i)
    {
      if i < |blocks| {
        assert Overflows(size, blocks, block.events, i);
        assert Following(all, next, i) == Following(blocks, block.events, i) && all[i] == blocks[i];
      }
    }
  }

  lemma ChainedExtends(size: nat, blocks: seq<Block>, current: seq<Event>, event: Event)
    requires Chained(size, blocks, current)
    ensures Chained(size, blocks, current + [event])
  {
    forall i | 0 <= i < |blocks|
      ensures Overflows(size, blocks, current + [event], i)
    {
      assert Overflows(size, blocks, current, i);
    }
  }

  lemma FlushKeepsOk(size: nat, accepted: seq<Event>, blocks: seq<Block>, w: Writer)
    requires WriterOk(size, accepted, blocks, w)
    ensures var (w', handedOn) := Flush(w, false);
            && WriterOk(size, accepted, blocks + handedOn, w') && w' == NewWriter
            && (handedOn == [] <==> w.events == [])
  {
    var (w', handedOn) := Flush(w, false);
    if handedOn == [] {
      assert blocks + handedOn == blocks;
    } else {
      BlocksAppend(size, blocks, handedOn[0], []);
      EventsAppend(blocks, handedOn[0]);
      hide Overflows, Chained, BlockOk, BlocksOk;
      assert accepted == Events(blocks + handedOn) + [];
    }
  }

  lemma AcceptKeepsOk(size: nat, accepted: seq<Event>, blocks: seq<Block>, w: Writer, event: Event)
    requires WriterOk(size, accepted, blocks, w)
    ensures var (w', handedOn) := Accept(size, w, event);
            WriterOk(size, accepted + Added(event), blocks + handedOn, w')
  {
    var handedOn := Accept(size, w, event).1;
    if event.json.NotEncodable? {
      assert blocks + handedOn == blocks && accepted + Added(event) == accepted;
    } else if handedOn == [] {
      assert blocks + handedOn == blocks;
      AppendKeepsOk(size, accepted, blocks, w, event);
    } else {
      CloseKeepsOk(size, accepted, blocks, w, event);
    }
  }

  /** The current block stays described and within the size if the event fits or is the first. */
  lemma AppendedOk(size: nat, w: Writer, event: Event)
    requires CurrentOk(size, w) && event.json.Json?
    requires w.events == [] || Bytes(w.events) + |event.json.Text()| <= size
    ensures CurrentOk(size, Appended(w, event))
  {
    var w' := Appended(w, event);
    assert w'.events[..|w.events|] == w.events;
  }

  /** The event goes into the current block. */
  lemma AppendKeepsOk(size: nat, accepted: seq<Event>, blocks: seq<Block>, w: Writer, event: Event)
    requires WriterOk(size, accepted, blocks, w) && event.json.Json? && Accept(size, w, event).1 == []
    ensures WriterOk(size, accepted + [event], blocks, Appended(w, event))
  {
    BytesIsLength(w.events);
    AppendedOk(size, w, event);
    ChainedExtends(size, blocks, w.events, event);
    assert Events(blocks) + w.events + [event] == Events(blocks) + (w.events + [event]);
  }

  /** The current block is closed for lack of space, and the event starts the next one. */
  lemma CloseKeepsOk(size: nat, accepted: seq<Event>, blocks: seq<Block>, w: Writer, event: Event)
    requires WriterOk(size, accepted, blocks, w) && event.json.Json? && Accept(size, w, event).1 != []
    ensures var (w', handedOn) := Accept(size, w, event);
            WriterOk(size, accepted + [event], blocks + handedOn, w')
  {
    var handedOn := Accept(size, w, event).1;
    BlocksAppend(size, blocks, handedOn[0], [event]);
    EventsAppend(blocks, handedOn[0]);
    AppendedOk(size, NewWriter, event);
    assert Appended(NewWriter, event).events == [event];
    assert blocks + handedOn == blocks + [handedOn[0]];
  }

  // ---- When blocks are handed on -----------------------------------------------------------------

  /** Flushing hands the current block on unless it is empty. */
  lemma FlushIs(size: nat, w: Writer, full: bool)
    requires CurrentOk(size, w)
    ensures w.events == [] ==> Flush(w, full) == (w, [])
    ensures w.events != [] ==>
              w.meta.Some? && Flush(w, full) == (Writer([], None), [Block(w.events, w.meta.value, full)])
  {
  }

  /** Accepting an event that could not be encoded does nothing. Accepting any other hands the current
      block on if and only if the block is not empty and the event would overflow it, and then because it
      is full; the event starts the next block. Otherwise it joins the current block. */
  lemma AcceptIs(size: nat, w: Writer, event: Event)
    requires CurrentOk(size, w)
    ensures event.json.NotEncodable? ==> Accept(size, w, event) == (w, [])
    ensures event.json.Json? ==>
              var (after, handedOn) := Accept(size, w, event);
              if w.events != [] && |Concat(Encodings(w.events))| + 1 + |event.json.rest| > size then
                && w.meta.Some? && handedOn == [Block(w.events, w.meta.value, true)]
                && after.events == [event] && after.meta == Some(Metadata(event.timestamp, event.timestamp, 1))
              else
                && handedOn == [] && after.events == w.events + [event]
                && after.meta.Some? && Describes(after.meta.value, w.events + [event])
  {
    BytesIsLength(w.events);
    assert [] + [event] == [event];
    hide Bytes, Encodings, Concat;
  }

  // ---- The packing bound ---------------------------------------------------------------------

  function FullBlocks(blocks: seq<Block>): nat {
    if blocks == [] then 0 else (if blocks[0].full then 1 else 0) + FullBlocks(blocks[1..])
  }

  function TotalBytes(blocks: seq<Block>, current: seq<Event>): nat
    requires Encoded(current) && forall i :: 0 <= i < |blocks| ==> Encoded(blocks[i].events)
  {
    if blocks == [] then Bytes(current) else Bytes(blocks[0].events) + TotalBytes(blocks[1..], current)
  }

  lemma OneMore(m: nat, size: nat)
    ensures (m + 1) * (size + 1) == m * (size + 1) + (size + 1)
  {
  }

  lemma {:induction false} FirstEventFits(events: seq<Event>)
    requires Encoded(events) && events != []
    ensures |events[0].json.Text()| <= Bytes(events)
  {
    if |events| > 1 {
      FirstEventFits(events[..|events| - 1]);
    }
  }

  /** With `m` blocks closed for lack of space, `m` times more than `size` bytes are packed, counting
      each byte at most twice. */
  lemma {:induction false} PackingChain(size: nat, blocks: seq<Block>, current: seq<Event>)
    requires Encoded(current) && BlocksOk(size, blocks) && Chained(size, blocks, current)
    ensures FullBlocks(blocks) * (size + 1)
          + Bytes(if blocks == [] then current else blocks[0].events)
         <= 2 * TotalBytes(blocks, current)
  {
    if blocks != [] {
      var rest := blocks[1..];
      forall i | 0 <= i < |rest|
        ensures BlockOk(size, rest[i]) && Overflows(size, rest, current, i)
      {
        assert BlockOk(size, blocks[i + 1]) && Overflows(size, blocks, current, i + 1);
      }
      PackingChain(size, rest, current);
      assert BlockOk(size, blocks[0]) && Overflows(size, blocks, current, 0);
      hide BlocksOk, Chained, Bytes;
      var next := Following(blocks, current, 0);
      assert next == if rest == [] then current else rest[0].events;
      if blocks[0].full {
        FirstEventFits(next);
        OneMore(FullBlocks(rest), size);
      }
    }
  }

  lemma {:induction false} TotalIsBytes(blocks: seq<Block>, current: seq<Event>)
    requires Encoded(current) && forall i :: 0 <= i < |blocks| ==> Encoded(blocks[i].events)
    ensures Encoded(Events(blocks)) && Encoded(Events(blocks) + current)
    ensures TotalBytes(blocks, current) == Bytes(Events(blocks) + current)
  {
    if blocks == [] {
      assert Events(blocks) + current == current;
    } else {
      var init, last := blocks[..|blocks| - 1], blocks[|blocks| - 1];
      TotalOfLast(init, last, current);
      TotalIsBytes(init, last.events + current);
      assert init + [last] == blocks;
      assert Events(init) + (last.events + current) == Events(blocks) + current;
      assert Encoded(Events(blocks)) by {
        BytesSplits(Events(init), last.events);
      }
      hide Bytes, TotalBytes;
    }
  }

  lemma {:induction false} TotalOfLast(init: seq<Block>, last: Block, current: seq<Event>)
    requires Encoded(current) && Encoded(last.events)
    requires forall i :: 0 <= i < |init| ==> Encoded(init[i].events)
    ensures Encoded(last.events + current)
    ensures TotalBytes(init + [last], current) == TotalBytes(init, last.events + current)
  {
    BytesSplits(last.events, current);
    if init == [] {
      assert (init + [last])[1..] == [];
    } else {
      assert (init + [last])[1..] == init[1..] + [last];
      TotalOfLast(init[1..], last, current);
    }
  }

  /** Blocks closed for lack of space are more than half full on average: `m` of them take more than
      `m * size / 2` bytes of accepted events. */
  lemma PackingBound(size: nat, accepted: seq<Event>, blocks: seq<Block>, w: Writer)
    requires WriterOk(size, accepted, blocks, w)
    ensures Encoded(accepted)
    ensures FullBlocks(blocks) * (size + 1) <= 2 * Bytes(accepted)
    ensures FullBlocks(blocks) > 0 ==> FullBlocks(blocks) * size < 2 * Bytes(accepted)
  {
    PackingChain(size, blocks, w.events);
    TotalIsBytes(blocks, w.events);
    MoreThan(FullBlocks(blocks), size, 2 * Bytes(accepted));
  }

  lemma MoreThan(m: nat, size: nat, n: nat)
    requires m * (size + 1) <= n
    ensures m > 0 ==> m * size < n
  {
    assert m * (size + 1) == m * size + m;
  }

  // ---- Packing over the life of a stream --------------------------------------------------------

  /** What a stream goes through: it takes an event, or its current block is handed on by a flush. */
  datatype StreamOp = Take(event: Event) | Handing

  function NewPast(size: nat): History {
    NewWriterOk(size);
    Past(size, [], [], NewWriter)
  }

  /** The stream takes an event. */
  function TakenIn(past: History, event: Event): History {
    var (w, blocks) := Accept(past.size, past.writer, event);
    AcceptKeepsOk(past.size, past.accepted, past.blocks, past.writer, event);
    Past(past.size, past.accepted + Added(event), past.blocks + blocks, w)
  }

  /** The stream's current block is handed on. */
  function HandedOver(past: History): History {
    var (w, blocks) := Flush(past.writer, false);
    FlushKeepsOk(past.size, past.accepted, past.blocks, past.writer);
    Past(past.size, past.accepted, past.blocks + blocks, w)
  }

  function LifeOf(size: nat, ops: seq<StreamOp>): History {
    if ops == [] then NewPast(size)
    else
      var before := LifeOf(size, ops[..|ops| - 1]);
      match ops[|ops| - 1]
      case Take(event) => TakenIn(before, event)
      case Handing => HandedOver(before)
  }

  /** The events taken that can be encoded. */
  function Taken(ops: seq<StreamOp>): seq<Event> {
    if ops == [] then []
    else
      var last := ops[|ops| - 1];
      Taken(ops[..|ops| - 1]) + if last.Take? && last.event.json != NotEncodable then [last.event] else []
  }

  function Handings(ops: seq<StreamOp>): nat {
    if ops == [] then 0 else Handings(ops[..|ops| - 1]) + if ops[|ops| - 1] == Handing then 1 else 0
  }

  /** The blocks that were not closed for lack of space. */
  function NotFull(blocks: seq<Block>): nat {
    if blocks == [] then 0 else NotFull(blocks[..|blocks| - 1]) + if blocks[|blocks| - 1].full then 0 else 1
  }

  lemma {:induction false} FullOrNot(blocks: seq<Block>)
    ensures FullBlocks(blocks) + NotFull(blocks) == |blocks|
  {
    if blocks != [] {
      var init, last := blocks[..|blocks| - 1], blocks[|blocks| - 1];
      FullOrNot(init);
      FullAppends(init, last);
      assert blocks == init + [last];
    }
  }

  lemma {:induction false} FullAppends(blocks: seq<Block>, block: Block)
    ensures FullBlocks(blocks + [block]) == FullBlocks(blocks) + if block.full then 1 else 0
  {
    if blocks == [] {
      assert ([] + [block])[1..] == [];
    } else {
      FullAppends(blocks[1..], block);
      assert (blocks + [block])[1..] == blocks[1..] + [block];
    }
  }

  lemma NotFullAppends(blocks: seq<Block>, block: Block)
    ensures NotFull(blocks + [block]) == NotFull(blocks) + if block.full then 0 else 1
  {
    assert (blocks + [block])[..|blocks|] == blocks;
  }

  /** Taking an event hands nothing on but full blocks; a flush hands on one block at most. */
  lemma OneOp(past: History, event: Event)
    ensures TakenIn(past, event).size == past.size && HandedOver(past).size == past.size
    ensures TakenIn(past, event).accepted == past.accepted + if event.json != NotEncodable then [event] else []
    ensures HandedOver(past).accepted == past.accepted
    ensures NotFull(TakenIn(past, event).blocks) == NotFull(past.blocks)
    ensures NotFull(HandedOver(past).blocks) <= NotFull(past.blocks) + 1
  {
    AcceptIs(past.size, past.writer, event);
    FlushIs(past.size, past.writer, false);
    var none: seq<Block> := [];
    assert past.blocks + none == past.blocks;
    if past.writer.meta.Some? {
      NotFullAppends(past.blocks, Block(past.writer.events, past.writer.meta.value, true));
      NotFullAppends(past.blocks, Block(past.writer.events, past.writer.meta.value, false));
    }
    hide WriterOk, CurrentOk, Accept, Flush, NotFull;
  }

  lemma {:induction false} LifeCounts(size: nat, ops: seq<StreamOp>)
    ensures var life := LifeOf(size, ops);
            life.size == size && life.accepted == Taken(ops) && NotFull(life.blocks) <= Handings(ops)
  {
    if ops != [] {
      LifeCounts(size, ops[..|ops| - 1]);
      var op := ops[|ops| - 1];
      OneOp(LifeOf(size, ops[..|ops| - 1]), if op.Take? then op.event else Event(0, "", "", NotEncodable));
      hide WriterOk, TakenIn, HandedOver;
    }
  }

  /** Over the life of a stream, all blocks but one for each flush were closed for lack of space, and these
      take more than half the block size each, on average, of the bytes of the events taken. */
  lemma BlocksOfALife(size: nat, ops: seq<StreamOp>)
    ensures Encoded(Taken(ops))
    ensures var blocks := |LifeOf(size, ops).blocks|;
            blocks > Handings(ops) ==> (blocks - Handings(ops)) * size < 2 * Bytes(Taken(ops))
  {
    var life := LifeOf(size, ops);
    LifeCounts(size, ops);
    FullOrNot(life.blocks);
    PackingBound(size, life.accepted, life.blocks, life.writer);
    var m := |life.blocks| - Handings(ops);
    if m > 0 {
      MoreBlocks(m, FullBlocks(life.blocks), size);
    }
    hide WriterOk, LifeOf, Bytes, FullBlocks, NotFull;
  }

  lemma MoreBlocks(m: nat, n: nat, size: nat)
    requires m <= n
    ensures m * size <= n * size
  {
  }

  // ---- Reading back --------------------------------------------------------------------------

  /** The blocks read newest first, each as it is stored. */
  function ReadBack(blocks: seq<Block>): seq<byte>
    requires forall i :: 0 <= i < |blocks| ==> Encoded(blocks[i].events)
  {
    if blocks == [] then []
    else Payload(blocks[|blocks| - 1].events) + ReadBack(blocks[..|blocks| - 1])
  }

  lemma {:induction false} ConcatSplits(a: seq<seq<byte>>, b: seq<seq<byte>>)
    ensures Concat(a + b) == Concat(a) + Concat(b)
  {
    if b == [] {
      assert a + b == a;
    } else {
      ConcatSplits(a, b[..|b| - 1]);
      assert (a + b)[..|a + b| - 1] == a + b[..|b| - 1];
    }
  }

  lemma {:induction false} EncodingsSplit(a: seq<Event>, b: seq<Event>)
    requires Encoded(a) && Encoded(b)
    ensures Encoded(a + b) && Encodings(a + b) == Encodings(a) + Encodings(b)
  {
    if b == [] {
      assert a + b == a;
    } else {
      EncodingsSplit(a, b[..|b| - 1]);
      assert (a + b)[..|a + b| - 1] == a + b[..|b| - 1];
    }
  }

  lemma PayloadSplits(a: seq<Event>, b: seq<Event>)
    requires Encoded(a) && Encoded(b)
    ensures Encoded(a + b) && Payload(a + b) == Payload(b) + Payload(a)
  {
    EncodingsSplit(a, b);
    ReverseSplits(Encodings(a), Encodings(b));
    ConcatSplits(Reverse(Encodings(b)), Reverse(Encodings(a)));
  }

  lemma {:induction false} ReadBackIsPayload(blocks: seq<Block>)
    requires forall i :: 0 <= i < |blocks| ==> Encoded(blocks[i].events)
    ensures Encoded(Events(blocks)) && ReadBack(blocks) == Payload(Events(blocks))
  {
    if blocks != [] {
      ReadBackIsPayload(blocks[..|blocks| - 1]);
      PayloadSplits(Events(blocks[..|blocks| - 1]), blocks[|blocks| - 1].events);
    }
  }

  /** The current block in front of the blocks handed on, newest first, is the whole stream of
      accepted events newest first. */
  lemma {:induction false} ReadingIsNewestFirst(size: nat, accepted: seq<Event>, blocks: seq<Block>, w: Writer)
    requires WriterOk(size, accepted, blocks, w)
    ensures forall i :: 0 <= i < |blocks| ==> Encoded(blocks[i].events)
    ensures Encoded(accepted) && Payload(w.events) + ReadBack(blocks) == Payload(accepted)
  {
    forall i | 0 <= i < |blocks|
      ensures Encoded(blocks[i].events)
    {
      assert BlockOk(size, blocks[i]);
    }
    ReadBackIsPayload(blocks);
    PayloadSplits(Events(blocks), w.events);
  }
}
