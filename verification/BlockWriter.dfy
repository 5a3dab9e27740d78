/** The block buffer and the block writer as they are: objects whose fields change.

Each method is proved against the functions of `EventBlocks`. Handing a block on starts a background
writer that holds on to the block buffer, which the writer itself never touches again.
*/
module BlockWriter {
  import opened GoStrings
  import opened EventBlocks
  import opened Wrappers

  class BlockBuffer {
    const size: nat
    var buf: seq<byte>
    var events: seq<seq<byte>>

    ghost predicate Valid()
      reads this
    {
      buf == Concat(events)
    }

    constructor (size: nat)
      ensures Valid() && this.size == size && events == []
    {
      this.size := size;
      buf, events := [], [];
    }

    method Len() returns (n: nat)
      requires Valid()
      ensures n == |Concat(events)|
    {
      n := |buf|;
    }

    /** The room that is left; negative after an event larger than the block. */
    method Available() returns (n: int)
      requires Valid()
      ensures n == size - |Concat(events)|
    {
      n := size - |buf|;
    }

    method WriteEvent(event: seq<byte>)
      requires Valid()
      modifies this
      ensures Valid() && events == old(events) + [event]
    {
      var s := |buf|;
      buf := buf + event;
      var e := |buf|;
      events := events + [buf[s..e]];
      assert events[..|events| - 1] == old(events) && buf[s..e] == event;
    }

    /** What is written to the (compressing) writer: the events, newest first. */
    method WriteTo() returns (out: seq<byte>)
      requires Valid()
      ensures out == Concat(Reverse(events))
    {
      out := [];
      var i := |events|;
      assert events[..i] == events;
      while i > 0
        invariant 0 <= i <= |events|
        invariant out + Concat(Reverse(events[..i])) == Concat(Reverse(events))
      {
        i := i - 1;
        ReverseFirst(events, i);
        ConcatSplits([events[i]], Reverse(events[..i]));
        hide Reverse;
        assert Concat([events[i]]) == events[i] by {
          assert [events[i]][..0] == [];
        }
        out := out + events[i];
      }
    }
  }

  lemma ReverseFirst(events: seq<seq<byte>>, i: nat)
    requires i < |events|
    ensures Reverse(events[..i + 1]) == [events[i]] + Reverse(events[..i])
  {
    assert events[..i + 1][..i] == events[..i];
  }

  /** What a background writer is started with. */
  datatype Job = Job(block: BlockBuffer, meta: Metadata)

  /** The buffer holds the events of the block. */
  ghost predicate Carries(buffer: BlockBuffer, block: Block)
    reads buffer
  {
    buffer.Valid() && Encoded(block.events) && buffer.events == Encodings(block.events)
  }

  class BlockWriter {
    const size: nat
    var block: BlockBuffer
    var metadata: Option<Metadata>
    /** The wait group: background writers started and not done, counted as `EventStore.Running` is. */
    var running: nat
    ghost var current: seq<Event>
    /** All that has gone through the writer; its type carries the invariant `WriterOk`. */
    ghost var history: History

    /** The writer's own state, as the functions of `EventBlocks` see it. */
    ghost function View(): Writer
      reads `current, `metadata
    {
      Writer(current, metadata)
    }

    ghost predicate Valid()
      reads this, block
    {
      && Consistent()
      && history.size == size && history.writer == View()
    }

    ghost predicate Consistent()
      reads `block, `metadata, `current, block
    {
      && CurrentOk(size, View())
      && block.Valid() && block.size == size && block.events == Encodings(current)
    }

    constructor (size: nat)
      ensures Valid() && fresh(block) && this.size == size
      ensures View() == NewWriter && history.accepted == [] && history.blocks == [] && running == 0
    {
      this.size := size;
      block := new BlockBuffer(size);
      metadata, running := None, 0;
      current := [];
      NewWriterOk(size);
      history := Past(size, [], [], NewWriter);
    }

    /** For the block that was handed on, if any, a background writer has been given the buffer that
        was in use until then, which holds the block, and a new buffer is in use. */
    ghost predicate Started(blocks: seq<Block>, before: BlockBuffer, count: nat, started: Option<Job>)
      reads `block, `running, before
    {
      if blocks == [] then
        started.None? && running == count && block == before
      else
        && started == Some(Job(before, blocks[0].meta)) && Carries(before, blocks[0])
        && running == count + 1 && block != before
    }

    /** Adds an event to the current block, handing that on first if the event does not fit. */
    method WriteEvent(event: Event) returns (err: bool, started: Option<Job>)
      requires Valid()
      modifies this, block
      ensures Valid() && (block == old(block) || fresh(block))
      ensures err == event.json.NotEncodable?
      ensures var (w, handedOn) := Accept(size, old(View()), event);
              View() == w && Started(handedOn, old(block), old(running), started) && history.blocks == old(history.blocks) + handedOn
      ensures history.accepted == old(history.accepted) + Added(event)
    {
      if event.json.NotEncodable? {
        assert history.blocks + [] == history.blocks && history.accepted + [] == history.accepted;
        return true, None;
      }
      started := WriteJson(event);
      return false, started;
    }

    /** Adds an event that has been encoded. */
    method WriteJson(event: Event) returns (started: Option<Job>)
      requires Valid() && event.json.Json?
      modifies this, block
      ensures Valid() && (block == old(block) || fresh(block))
      ensures var (w, handedOn) := Roomy(size, old(View()), event.json.Text());
              && View() == Appended(w, event)
              && Started(handedOn, old(block), old(running), started)
              && history.blocks == old(history.blocks) + handedOn
      ensures history.accepted == old(history.accepted) + [event]
    {
      hide WriterOk, CurrentOk, Roomy, Appended;
      Note(event);
      started := MakeRoom(event.json.Text());
      Append(event);
    }

    /** Makes a note of an event that is going to be added. */
    ghost method Note(event: Event)
      requires Valid() && event.json.Json?
      modifies `history
      ensures var (w, handedOn) := Roomy(size, View(), event.json.Text());
              history == Past(size, old(history.accepted) + [event], old(history.blocks) + handedOn, Appended(w, event))
      ensures CurrentOk(size, history.writer)
    {
      assert Encoded(current);
      hide Roomy, Appended;
      AcceptKeepsOk(size, history.accepted, history.blocks, View(), event);
      history := Past(size, history.accepted + [event], history.blocks + Roomy(size, View(), event.json.Text()).1,
                      Appended(Roomy(size, View(), event.json.Text()).0, event));
    }

    /** Hands the current block on, if there is anything in it. */
    method Flush() returns (started: Option<Job>)
      requires Valid()
      modifies this
      ensures Valid() && View() == NewWriter && (block == old(block) || fresh(block))
      ensures var handedOn := EventBlocks.Flush(old(View()), false).1;
              Started(handedOn, old(block), old(running), started) && history.blocks == old(history.blocks) + handedOn
      ensures history.accepted == old(history.accepted)
    {
      ghost var (w, handedOn) := EventBlocks.Flush(View(), false);
      FlushKeepsOk(size, history.accepted, history.blocks, View());
      history := Past(size, history.accepted, history.blocks + handedOn, w);
      started := HandOn(false);
    }

    /** Hands the current block on if `buf` does not fit into it. */
    method MakeRoom(buf: seq<byte>) returns (started: Option<Job>)
      requires Consistent()
      modifies `block, `metadata, `current, `running
      ensures Consistent() && (block == old(block) || fresh(block))
      ensures var (w, handedOn) := Roomy(size, old(View()), buf);
              View() == w && Started(handedOn, old(block), old(running), started)
    {
      BytesIsLength(current);
      var room := block.Available();
      if |buf| > room {
        started := HandOn(true);
      } else {
        started := None;
      }
    }

    /** Starts a background writer for the current block, and a new block in its place. */
    method HandOn(full: bool) returns (started: Option<Job>)
      requires Consistent()
      modifies `block, `metadata, `current, `running
      ensures Consistent() && (block == old(block) || fresh(block))
      ensures var (w, handedOn) := EventBlocks.Flush(old(View()), full);
              View() == w && Started(handedOn, old(block), old(running), started)
    {
      var empty := IsEmpty();
      if empty {
        return None;
      }
      running := running + 1;
      started := Some(Job(block, metadata.value));
      StartBlock();
    }

    method IsEmpty() returns (empty: bool)
      requires Consistent()
      ensures empty <==> current == []
      ensures empty <==> metadata.None?
    {
      var len := block.Len();
      BytesIsLength(current);
      return len == 0;
    }

    method StartBlock()
      requires block.size == size
      modifies `block, `metadata, `current
      ensures Consistent() && View() == NewWriter && fresh(block)
    {
      block := new BlockBuffer(size);
      metadata := None;
      current := [];
    }

    /** Writes the event into the current block and brings the metadata up to date. */
    method Append(event: Event)
      requires Consistent() && event.json.Json? && CurrentOk(size, Appended(View(), event))
      modifies `metadata, `current, block
      ensures Consistent()
      ensures View() == Appended(old(View()), event)
    {
      block.WriteEvent(event.json.Text());
      if metadata.None? {
        metadata := Some(Metadata(event.timestamp, event.timestamp, 0));
      }
      metadata := Some(metadata.value.(end := event.timestamp));
      metadata := Some(metadata.value.(count := metadata.value.count + 1));
      current := current + [event];
      assert current[..|current| - 1] == old(current);
    }

    /** A background writer: it writes its block until that succeeds, after `failures` attempts that do
        not, and leaves the wait group. What it writes is the block, newest event first. */
    method RunInBackground(job: Job, ghost carried: Block, failures: nat) returns (written: seq<byte>, attempts: nat)
      requires Valid() && running > 0 && Carries(job.block, carried)
      modifies `running
      ensures Valid() && running == old(running) - 1
      ensures written == Payload(carried.events) && attempts == failures + 1
    {
      written := job.block.WriteTo();
      attempts := 1;
      var left := failures;
      while left > 0
        invariant attempts + left == failures + 1
      {
        attempts, left := attempts + 1, left - 1;
      }
      Done();
    }

    /** A background writer is done. */
    method Done()
      requires Valid() && running > 0
      modifies `running
      ensures Valid() && running == old(running) - 1
    {
      running := running - 1;
    }
  }
}
