/** What the event threads share: drivers, writers, background writers, block files and metadata.

The operations below are what happens inside critical sections and in the background writers; the
interleaving of threads is in `EventThreads`. Sequences and sets that only ever grow (`sent`,
`written`, `added`, `accepted`) record what has happened; the program never reads them.
*/
module EventStore {
  import opened GoStrings
  import opened EventBlocks

  datatype UserMachine = UserMachine(user: int, machine: string)

  type Filter = Event -> bool

  /** A driver is known by its number. */
  datatype Driver = Driver(um: UserMachine, streams: map<string, Filter>)

  /** A writer is known by its driver and its stream. */
  datatype Key = Key(driver: nat, stream: string)

  /** How far a background writer has got. */
  datatype Phase = Writing | Adding | Finishing

  /** A block that has been handed to a background writer. Its number is its place in `sent`. */
  datatype Sent = Sent(key: Key, user: int, block: Block)

  /** The hash in a file name is idealised: different contents have different hashes. */
  datatype Filename = Filename(user: int, stream: string, contents: seq<byte>)

  datatype Disk = Disk(
    sent: seq<Sent>,
    jobs: map<nat, Phase>,               // background writers that are not done
    store: map<Filename, seq<byte>>,     // the block file system
    catalog: map<Filename, Metadata>,    // the metadata manager
    written: set<nat>,
    added: set<nat>)

  datatype Shared = Shared(
    size: nat,
    drivers: seq<Driver>,
    table: map<UserMachine, nat>,        // the block store's drivers
    writers: map<Key, Writer>,
    accepted: map<Key, seq<Event>>,
    disk: Disk)

  // ---- Background writers --------------------------------------------------------------------

  function Contents(sent: Sent): seq<byte> {
    if Encoded(sent.block.events) then Payload(sent.block.events) else []
  }

  function File(sent: Sent): Filename {
    Filename(sent.user, sent.key.stream, Contents(sent))
  }

  /** Starts a background writer for each block handed on. */
  function Spawn(disk: Disk, key: Key, user: int, blocks: seq<Block>): Disk {
    if blocks == [] then disk
    else disk.(sent := disk.sent + [Sent(key, user, blocks[0])], jobs := disk.jobs[|disk.sent| := Writing])
  }

  /** A write that succeeds; one that fails changes nothing and is tried again. */
  function Write(disk: Disk, id: nat): Disk
    requires id < |disk.sent|
  {
    disk.(store := disk.store[File(disk.sent[id]) := Contents(disk.sent[id])],
          jobs := disk.jobs[id := Adding],
          written := disk.written + {id})
  }

  /** Adding metadata creates an entry unless there is one under the same file name. */
  function AddMetadata(disk: Disk, id: nat): Disk
    requires id < |disk.sent|
  {
    var file := File(disk.sent[id]);
    disk.(catalog := if file in disk.catalog then disk.catalog else disk.catalog[file := disk.sent[id].block.meta],
          jobs := disk.jobs[id := Finishing],
          added := disk.added + {id})
  }

  /** The background writer leaves the wait group. */
  function Finish(disk: Disk, id: nat): Disk {
    disk.(jobs := disk.jobs - {id})
  }

  /** No background writer of this stream is left: its wait group is at zero. */
  predicate NoJobs(disk: Disk, key: Key) {
    forall id :: id in disk.jobs && id < |disk.sent| ==> disk.sent[id].key != key
  }

  /** The background writers of a stream that are not done. */
  function JobsOf(disk: Disk, key: Key): set<nat> {
    set id | id in disk.jobs && id < |disk.sent| && disk.sent[id].key == key
  }

  /** The count of the stream's wait group. */
  function Running(disk: Disk, key: Key): nat {
    |JobsOf(disk, key)|
  }

  // ---- Writers -------------------------------------------------------------------------------

  function WriterAt(sh: Shared, key: Key): Writer {
    if key in sh.writers then sh.writers[key] else NewWriter
  }

  function AcceptedAt(sh: Shared, key: Key): seq<Event> {
    if key in sh.accepted then sh.accepted[key] else []
  }

  /** Writes an event to the stream's writer, which is created if there is none. */
  function AcceptInto(sh: Shared, key: Key, event: Event): Shared
    requires key.driver < |sh.drivers| && Encoded(WriterAt(sh, key).events)
  {
    var (w, blocks) := Accept(sh.size, WriterAt(sh, key), event);
    sh.(writers := sh.writers[key := w],
        accepted := sh.accepted[key := AcceptedAt(sh, key) + Added(event)],
        disk := Spawn(sh.disk, key, sh.drivers[key.driver].um.user, blocks))
  }

  function FlushStream(sh: Shared, key: Key): Shared
    requires key.driver < |sh.drivers| && key in sh.writers
  {
    var (w, blocks) := Flush(sh.writers[key], false);
    sh.(writers := sh.writers[key := w],
        disk := Spawn(sh.disk, key, sh.drivers[key.driver].um.user, blocks))
  }

  // ---- What always holds ---------------------------------------------------------------------

  /** The blocks handed on by one writer, in order. */
  function BlocksOf(sent: seq<Sent>, key: Key): seq<Block> {
    if sent == [] then []
    else
      var last := sent[|sent| - 1];
      BlocksOf(sent[..|sent| - 1], key) + if last.key == key then [last.block] else []
  }

  /** Each block handed on is written exactly when its background writer has got past writing. */
  ghost predicate JobsOk(disk: Disk) {
    && (forall id :: id in disk.jobs ==> id < |disk.sent|)
    && (forall id: nat :: id < |disk.sent| ==> JobOk(disk, id))
    && (forall id :: id in disk.written ==> id < |disk.sent|)
    && (forall id :: id in disk.added ==> id < |disk.sent|)
  }

  ghost predicate JobOk(disk: Disk, id: nat) {
    && (id in disk.written <==> !(id in disk.jobs && disk.jobs[id] == Writing))
    && (id in disk.added <==> !(id in disk.jobs && disk.jobs[id] != Finishing))
  }

  ghost predicate InStore(disk: Disk, id: nat) {
    id < |disk.sent| && var sent := disk.sent[id];
    File(sent) in disk.store && disk.store[File(sent)] == Contents(sent)
  }

  ghost predicate InCatalog(disk: Disk, id: nat) {
    id < |disk.sent| && File(disk.sent[id]) in disk.catalog
  }

  /** Block `id` is in the store in full, under a name that the metadata manager knows. */
  ghost predicate Stored(disk: Disk, id: nat) {
    InStore(disk, id) && InCatalog(disk, id)
  }

  /** The file comes from a block that was written. */
  ghost predicate FromWrite(disk: Disk, file: Filename) {
    exists id :: id in disk.written && id < |disk.sent| && File(disk.sent[id]) == file
  }

  /** The entry comes from a block whose metadata were added, and is that block's. */
  ghost predicate FromAdding(disk: Disk, file: Filename)
    requires file in disk.catalog
  {
    exists id :: id in disk.added && id < |disk.sent| && File(disk.sent[id]) == file
                 && disk.catalog[file] == disk.sent[id].block.meta
  }

  /** The store holds what has been written and nothing else; the metadata likewise. */
  ghost predicate FilesOk(disk: Disk) {
    && (forall id :: id in disk.written ==> InStore(disk, id))
    && (forall file :: file in disk.store ==> FromWrite(disk, file))
    && (forall id :: id in disk.added ==> InCatalog(disk, id))
    && (forall file :: file in disk.catalog ==> FromAdding(disk, file))
  }

  ghost predicate DiskOk(disk: Disk) {
    JobsOk(disk) && FilesOk(disk)
  }

  ghost predicate WritersOk(sh: Shared) {
    && sh.accepted.Keys == sh.writers.Keys
    && (forall key :: key in sh.writers ==>
          && key.driver < |sh.drivers|
          && WriterOk(sh.size, sh.accepted[key], BlocksOf(sh.disk.sent, key), sh.writers[key]))
    && (forall id: nat :: id < |sh.disk.sent| ==> sh.disk.sent[id].key in sh.writers)
  }

  ghost predicate SharedOk(sh: Shared) {
    && WritersOk(sh) && DiskOk(sh.disk)
    && forall um :: um in sh.table ==> sh.table[um] < |sh.drivers|
  }

  // ---- Where an event is ---------------------------------------------------------------------

  /** How many events of the stream are in blocks handed on before block `id`. */
  function Start(sent: seq<Sent>, key: Key, id: nat): nat
    requires id <= |sent|
  {
    |Events(BlocksOf(sent[..id], key))|
  }

  /** The `e`-th event of the stream is in block `id`. */
  predicate InBlock(sent: seq<Sent>, key: Key, e: nat, id: nat) {
    && id < |sent| && sent[id].key == key
    && Start(sent, key, id) <= e < Start(sent, key, id) + |sent[id].block.events|
  }

  /** A block is being written or in the store; if it is being written its contents are in the store
      only under a name that another block has been written under. */
  ghost predicate Settled(disk: Disk, id: nat)
    requires id < |disk.sent|
  {
    if id in disk.jobs && disk.jobs[id] == Writing then
      id !in disk.written && (InStore(disk, id) ==> FromWrite(disk, File(disk.sent[id])))
    else
      id in disk.written && InStore(disk, id)
  }

  /** The `e`-th event accepted for the stream is in exactly one place: in the current block, or in one
      of the blocks handed on, which is either being written or stored. */
  ghost predicate InOnePlace(sh: Shared, key: Key, e: nat)
    requires key in sh.writers && key in sh.accepted && e < |sh.accepted[key]|
  {
    var event := sh.accepted[key][e];
    if e < Start(sh.disk.sent, key, |sh.disk.sent|) then InOneBlock(sh.disk, key, e, event)
    else InCurrentBlock(sh, key, e, event)
  }

  ghost predicate InOneBlock(disk: Disk, key: Key, e: nat, event: Event) {
    exists id: nat :: Holding(disk, key, e, id) && disk.sent[id].block.events[e - Start(disk.sent, key, id)] == event
  }

  ghost predicate InCurrentBlock(sh: Shared, key: Key, e: nat, event: Event)
    requires key in sh.writers
  {
    var i := e - Start(sh.disk.sent, key, |sh.disk.sent|);
    && 0 <= i < |sh.writers[key].events| && sh.writers[key].events[i] == event
    && forall id: nat :: !InBlock(sh.disk.sent, key, e, id)
  }

  /** Block `id` and no other holds the event, and is in one place itself. */
  ghost predicate Holding(disk: Disk, key: Key, e: nat, id: nat) {
    && InBlock(disk.sent, key, e, id)
    && (forall other: nat :: InBlock(disk.sent, key, e, other) ==> other == id)
    && Settled(disk, id)
  }

  lemma StartNext(sent: seq<Sent>, key: Key, id: nat)
    requires id < |sent|
    ensures Events(BlocksOf(sent[..id + 1], key))
         == Events(BlocksOf(sent[..id], key)) + if sent[id].key == key then sent[id].block.events else []
  {
    assert sent[..id + 1] == sent[..id] + [sent[id]];
    BlocksOfAppend(sent[..id], sent[id], key);
    if sent[id].key == key {
      EventsAppend(BlocksOf(sent[..id], key), sent[id].block);
    } else {
      assert BlocksOf(sent[..id], key) + [] == BlocksOf(sent[..id], key);
    }
  }

  lemma StartGrows(sent: seq<Sent>, key: Key, id: nat, later: nat)
    requires id <= later <= |sent|
    ensures Events(BlocksOf(sent[..id], key)) <= Events(BlocksOf(sent[..later], key))
  {
    PrefixOfBlocks(sent[..later], key, id);
    assert sent[..later][..id] == sent[..id];
  }

  /** Slices of different blocks do not meet. */
  lemma OnlyOneBlock(sent: seq<Sent>, key: Key, e: nat, id: nat, other: nat)
    requires InBlock(sent, key, e, id) && InBlock(sent, key, e, other)
    ensures id == other
  {
    if id < other {
      StartNext(sent, key, id);
      StartGrows(sent, key, id + 1, other);
    } else if other < id {
      StartNext(sent, key, other);
      StartGrows(sent, key, other + 1, id);
    }
  }

  /** A block that is stored is so in full, newest event first, under a name made of its user, its stream
      and its contents. */
  lemma StoredInFull(disk: Disk, id: nat)
    requires Stored(disk, id) && Encoded(disk.sent[id].block.events)
    ensures var sent := disk.sent[id];
            var name := Filename(sent.user, sent.key.stream, Payload(sent.block.events));
            && name in disk.store && disk.store[name] == Payload(sent.block.events)
            && name in disk.catalog
  {
    hide Payload;
  }

  lemma {:induction false} FindBlock(sent: seq<Sent>, key: Key, e: nat, end: nat) returns (id: nat)
    requires end <= |sent| && e < Start(sent, key, end)
    ensures id < end && InBlock(sent, key, e, id)
    ensures sent[id].block.events[e - Start(sent, key, id)] == Events(BlocksOf(sent[..end], key))[e]
  {
    StartNext(sent, key, end - 1);
    if Start(sent, key, end - 1) <= e {
      id := end - 1;
    } else {
      id := FindBlock(sent, key, e, end - 1);
    }
  }

  lemma BlockIsSettled(disk: Disk, id: nat)
    requires DiskOk(disk) && id < |disk.sent|
    ensures Settled(disk, id)
  {
    assert JobOk(disk, id);
    hide File, Contents, FromAdding, InCatalog;
  }

  /** The blocks in the order they were handed on, followed by the current one, spell the accepted
      events in order, and each event is in exactly one place. */
  lemma Conservation(sh: Shared, key: Key, e: nat)
    requires SharedOk(sh) && key in sh.writers && e < |sh.accepted[key]|
    ensures sh.accepted[key] == Events(BlocksOf(sh.disk.sent, key)) + sh.writers[key].events
    ensures InOnePlace(sh, key, e)
  {
    assert WriterOk(sh.size, sh.accepted[key], BlocksOf(sh.disk.sent, key), sh.writers[key]);
    IsInOnePlace(sh, key, e);
    hide WriterOk, InOneBlock, InCurrentBlock, Start;
  }

  lemma IsInOnePlace(sh: Shared, key: Key, e: nat)
    requires DiskOk(sh.disk) && key in sh.writers && key in sh.accepted && e < |sh.accepted[key]|
    requires sh.accepted[key] == Events(BlocksOf(sh.disk.sent, key)) + sh.writers[key].events
    ensures InOnePlace(sh, key, e)
  {
    assert sh.disk.sent[..|sh.disk.sent|] == sh.disk.sent;
    hide DiskOk, InBlock, InOneBlock, BlocksOf, Events;
    if e < Start(sh.disk.sent, key, |sh.disk.sent|) {
      IsInOneBlock(sh, key, e);
    } else {
      CurrentHolds(sh.disk.sent, key, e);
    }
  }

  lemma IsInOneBlock(sh: Shared, key: Key, e: nat)
    requires DiskOk(sh.disk) && key in sh.accepted && Events(BlocksOf(sh.disk.sent, key)) <= sh.accepted[key]
    requires e < |Events(BlocksOf(sh.disk.sent, key))|
    ensures InOneBlock(sh.disk, key, e, sh.accepted[key][e])
  {
    var sent := sh.disk.sent;
    assert sent[..|sent|] == sent;
    var id := FindBlock(sent, key, e, |sent|);
    BlockHolds(sh.disk, key, e, id);
    hide DiskOk, Holding, Events, BlocksOf;
  }

  lemma BlockHolds(disk: Disk, key: Key, e: nat, id: nat)
    requires DiskOk(disk) && InBlock(disk.sent, key, e, id)
    ensures Holding(disk, key, e, id)
  {
    BlockIsSettled(disk, id);
    forall other: nat | InBlock(disk.sent, key, e, other)
      ensures other == id
    {
      OnlyOneBlock(disk.sent, key, e, id, other);
    }
    hide InBlock, Settled;
  }

  lemma CurrentHolds(sent: seq<Sent>, key: Key, e: nat)
    requires Start(sent, key, |sent|) <= e
    ensures forall id: nat :: !InBlock(sent, key, e, id)
  {
    forall id: nat
      ensures !InBlock(sent, key, e, id)
    {
      if InBlock(sent, key, e, id) {
        StartNext(sent, key, id);
        StartGrows(sent, key, id + 1, |sent|);
        assert false;
      }
    }
  }

  // ---- Each operation keeps it ---------------------------------------------------------------

  lemma BlocksOfAppend(sent: seq<Sent>, more: Sent, key: Key)
    ensures BlocksOf(sent + [more], key) == BlocksOf(sent, key) + if more.key == key then [more.block] else []
  {
    assert (sent + [more])[..|sent|] == sent;
  }

  lemma BlocksOfSpawn(disk: Disk, owner: Key, user: int, blocks: seq<Block>, key: Key)
    requires |blocks| <= 1
    ensures BlocksOf(Spawn(disk, owner, user, blocks).sent, key)
         == BlocksOf(disk.sent, key) + if owner == key then blocks else []
  {
    if blocks == [] {
      assert BlocksOf(disk.sent, key) + [] == BlocksOf(disk.sent, key);
    } else {
      BlocksOfAppend(disk.sent, Sent(owner, user, blocks[0]), key);
      assert blocks == [blocks[0]];
    }
  }

  lemma SpawnKeepsJobsOk(disk: Disk, key: Key, user: int, blocks: seq<Block>)
    requires JobsOk(disk)
    ensures JobsOk(Spawn(disk, key, user, blocks))
  {
    var disk' := Spawn(disk, key, user, blocks);
    forall id: nat | id < |disk'.sent|
      ensures JobOk(disk', id)
    {
      assert id < |disk.sent| ==> JobOk(disk, id);
    }
  }

  lemma SpawnKeepsFilesOk(disk: Disk, key: Key, user: int, blocks: seq<Block>)
    requires FilesOk(disk)
    ensures FilesOk(Spawn(disk, key, user, blocks))
  {
    hide File, Contents;
    var disk' := Spawn(disk, key, user, blocks);
    forall id: nat | id < |disk.sent|
      ensures disk'.sent[id] == disk.sent[id]
    {
    }
    forall id | id in disk'.written
      ensures InStore(disk', id)
    {
      assert InStore(disk, id);
    }
    forall id | id in disk'.added
      ensures InCatalog(disk', id)
    {
      assert InCatalog(disk, id);
    }
    forall file | file in disk'.store
      ensures FromWrite(disk', file)
    {
      assert FromWrite(disk, file);
    }
    forall file | file in disk'.catalog
      ensures FromAdding(disk', file)
    {
      assert FromAdding(disk, file);
    }
  }

  // ---- The wait group ------------------------------------------------------------------------

  /** A wait goes on until the count is zero. */
  lemma NoJobsIffNoneRunning(disk: Disk, key: Key)
    ensures NoJobs(disk, key) <==> Running(disk, key) == 0
  {
    if Running(disk, key) == 0 {
      assert JobsOf(disk, key) == {};
      assert forall id :: id in disk.jobs && id < |disk.sent| ==> id !in JobsOf(disk, key);
    } else {
      var id :| id in JobsOf(disk, key);
    }
  }

  /** Each block handed on adds one to the count of its stream. */
  lemma SpawnRuns(disk: Disk, key: Key, user: int, blocks: seq<Block>, other: Key)
    requires JobsOk(disk) && |blocks| <= 1
    ensures Running(Spawn(disk, key, user, blocks), other)
         == Running(disk, other) + if other == key then |blocks| else 0
  {
    if blocks != [] {
      hide JobOk;
      SpawnedJobs(disk, key, user, blocks[0], other);
      assert blocks == [blocks[0]];
      hide Spawn, JobsOf, JobsOk;
    }
  }

  lemma SpawnedJobs(disk: Disk, key: Key, user: int, block: Block, other: Key)
    requires forall id :: id in disk.jobs ==> id < |disk.sent|
    ensures |disk.sent| !in JobsOf(disk, other)
    ensures JobsOf(Spawn(disk, key, user, [block]), other)
         == if other == key then JobsOf(disk, other) + {|disk.sent|} else JobsOf(disk, other)
  {
    var disk' := Spawn(disk, key, user, [block]);
    forall id: nat
      ensures id in JobsOf(disk', other) <==> id in JobsOf(disk, other) || (id == |disk.sent| && other == key)
    {
      assert id < |disk.sent| ==> disk'.sent[id] == disk.sent[id];
    }
  }

  /** Each background writer that is done takes one off it. */
  lemma FinishRuns(disk: Disk, id: nat, other: Key)
    requires id in disk.jobs && id < |disk.sent|
    ensures Running(Finish(disk, id), other) == Running(disk, other) - if disk.sent[id].key == other then 1 else 0
  {
    assert JobsOf(Finish(disk, id), other) == JobsOf(disk, other) - {id};
  }

  lemma WriteKeepsJobsOk(disk: Disk, id: nat)
    requires JobsOk(disk) && id in disk.jobs && disk.jobs[id] == Writing
    ensures JobsOk(Write(disk, id))
  {
    var disk' := Write(disk, id);
    forall i: nat | i < |disk'.sent|
      ensures JobOk(disk', i)
    {
      assert JobOk(disk, i);
    }
  }

  lemma WriteKeepsFilesOk(disk: Disk, id: nat)
    requires FilesOk(disk) && id < |disk.sent|
    ensures FilesOk(Write(disk, id))
  {
    var disk' := Write(disk, id);
    hide Contents;
    forall i | i in disk'.written
      ensures InStore(disk', i)
    {
      assert i != id ==> InStore(disk, i);
    }
    forall file | file in disk'.store
      ensures FromWrite(disk', file)
    {
      assert file != File(disk.sent[id]) ==> FromWrite(disk, file);
      assert id in disk'.written;
    }
    forall i | i in disk'.added
      ensures InCatalog(disk', i)
    {
      assert InCatalog(disk, i);
    }
    forall file | file in disk'.catalog
      ensures FromAdding(disk', file)
    {
      assert FromAdding(disk, file);
    }
  }

  lemma AddMetadataKeepsOk(disk: Disk, id: nat)
    requires DiskOk(disk) && id in disk.jobs && disk.jobs[id] == Adding
    ensures DiskOk(AddMetadata(disk, id))
  {
    var disk' := AddMetadata(disk, id);
    forall i: nat | i < |disk'.sent|
      ensures JobOk(disk', i)
    {
      assert JobOk(disk, i);
    }
    hide File, Contents;
    forall i | i in disk'.written
      ensures InStore(disk', i)
    {
      assert InStore(disk, i);
    }
    forall file | file in disk'.store
      ensures FromWrite(disk', file)
    {
      assert FromWrite(disk, file);
    }
    forall i | i in disk'.added
      ensures InCatalog(disk', i)
    {
      assert i != id ==> InCatalog(disk, i);
    }
    forall file | file in disk'.catalog
      ensures FromAdding(disk', file)
    {
      assert file in disk.catalog ==> FromAdding(disk, file);
      assert id in disk'.added;
    }
  }

  lemma FinishKeepsOk(disk: Disk, id: nat)
    requires DiskOk(disk) && id in disk.jobs && disk.jobs[id] == Finishing
    ensures DiskOk(Finish(disk, id))
  {
    var disk' := Finish(disk, id);
    forall i: nat | i < |disk'.sent|
      ensures JobOk(disk', i)
    {
      assert JobOk(disk, i);
    }
    hide File, Contents;
    forall i | i in disk'.written
      ensures InStore(disk', i)
    {
      assert InStore(disk, i);
    }
    forall i | i in disk'.added
      ensures InCatalog(disk', i)
    {
      assert InCatalog(disk, i);
    }
    forall file | file in disk'.store
      ensures FromWrite(disk', file)
    {
      assert FromWrite(disk, file);
    }
    forall file | file in disk'.catalog
      ensures FromAdding(disk', file)
    {
      assert FromAdding(disk, file);
    }
  }

  lemma AcceptedIsOk(sh: Shared, key: Key)
    requires WritersOk(sh)
    ensures WriterOk(sh.size, AcceptedAt(sh, key), BlocksOf(sh.disk.sent, key), WriterAt(sh, key))
  {
    if key !in sh.writers {
      NoBlocks(sh.disk.sent, key);
      NewWriterOk(sh.size);
    }
  }

  lemma {:induction false} NoBlocks(sent: seq<Sent>, key: Key)
    requires forall id: nat :: id < |sent| ==> sent[id].key != key
    ensures BlocksOf(sent, key) == []
  {
    if sent != [] {
      NoBlocks(sent[..|sent| - 1], key);
    }
  }

  /** One writer moves on from `w` to the state of `sh'`; all others stay as they are. */
  lemma WritersMoveOn(sh: Shared, sh': Shared, key: Key, w: Writer, accepted: seq<Event>, blocks: seq<Block>)
    requires WritersOk(sh) && key.driver < |sh.drivers| && |blocks| <= 1
    requires sh' == sh.(writers := sh.writers[key := w], accepted := sh.accepted[key := accepted],
                        disk := Spawn(sh.disk, key, sh.drivers[key.driver].um.user, blocks))
    requires WriterOk(sh.size, accepted, BlocksOf(sh.disk.sent, key) + blocks, w)
    ensures WritersOk(sh')
  {
    hide WriterOk, BlocksOf;
    forall k | k in sh'.writers
      ensures WriterOk(sh'.size, sh'.accepted[k], BlocksOf(sh'.disk.sent, k), sh'.writers[k])
    {
      BlocksOfSpawn(sh.disk, key, sh.drivers[key.driver].um.user, blocks, k);
      if k != key {
        assert BlocksOf(sh.disk.sent, k) + [] == BlocksOf(sh.disk.sent, k);
      }
    }
  }

  lemma AcceptIntoKeepsOk(sh: Shared, key: Key, event: Event)
    requires SharedOk(sh) && key.driver < |sh.drivers|
    ensures Encoded(WriterAt(sh, key).events) && SharedOk(AcceptInto(sh, key, event))
  {
    AcceptedIsOk(sh, key);
    var (w, blocks) := Accept(sh.size, WriterAt(sh, key), event);
    AcceptKeepsOk(sh.size, AcceptedAt(sh, key), BlocksOf(sh.disk.sent, key), WriterAt(sh, key), event);
    AtMostOne(sh.size, WriterAt(sh, key), event);
    hide Accept, Spawn, WritersOk, DiskOk, CurrentOk, BlocksOk, Chained, BlocksOf, AcceptedAt;
    WritersMoveOn(sh, AcceptInto(sh, key, event), key, w, AcceptedAt(sh, key) + Added(event), blocks);
    SpawnKeepsOk(sh.disk, key, sh.drivers[key.driver].um.user, blocks);
  }

  lemma AtMostOne(size: nat, w: Writer, event: Event)
    requires Encoded(w.events)
    ensures |Accept(size, w, event).1| <= 1
  {
  }

  lemma SpawnKeepsOk(disk: Disk, key: Key, user: int, blocks: seq<Block>)
    requires DiskOk(disk)
    ensures DiskOk(Spawn(disk, key, user, blocks))
  {
    SpawnKeepsJobsOk(disk, key, user, blocks);
    SpawnKeepsFilesOk(disk, key, user, blocks);
    hide JobsOk, FilesOk, Spawn;
  }

  lemma FlushStreamKeepsOk(sh: Shared, key: Key)
    requires SharedOk(sh) && key.driver < |sh.drivers| && key in sh.writers
    ensures SharedOk(FlushStream(sh, key)) && FlushStream(sh, key).writers[key].events == []
  {
    var (w, blocks) := Flush(sh.writers[key], false);
    FlushKeepsOk(sh.size, sh.accepted[key], BlocksOf(sh.disk.sent, key), sh.writers[key]);
    assert sh.accepted[key := sh.accepted[key]] == sh.accepted;
    WritersMoveOn(sh, FlushStream(sh, key), key, w, sh.accepted[key], blocks);
    SpawnKeepsOk(sh.disk, key, sh.drivers[key.driver].um.user, blocks);
  }

  // ---- Durability ----------------------------------------------------------------------------

  /** At least `n` events of the stream have been handed on to background writers. */
  predicate HandedOn(disk: Disk, key: Key, n: nat) {
    n <= |Events(BlocksOf(disk.sent, key))|
  }

  /** The first `n` events of the stream are stored, with metadata: they are in blocks handed on
      before some point, and every block of the stream handed on before it is stored. */
  ghost predicate Durable(disk: Disk, key: Key, n: nat) {
    exists cut: nat :: DurableUpTo(disk, key, n, cut)
  }

  ghost predicate DurableUpTo(disk: Disk, key: Key, n: nat, cut: nat) {
    && cut <= |disk.sent|
    && n <= |Events(BlocksOf(disk.sent[..cut], key))|
    && forall id: nat :: id < cut && disk.sent[id].key == key ==> id in disk.added && Stored(disk, id)
  }

  /** Once no background writer of a stream is left, all that it has handed on is durable. */
  lemma NoJobsMeansDurable(disk: Disk, key: Key, n: nat)
    requires DiskOk(disk) && NoJobs(disk, key) && HandedOn(disk, key, n)
    ensures Durable(disk, key, n)
  {
    assert disk.sent[..|disk.sent|] == disk.sent;
    forall id: nat | id < |disk.sent| && disk.sent[id].key == key
      ensures id in disk.added && Stored(disk, id)
    {
      assert JobOk(disk, id);
    }
    assert DurableUpTo(disk, key, n, |disk.sent|);
  }

  /** What durability means for one event: it is in a block that is stored in full and known. */
  lemma DurableEventIsStored(sh: Shared, key: Key, n: nat, e: nat) returns (id: nat)
    requires SharedOk(sh) && key in sh.writers && Durable(sh.disk, key, n) && e < n
    ensures id < |sh.disk.sent| && sh.disk.sent[id].key == key && Stored(sh.disk, id)
    ensures e < |sh.accepted[key]| && sh.accepted[key][e] in sh.disk.sent[id].block.events
  {
    var disk := sh.disk;
    var cut: nat :| DurableUpTo(disk, key, n, cut);
    id := FindBlock(disk.sent, key, e, cut);
    PrefixOfBlocks(disk.sent, key, cut);
    assert WriterOk(sh.size, sh.accepted[key], BlocksOf(disk.sent, key), sh.writers[key]);
  }

  /** Handing on more blocks leaves the events handed on before in front. */
  lemma {:induction false} PrefixOfBlocks(sent: seq<Sent>, key: Key, cut: nat)
    requires cut <= |sent|
    ensures Events(BlocksOf(sent[..cut], key)) <= Events(BlocksOf(sent, key))
  {
    if cut == |sent| {
      assert sent[..cut] == sent;
    } else {
      var init, last := sent[..|sent| - 1], sent[|sent| - 1];
      PrefixOfBlocks(init, key, cut);
      assert init[..cut] == sent[..cut];
      if last.key == key {
        EventsAppend(BlocksOf(init, key), last.block);
      } else {
        assert BlocksOf(init, key) + [] == BlocksOf(init, key);
      }
    }
  }
}
