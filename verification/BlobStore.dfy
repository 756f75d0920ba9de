/**
 The store of transferred blobs: each is known by the digest of its seed and content so far, so its name
 changes with every chunk.
 */
module BlobStore {
  import opened Md5Block
  import opened Results

  type Id = seq<Byte>

  /** The store works for any digest of messages. */
  type Hash = seq<Byte> -> Id

  datatype Stored = Stored(seed: seq<Byte>, content: seq<Byte>)

  /** All that a blob's digest sees. */
  function StreamOf(b: Stored): seq<Byte> {
    b.seed + b.content
  }

  function IdOf(h: Hash, b: Stored): Id {
    h(StreamOf(b))
  }

  datatype Fault = NoMemory | NoEntry | InputOutput

  /** The blobs by id, and the files made from blobs by name. */
  datatype State = State(blobs: map<Id, Stored>, files: map<string, seq<Byte>>)

  /** How the making of a file ends. A file that is not renamed keeps its temporary name. */
  datatype FileOutcome = Renamed | NotClosed | NotRenamed

  /** The calls, with what the operating system makes of them. */
  datatype Call =
    | SeedBlob(seed: seq<Byte>, created: bool, memory: bool)
    | AppendChunkToBlob(data: seq<Byte>, id: Id, written: bool, memory: bool)
    | BlobAsFile(id: Id, filename: string, outcome: FileOutcome)
    | PurgeBlobs

  type Reply = Result<Id, Fault>

  function Seeded(h: Hash, x: State, seed: seq<Byte>, created: bool, memory: bool): (State, Reply) {
    if !created then (x, Err(InputOutput))
    else
      var b := Stored(seed, []);
      (x.(blobs := x.blobs[IdOf(h, b) := b]), if memory then Ok(IdOf(h, b)) else Err(NoMemory))
  }

  /** The blob leaves the store first; it is lost if it cannot be written, or if its new id is taken. */
  function Appended(h: Hash, x: State, data: seq<Byte>, id: Id, written: bool, memory: bool): (State, Reply) {
    if !memory then (x, Err(NoMemory))
    else if id !in x.blobs then (x, Err(NoEntry))
    else
      var rest := x.blobs - {id};
      var b := Stored(x.blobs[id].seed, x.blobs[id].content + data);
      if !written then (x.(blobs := rest), Err(InputOutput))
      else (x.(blobs := if IdOf(h, b) in rest then rest else rest[IdOf(h, b) := b]), Ok(IdOf(h, b)))
  }

  function Realized(x: State, id: Id, filename: string, outcome: FileOutcome): (State, Reply) {
    if id !in x.blobs then (x, Err(NoEntry))
    else if outcome != Renamed then (x.(blobs := x.blobs - {id}), Err(InputOutput))
    else (State(x.blobs - {id}, x.files[filename := x.blobs[id].content]), Ok(id))
  }

  function Perform(h: Hash, x: State, call: Call): (State, Reply) {
    match call
    case SeedBlob(seed, created, memory) => Seeded(h, x, seed, created, memory)
    case AppendChunkToBlob(data, id, written, memory) => Appended(h, x, data, id, written, memory)
    case BlobAsFile(id, filename, outcome) => Realized(x, id, filename, outcome)
    case PurgeBlobs => (x.(blobs := map[]), Ok([]))
  }

  lemma PurgeEmpties(h: Hash, x: State)
    ensures Perform(h, x, PurgeBlobs).0.blobs == map[] && Perform(h, x, PurgeBlobs).0.files == x.files
  {
  }

  // ----- Every key is the digest of what it stands for

  ghost predicate Keyed(h: Hash, x: State) {
    forall id :: id in x.blobs ==> id == IdOf(h, x.blobs[id])
  }

  function Run(h: Hash, x: State, calls: seq<Call>): State {
    if calls == [] then x else Perform(h, Run(h, x, calls[..|calls| - 1]), calls[|calls| - 1]).0
  }

  lemma PerformKeyed(h: Hash, x: State, call: Call)
    requires Keyed(h, x)
    ensures Keyed(h, Perform(h, x, call).0)
  {
  }

  /** Over every run, failures included, every key is the digest of its blob's seed and content. */
  lemma {:induction false} AlwaysKeyed(h: Hash, x: State, calls: seq<Call>)
    requires Keyed(h, x)
    ensures Keyed(h, Run(h, x, calls))
    decreases |calls|
  {
    if calls != [] {
      AlwaysKeyed(h, x, calls[..|calls| - 1]);
      PerformKeyed(h, Run(h, x, calls[..|calls| - 1]), calls[|calls| - 1]);
    }
  }

  // ----- When a blob is lost

  function Longer(b: Stored, data: seq<Byte>): Stored {
    Stored(b.seed, b.content + data)
  }

  /** The digest tells the message apart from those of the blobs in the store. */
  ghost predicate Separates(h: Hash, x: State, message: seq<Byte>) {
    forall id :: id in x.blobs && h(StreamOf(x.blobs[id])) == h(message) ==> StreamOf(x.blobs[id]) == message
  }

  /** Seed and content together make up the same message, but are split at different places. */
  predicate SplitDifferently(a: Stored, b: Stored) {
    StreamOf(a) == StreamOf(b) && |a.seed| != |b.seed|
  }

  lemma SameSplit(a: Stored, b: Stored)
    requires StreamOf(a) == StreamOf(b) && |a.seed| == |b.seed|
    ensures a == b
  {
    assert a.seed == StreamOf(a)[..|a.seed|] == b.seed;
    assert a.content == StreamOf(a)[|a.seed|..] == b.content;
  }

  /**
   After appending, the id given stands for the longer blob unless the store has a blob whose seed and content
   make up the same message split differently; then it stands for that blob. Digests need not collide for this:
   what is digested does not tell where the seed ends.
   */
  lemma AppendedIsKept(h: Hash, x: State, data: seq<Byte>, id: Id)
    requires Keyed(h, x) && id in x.blobs
    requires Separates(h, x, StreamOf(Longer(x.blobs[id], data)))
    ensures var (y, reply) := Appended(h, x, data, id, true, true);
            var b := Longer(x.blobs[id], data);
            && reply == Ok(IdOf(h, b)) && reply.value in y.blobs
            && (y.blobs[reply.value] == b <==> !exists other :: other in x.blobs && SplitDifferently(x.blobs[other], b))
            && (y.blobs[reply.value] != b ==> SplitDifferently(y.blobs[reply.value], b))
  {
    var (y, reply) := Appended(h, x, data, id, true, true);
    var b := Longer(x.blobs[id], data);
    assert StreamOf(b) == StreamOf(x.blobs[id]) + data;
    var key := IdOf(h, b);
    if key in x.blobs && key != id {
      assert StreamOf(x.blobs[key]) == StreamOf(b);
      if |x.blobs[key].seed| == |b.seed| {
        SameSplit(x.blobs[key], b);
      }
    }
    forall other | other in x.blobs && SplitDifferently(x.blobs[other], b)
      ensures other == key && other != id
    {
      assert other == IdOf(h, x.blobs[other]);
    }
  }

  /** Seeding leaves a blob in the store unless it is a longer one whose seed and content make up the new seed. */
  lemma SeededKeeps(h: Hash, x: State, seed: seq<Byte>, id: Id)
    requires Keyed(h, x) && Separates(h, x, seed) && id in x.blobs
    ensures var y := Seeded(h, x, seed, true, true).0;
            id in y.blobs && (y.blobs[id] == x.blobs[id] <==> !SplitDifferently(x.blobs[id], Stored(seed, [])))
  {
    var b := Stored(seed, []);
    assert StreamOf(b) == seed;
    if id == IdOf(h, b) && |x.blobs[id].seed| == |seed| {
      SameSplit(x.blobs[id], b);
    }
  }

  /**
   Two transfers, of the bytes 3 after the seed 1 2 and of the bytes 2 3 after the seed 1: the file of the
   second is that of the first.
   */
  lemma SecondTransferLost(h: Hash, filename: string)
    requires h([1, 2]) != h([1]) && h([1, 2]) != h([1, 2, 3]) && h([1]) != h([1, 2, 3])
    ensures var calls := [SeedBlob([1, 2], true, true), AppendChunkToBlob([3], h([1, 2]), true, true),
                          SeedBlob([1], true, true)];
            var x := Run(h, State(map[], map[]), calls);
            var (y, reply) := Appended(h, x, [2, 3], h([1]), true, true);
            var (z, done) := Realized(y, h([1, 2, 3]), filename, Renamed);
            && h([1]) in x.blobs && x.blobs[h([1])] == Stored([1], [])
            && reply == Ok(h([1, 2, 3])) && done.Ok?
            && z.files[filename] == [3]
  {
    var c0 := SeedBlob([1, 2], true, true);
    var c1 := AppendChunkToBlob([3], h([1, 2]), true, true);
    var c2 := SeedBlob([1], true, true);
    var x0 := State(map[], map[]);
    assert [c0, c1, c2][..2] == [c0, c1] && [c0, c1][..1] == [c0] && [c0][..0] == [];
    var first, longer, second := Stored([1, 2], []), Stored([1, 2], [3]), Stored([1], []);
    assert StreamOf(first) == [1, 2] && StreamOf(longer) == [1, 2, 3] && StreamOf(second) == [1];
    assert Run(h, x0, [c0]).blobs == map[h([1, 2]) := first];
    assert first.content + [3] == longer.content;
    assert Run(h, x0, [c0, c1]).blobs == map[h([1, 2, 3]) := longer];
    assert Run(h, x0, [c0, c1, c2]).blobs == map[h([1, 2, 3]) := longer, h([1]) := second];
    assert StreamOf(Longer(second, [2, 3])) == [1, 2, 3];
  }

  // ----- Interleaved transfers

  /** One transfer's chunk, or any call of another. */
  datatype Event = Chunk(data: seq<Byte>) | Other(call: Call)

  function OwnChunks(events: seq<Event>): seq<Byte> {
    if events == [] then []
    else OwnChunks(events[..|events| - 1]) + (if events[|events| - 1].Chunk? then events[|events| - 1].data else [])
  }

  /** The state and the transfer's id after the events. */
  function Interleave(h: Hash, x: State, id: Id, events: seq<Event>): (State, Id) {
    if events == [] then (x, id)
    else
      var (y, current) := Interleave(h, x, id, events[..|events| - 1]);
      match events[|events| - 1]
      case Chunk(data) =>
        var (z, reply) := Appended(h, y, data, current, true, true);
        (z, if reply.Ok? then reply.value else current)
      case Other(call) => (Perform(h, y, call).0, current)
  }

  /** The other's call neither names the transfer's id nor makes a blob with that id. */
  ghost predicate KeepsOff(h: Hash, x: State, call: Call, id: Id) {
    match call
    case SeedBlob(seed, _, _) => IdOf(h, Stored(seed, [])) != id
    case AppendChunkToBlob(_, other, _, _) => other != id
    case BlobAsFile(other, _, _) => other != id
    case PurgeBlobs => false
  }

  /** The transfer's new id is not already another's. */
  ghost predicate NewIdFree(h: Hash, x: State, id: Id, data: seq<Byte>) {
    id in x.blobs ==>
      var next := IdOf(h, Stored(x.blobs[id].seed, x.blobs[id].content + data));
      next == id || next !in x.blobs
  }

  /** The ids of the transfer never coincide with those of others. */
  ghost predicate Apart(h: Hash, x: State, id: Id, events: seq<Event>) {
    events == [] ||
      var n := |events| - 1;
      var (y, current) := Interleave(h, x, id, events[..n]);
      && Apart(h, x, id, events[..n])
      && match events[n]
         case Chunk(data) => NewIdFree(h, y, current, data)
         case Other(call) => KeepsOff(h, y, call, current)
  }

  /** Whatever others do meanwhile, the transfer's blob holds its own chunks in order. */
  lemma {:induction false} TransferKept(h: Hash, x: State, id: Id, seed: seq<Byte>, events: seq<Event>)
    requires id in x.blobs && x.blobs[id] == Stored(seed, []) && Apart(h, x, id, events)
    ensures var (y, current) := Interleave(h, x, id, events);
            current in y.blobs && y.blobs[current] == Stored(seed, OwnChunks(events))
    decreases |events|
  {
    if events != [] {
      TransferKept(h, x, id, seed, events[..|events| - 1]);
    }
  }

  /** A seeded transfer that is made a file ends in a file of exactly its own chunks. */
  lemma TransferArrives(h: Hash, x: State, seed: seq<Byte>, events: seq<Event>, filename: string)
    requires var (y, reply) := Seeded(h, x, seed, true, true); Apart(h, y, reply.value, events)
    ensures var (y, reply) := Seeded(h, x, seed, true, true);
            var (z, id) := Interleave(h, y, reply.value, events);
            var (last, done) := Realized(z, id, filename, Renamed);
            done.Ok? && filename in last.files && last.files[filename] == OwnChunks(events)
  {
    var (y, reply) := Seeded(h, x, seed, true, true);
    TransferKept(h, y, reply.value, seed, events);
  }
}
