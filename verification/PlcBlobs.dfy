/**
 The objects behind the blob store: a blob owns a temporary file and an incremental digest, and the PLC object
 keeps the blobs in a map.
 */
module PlcBlobs {
  import opened Seals
  import opened Sequences
  import opened Md5Block
  import Md5
  import opened Results
  import opened BlobStore

  /** The digest that the runtime's blobs use. */
  function Md5Hash(): Hash {
    m => Md5.DigestOf(Md5.CompressionOf(Operate), m)
  }

  /** The hash is the MD5; sealed, because only a blob's digest need know how that is computed. */
  ghost predicate IsMd5(h: Hash) {
    forall key {:trigger Unsealed(key)} :: Unsealed(key) ==> h == Md5Hash()
  }

  /** A digest that has not been touched is what it was. */
  twostate lemma DigestKept(m: Md5.MD5)
    requires old(m.Valid()) && unchanged(m, m.buffer, m.count, m.state)
    ensures m.Valid() && m.fed == old(m.fed)
  {
  }

  /** A digest that was fed a seed. */
  method NewDigest(seed: seq<Byte>) returns (m: Md5.MD5)
    requires Md5.LengthSafe(0, |seed|)
    ensures m.Valid() && m.f == Md5.CompressionOf(Operate) && m.fed == seed
    ensures fresh(m) && fresh(m.buffer) && fresh(m.count) && fresh(m.state)
  {
    m := new Md5.MD5();
    m.Update(seed);
  }

  /** The digest of the blob can be fed the data: its loop guard does not wrap around. */
  predicate CanFeed(b: Stored, data: seq<Byte>) {
    Md5.LengthSafe(|StreamOf(b)| % 64, |data|)
  }

  /** A blob: the file that its chunks are written to, and the digest that its seed and its chunks are fed to. */
  class Blob {
    ghost const h: Hash
    ghost const seed: seq<Byte>
    var file: seq<Byte>
    const md5: Md5.MD5

    ghost const repr: set<object>

    /** The digest was fed seed and file; sealed, because the store need not know how a digest works. */
    ghost predicate Valid()
      reads this, repr
    {
      forall key {:trigger Unsealed(key)} :: Unsealed(key) ==> Digesting()
    }

    ghost predicate Parts()
      reads this, repr
    {
      && repr == {this, md5, md5.buffer, md5.count, md5.state}
      && md5.Valid() && md5.f == Md5.CompressionOf(Operate) && IsMd5(h)
    }

    ghost predicate Digesting()
      reads this, repr
    {
      Parts() && md5.fed == seed + file
    }

    ghost function Now(): Stored
      reads this
    {
      Stored(seed, file)
    }

    constructor (seed: seq<Byte>, ghost h: Hash)
      requires Md5.LengthSafe(0, |seed|) && IsMd5(h)
      ensures Valid() && this.h == h && Now() == Stored(seed, [])
      ensures repr == {this, md5, md5.buffer, md5.count, md5.state}
      ensures fresh(md5) && fresh(md5.buffer) && fresh(md5.count) && fresh(md5.state)
    {
      this.h, this.seed, file := h, seed, [];
      var md5 := NewDigest(seed);
      this.md5 := md5;
      repr := {this, md5, md5.buffer, md5.count, md5.state};
      new;
      Ready();
    }

    lemma Ready()
      requires Parts() && file == [] && md5.fed == seed
      ensures Valid()
    {
      NothingAppended(seed);
      Close();
    }

    lemma Open()
      requires Valid()
      ensures Digesting()
    {
      assert Unsealed(0);
    }

    lemma Close()
      requires Digesting()
      ensures Valid()
    {
    }

    /** The digest of seed and content; nothing changes. */
    method Digest() returns (id: Id)
      requires Valid()
      modifies repr
      ensures Valid() && Now() == old(Now()) && id == IdOf(h, Now())
    {
      Open();
      assert Unsealed(0);
      id := md5.Digest();
      Close();
    }

    /** `written` tells whether the file takes all of the data. */
    method AppendChunk(data: seq<Byte>, written: bool) returns (ok: bool)
      requires Valid() && (written ==> CanFeed(Now(), data))
      modifies repr
      ensures ok == written
      ensures ok ==> Valid() && Now() == Stored(seed, old(file) + data)
    {
      if !written {
        return false;
      }
      Open();
      Write(data);
      Feed(data);
      Close();
      return true;
    }

    method Write(data: seq<Byte>)
      requires Digesting()
      modifies this`file
      ensures Parts() && file == old(file) + data && md5.fed == old(md5.fed) && seed + file == md5.fed + data
    {
      file := file + data;
      DigestKept(md5);
      Associative(seed, old(file), data);
    }

    /** Feeds the digest with what the file was extended by. */
    method Feed(data: seq<Byte>)
      requires Parts() && seed + file == md5.fed + data && Md5.LengthSafe(|md5.fed| % 64, |data|)
      modifies md5, md5.buffer, md5.count, md5.state
      ensures Digesting()
    {
      md5.Update(data);
    }
  }

  /** A blob none of whose parts has changed is what it was. */
  twostate lemma BlobKept(b: Blob)
    requires old(b.Valid()) && b in b.repr && unchanged(b.repr)
    ensures b.Valid() && b.Now() == old(b.Now())
  {
  }

  method NewBlob(seed: seq<Byte>, ghost h: Hash) returns (blob: Blob, id: Id)
    requires Md5.LengthSafe(0, |seed|) && IsMd5(h)
    ensures blob.Valid() && blob in blob.repr && fresh(blob.repr) && blob.h == h
    ensures blob.Now() == Stored(seed, []) && id == IdOf(h, blob.Now())
  {
    blob := new Blob(seed, h);
    assert fresh(blob.repr);
    id := blob.Digest();
  }

  ghost predicate Separate(b: Blob, c: Blob) {
    b.repr !! c.repr
  }

  class PLCObject {
    ghost const h: Hash
    var blobs: map<Id, Blob>
    var files: map<string, seq<Byte>>

    /** All blobs made so far, and what those in the map stand for. */
    ghost var made: set<Blob>
    ghost var model: map<Id, Stored>
    ghost var parts: set<object>

    /** Each blob stands under its own digest; no two blobs share a part. */
    ghost predicate Valid()
      reads this, parts
    {
      && blobs.Keys == model.Keys && this !in parts
      && (forall b :: b in made ==> b.repr <= parts)
      && (forall b, c {:trigger Separate(b, c)} :: b in made && c in made && b != c ==> Separate(b, c))
      && (forall id :: id in blobs ==> StandsFor(blobs[id], model[id]))
      && (forall id :: id in model ==> id == IdOf(h, model[id]))
    }

    ghost predicate StandsFor(b: Blob, m: Stored)
      reads this, parts
    {
      b in made && b in b.repr && b.repr <= parts && b.Valid() && b.h == h && b.Now() == m
    }

    ghost function Now(): State
      reads this
    {
      State(model, files)
    }

    constructor ()
      ensures Valid() && h == Md5Hash() && IsMd5(h) && Now() == State(map[], map[])
    {
      h := Md5Hash();
      blobs, files, made, model, parts := map[], map[], {}, map[], {};
    }

    method SeedBlob(seed: seq<Byte>, created: bool, memory: bool) returns (r: Reply)
      requires Valid() && IsMd5(h) && Md5.LengthSafe(0, |seed|)
      modifies this
      ensures Valid() && (Now(), r) == Seeded(h, old(Now()), seed, created, memory)
    {
      if !created {
        return Err(InputOutput);
      }
      var blob, id := NewBlob(seed, h);
      Adopt(blob);
      Insert(id, blob);
      if !memory {
        return Err(NoMemory);
      }
      return Ok(id);
    }

    method AppendChunkToBlob(data: seq<Byte>, id: Id, written: bool, memory: bool) returns (r: Reply)
      requires Valid() && (memory && written && id in model ==> CanFeed(model[id], data))
      modifies this`blobs, this`model, if id in blobs then blobs[id].repr else {}
      ensures Valid() && (Now(), r) == Appended(h, old(Now()), data, id, written, memory)
    {
      if !memory {
        return Err(NoMemory);
      }
      if id !in blobs {
        return Err(NoEntry);
      }
      var blob := Extract(id);
      var next := Grow(blob, data, written);
      if next.None? {
        return Err(InputOutput);
      }
      if next.value !in blobs {
        Insert(next.value, blob);
      }
      return Ok(next.value);
    }

    /** A new blob, none of whose parts is another's. */
    ghost method Adopt(blob: Blob)
      requires Valid() && blob.Valid() && blob in blob.repr && blob.h == h && this !in blob.repr && blob.repr !! parts
      modifies this`made, this`parts
      ensures Valid() && StandsFor(blob, blob.Now())
    {
      made, parts := made + {blob}, parts + blob.repr;
      forall other | other in blobs
        ensures StandsFor(blobs[other], model[other])
      {
        BlobKept(blobs[other]);
      }
      BlobKept(blob);
    }

    method Insert(id: Id, blob: Blob)
      requires Valid() && StandsFor(blob, blob.Now()) && id == IdOf(h, blob.Now())
      modifies this`blobs, this`model
      ensures Valid() && blobs == old(blobs)[id := blob] && model == old(model)[id := blob.Now()]
    {
      blobs, model := blobs[id := blob], model[id := blob.Now()];
      BlobKept(blob);
      forall other | other in old(blobs)
        ensures StandsFor(old(blobs)[other], old(model)[other])
      {
        BlobKept(old(blobs)[other]);
      }
    }

    /** Takes a blob out of the map; no other entry leads to it. */
    method Extract(id: Id) returns (blob: Blob)
      requires Valid() && id in blobs
      modifies this`blobs, this`model
      ensures Valid() && blob == old(blobs[id]) && model == old(model) - {id}
      ensures StandsFor(blob, old(model[id])) && forall other :: other in blobs ==> blobs[other] != blob
    {
      blob := blobs[id];
      blobs, model := blobs - {id}, model - {id};
      forall other | other in old(blobs)
        ensures StandsFor(old(blobs)[other], old(model)[other])
      {
        BlobKept(old(blobs)[other]);
      }
    }

    /** Extends a blob that is not in the map; the digest tells its new id. */
    method Grow(blob: Blob, data: seq<Byte>, written: bool) returns (next: Option<Id>)
      requires Valid() && StandsFor(blob, blob.Now()) && (written ==> CanFeed(blob.Now(), data))
      requires forall other :: other in blobs ==> blobs[other] != blob
      modifies blob.repr
      ensures Valid() && next.Some? == written
      ensures written ==> StandsFor(blob, Longer(old(blob.Now()), data)) && next == Some(IdOf(h, blob.Now()))
    {
      next := None;
      var ok := blob.AppendChunk(data, written);
      if ok {
        var id := blob.Digest();
        next := Some(id);
      }
      forall other | other in blobs
        ensures StandsFor(blobs[other], model[other])
      {
        assert Separate(blobs[other], blob);
        BlobKept(blobs[other]);
      }
    }

    method BlobAsFile(id: Id, filename: string, outcome: FileOutcome) returns (r: Reply)
      requires Valid()
      modifies this
      ensures Valid() && (Now(), r) == Realized(old(Now()), id, filename, outcome)
    {
      if id !in blobs {
        return Err(NoEntry);
      }
      var blob := Extract(id);
      if outcome != Renamed {
        return Err(InputOutput);
      }
      AddFile(filename, blob.file);
      return Ok(id);
    }

    method AddFile(filename: string, content: seq<Byte>)
      requires Valid()
      modifies this`files
      ensures Valid() && files == old(files)[filename := content]
    {
      files := files[filename := content];
      forall id | id in blobs
        ensures StandsFor(blobs[id], model[id])
      {
        BlobKept(blobs[id]);
      }
    }

    method PurgeBlobs()
      requires Valid()
      modifies this`blobs, this`model
      ensures Valid() && Now() == Perform(h, old(Now()), Call.PurgeBlobs).0
      ensures blobs == map[] && model == map[] && files == old(files)
    {
      blobs, model := map[], map[];
    }
  }
}
