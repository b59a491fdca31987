/** Content-addressed files: a blob's name is the digest of its content (src/store/files.rs). */
module BlobStore {
  import opened Utf8
  import opened Wrappers
  import Decimal

  type Path = seq<string>

  datatype BlobKind = PdfBlob | HtmlBlob | OtherBlob
  {
    function Dirname(): string {
      match this case PdfBlob => "pdf" case HtmlBlob => "html" case OtherBlob => "other"
    }

    function Extension(): string {
      match this case PdfBlob => "pdf" case HtmlBlob => "html" case OtherBlob => "blob"
    }
  }

  function BlobPath(kind: BlobKind, sha256: string): Path {
    ["blobs", kind.Dirname(), "sha256", sha256 + "." + kind.Extension()]
  }

  lemma {:induction false} DirnameDetermines(a: BlobKind, b: BlobKind)
    requires a.Dirname() == b.Dirname()
    ensures a == b
  {
    assert "pdf"[0] != "html"[0] && "pdf"[0] != "other"[0] && "html"[0] != "other"[0];
  }

  lemma {:induction false} BlobPathInjective(a: BlobKind, x: string, b: BlobKind, y: string)
    requires BlobPath(a, x) == BlobPath(b, y)
    ensures a == b && x == y
  {
    assert BlobPath(a, x)[1] == BlobPath(b, y)[1];
    DirnameDetermines(a, b);
    var suffix := "." + a.Extension();
    assert x + suffix == BlobPath(a, x)[3] == BlobPath(b, y)[3] == y + suffix;
    assert x == (x + suffix)[..|x + suffix| - |suffix|];
    assert y == (y + suffix)[..|y + suffix| - |suffix|];
  }

  datatype StoredBlob = StoredBlob(sha256: string, path: Path, sizeBytes: nat)

  /** The digest of a byte string; nothing about it is assumed here. */
  type Digest = seq<byte> -> string

  class Sha256State {
    const digest: Digest
    ghost var seen: seq<byte>
    var state: seq<byte>

    constructor (digest: Digest)
      ensures this.digest == digest && seen == [] && Valid()
    {
      this.digest := digest;
      seen, state := [], [];
    }

    ghost predicate Valid()
      reads this
    {
      state == seen
    }

    method Update(bytes: seq<byte>)
      requires Valid()
      modifies this
      ensures Valid() && seen == old(seen) + bytes
    {
      state, seen := state + bytes, seen + bytes;
    }

    method FinishHex() returns (hex: string)
      requires Valid()
      ensures hex == digest(seen)
    {
      hex := digest(state);
    }
  }

  /** A byte source that hands out portions of any size; zero bytes mean the end. */
  class Reader {
    var rest: seq<byte>

    constructor (bytes: seq<byte>)
      ensures rest == bytes
    {
      rest := bytes;
    }

    method Read(buffer: array<byte>) returns (read: nat)
      requires buffer.Length > 0
      modifies this, buffer
      ensures read <= buffer.Length && read <= |old(rest)|
      ensures read == 0 <==> old(rest) == []
      ensures buffer[..read] == old(rest)[..read] && rest == old(rest)[read..]
    {
      if rest == [] {
        return 0;
      }
      var most := if |rest| < buffer.Length then |rest| else buffer.Length;
      read :| 0 < read <= most;
      for i := 0 to read
        modifies buffer
        invariant buffer[..i] == rest[..i]
      {
        buffer[i] := rest[i];
        assert buffer[..i + 1] == buffer[..i] + [rest[i]];
      }
      rest := rest[read..];
    }
  }

  datatype FileStoreError = Io

  type Blobs = map<Path, seq<byte>>

  /** Every blob is complete: its name is the digest of all of its content. */
  ghost predicate Named(blobs: Blobs, digest: Digest) {
    forall p :: p in blobs ==> exists kind: BlobKind :: p == BlobPath(kind, digest(blobs[p]))
  }

  /** Storing `bytes`: an existing blob of that name is kept. */
  function Put(blobs: Blobs, digest: Digest, kind: BlobKind, bytes: seq<byte>): Blobs {
    var path := BlobPath(kind, digest(bytes));
    if path in blobs then blobs else blobs[path := bytes]
  }

  lemma {:induction false} PutKeepsNames(blobs: Blobs, digest: Digest, kind: BlobKind, bytes: seq<byte>)
    requires Named(blobs, digest)
    ensures Named(Put(blobs, digest, kind, bytes), digest)
  {
    var after := Put(blobs, digest, kind, bytes);
    forall p | p in after ensures exists k: BlobKind :: p == BlobPath(k, digest(after[p])) {
      if p in blobs {
        var k :| p == BlobPath(k, digest(blobs[p]));
        assert p == BlobPath(k, digest(after[p]));
      } else {
        assert p == BlobPath(kind, digest(after[p]));
      }
    }
  }

  const BUFFER_SIZE: nat := 32 * 1024

  class ContentAddressedStore {
    const digest: Digest
    const processId: nat
    var blobs: Blobs
    var temps: map<string, seq<byte>>
    var counter: nat

    constructor (digest: Digest, processId: nat)
      ensures this.digest == digest && this.processId == processId && blobs == map[] && temps == map[]
      ensures Valid()
    {
      this.digest, this.processId := digest, processId;
      blobs, temps, counter := map[], map[], 0;
    }

    ghost predicate Valid()
      reads this
    {
      Named(blobs, digest)
    }

    /** The copy loop: every portion read is digested, written and counted. */
    method Copy(reader: Reader, hasher: Sha256State, tempName: string) returns (r: Result<nat, FileStoreError>)
      requires hasher.Valid() && hasher.seen == [] && tempName in temps && temps[tempName] == []
      modifies this`temps, reader, hasher
      ensures hasher.Valid()
      ensures r.Ok? ==> reader.rest == [] && hasher.seen == old(reader.rest) && r.value == |old(reader.rest)|
      ensures r.Ok? ==> temps == old(temps)[tempName := old(reader.rest)]
    {
      ghost var all := reader.rest;
      ghost var found := temps;
      var sizeBytes := 0;
      var buffer := new byte[BUFFER_SIZE](_ => 0);
      assert found[tempName := []] == found;
      while true
        modifies this`temps, reader, hasher, buffer
        invariant fresh(buffer) && buffer.Length == BUFFER_SIZE
        invariant hasher.Valid() && hasher.seen + reader.rest == all
        invariant temps == found[tempName := hasher.seen] && sizeBytes == |hasher.seen|
        decreases |reader.rest|
      {
        var ok: bool := *;
        if !ok {
          return Err(Io);
        }
        ghost var rest := reader.rest;
        var read := reader.Read(buffer);
        if read == 0 {
          break;
        }
        ok := *;
        if !ok {
          return Err(Io);
        }
        assert rest == rest[..read] + rest[read..];
        hasher.Update(buffer[..read]);
        temps := temps[tempName := temps[tempName] + buffer[..read]];
        sizeBytes := sizeBytes + read;
      }
      return Ok(sizeBytes);
    }

    function TempName(): string
      reads this
    {
      "blob-" + Decimal.ToDecimal(processId) + "-" + Decimal.ToDecimal(counter)
    }

    /** `put_reader`: copy, digest and count in one pass, then rename the finished copy to its name. */
    method PutReader(kind: BlobKind, reader: Reader) returns (r: Result<StoredBlob, FileStoreError>)
      requires Valid()
      modifies this, reader
      ensures Valid()
      ensures r.Ok? ==>
                var all := old(reader.rest);
                && r.value == StoredBlob(digest(all), BlobPath(kind, digest(all)), |all|)
                && blobs == Put(old(blobs), digest, kind, all)
                && reader.rest == []
                && temps == old(temps) - {old(TempName())}
      ensures r.Err? ==> blobs == old(blobs)
    {
      var tempName := TempName();
      counter := counter + 1;
      ghost var found := temps;
      ghost var all := reader.rest;
      var ok: bool := *;
      if !ok {
        return Err(Io);
      }
      temps := temps[tempName := []];
      var hasher := new Sha256State(digest);
      var sizeBytes :- Copy(reader, hasher, tempName);
      ok := *;
      if !ok {
        return Err(Io);
      }
      var sha256 := hasher.FinishHex();
      var finalPath := BlobPath(kind, sha256);
      PutKeepsNames(blobs, digest, kind, all);
      if finalPath !in blobs {
        blobs := blobs[finalPath := temps[tempName]];
      }
      temps := temps - {tempName};
      assert temps == found - {tempName};
      return Ok(StoredBlob(sha256, finalPath, sizeBytes));
    }
  }
}
