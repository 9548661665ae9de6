/** The encrypted blob files, and what a read may and may not delete. */
module Opfs {
  import opened Items
  import opened Fingerprints
  import opened Index

  // ---- The stored envelope ----

  const NONCE_LEN: nat := 12

  type Nonce = n: seq<bv8> | |n| == NONCE_LEN witness seq(NONCE_LEN, _ => 0 as bv8)

  datatype EnvelopeError = TooShort(found: nat)

  function SealEnvelope(nonce: Nonce, ciphertext: seq<bv8>): seq<bv8> { nonce + ciphertext }

  function SplitEnvelope(stored: seq<bv8>): Result<(Nonce, seq<bv8>), EnvelopeError> {
    if |stored| <= NONCE_LEN then Err(TooShort(|stored|))
    else Ok((stored[..NONCE_LEN], stored[NONCE_LEN..]))
  }

  /** Splitting undoes sealing and nothing else splits; an empty ciphertext is refused. */
  lemma EnvelopeRoundTrip(stored: seq<bv8>, nonce: Nonce, ciphertext: seq<bv8>)
    ensures SplitEnvelope(stored) == Ok((nonce, ciphertext)) <==>
            stored == SealEnvelope(nonce, ciphertext) && ciphertext != []
  {
    if SplitEnvelope(stored) == Ok((nonce, ciphertext)) {
      assert stored == stored[..NONCE_LEN] + stored[NONCE_LEN..];
    }
    if stored == SealEnvelope(nonce, ciphertext) && ciphertext != [] {
      assert stored[..NONCE_LEN] == nonce && stored[NONCE_LEN..] == ciphertext;
    }
  }

  // ---- Keys and the cipher, as opaque operations ----

  type SessionKey = nat

  datatype Cipher = Cipher(encrypt: (SessionKey, Nonce, seq<bv8>) -> seq<bv8>,
                           decrypt: (SessionKey, Nonce, seq<bv8>) -> Option<seq<bv8>>)

  /** All the cache relies on: a key opens what it sealed, and a sealed message carries at least a tag. */
  ghost predicate Sound(c: Cipher) {
    forall k, n, p :: c.encrypt(k, n, p) != [] && c.decrypt(k, n, c.encrypt(k, n, p)) == Some(p)
  }

  // ---- Files ----

  type BlobKey = (Uuid, Fingerprint)

  type Files = map<BlobKey, seq<bv8>>

  const MIN_BLOB_LEN: nat := 1

  function ShapeOf(files: Files, at: BlobKey): BlobShape {
    if at !in files then Absent
    else if |files[at]| < MIN_BLOB_LEN then Incomplete
    else Complete
  }

  /** The verified plaintext under a name, if its file is finished, opens, and hashes to that name. */
  function Opened(files: Files, at: BlobKey, key: SessionKey, cipher: Cipher, hash: Hash): Option<seq<bv8>> {
    if ShapeOf(files, at) != Complete then None
    else
      match SplitEnvelope(files[at])
      case Err(_) => None
      case Ok((nonce, ciphertext)) =>
        match cipher.decrypt(key, nonce, ciphertext)
        case None => None
        case Some(plaintext) => if hash(plaintext) == at.1 then Some(plaintext) else None
  }

  /** What is written under a key opens under it again, as the same bytes. */
  lemma WrittenOpens(files: Files, at: BlobKey, key: SessionKey, nonce: Nonce, plaintext: seq<bv8>, cipher: Cipher,
                     hash: Hash)
    requires Sound(cipher) && hash(plaintext) == at.1
    ensures var sealed := SealEnvelope(nonce, cipher.encrypt(key, nonce, plaintext));
            && ShapeOf(files[at := sealed], at) == Complete
            && Opened(files[at := sealed], at, key, cipher, hash) == Some(plaintext)
  {
    var ciphertext := cipher.encrypt(key, nonce, plaintext);
    EnvelopeRoundTrip(SealEnvelope(nonce, ciphertext), nonce, ciphertext);
  }

  class OpfsStore {
    var files: Files
    const cipher: Cipher
    const hash: Hash

    constructor (files: Files, cipher: Cipher, hash: Hash)
      ensures this.files == files && this.cipher == cipher && this.hash == hash
    {
      this.files, this.cipher, this.hash := files, cipher, hash;
    }

    /** Store bytes that are what the server promised; refuse any others before anything is written. */
    method WriteBlob(world: Uuid, expected: Fingerprint, plaintext: seq<bv8>, key: SessionKey, nonce: Nonce)
      returns (r: Result<(), IntegrityError>)
      modifies this`files
      ensures r.Ok? <==> hash(plaintext) == expected
      ensures files ==
              if r.Ok? then old(files)[(world, expected) := SealEnvelope(nonce, cipher.encrypt(key, nonce, plaintext))]
              else old(files)
    {
      r := Verify(hash, plaintext, expected);
      if r.Ok? {
        var sealed := SealEnvelope(nonce, cipher.encrypt(key, nonce, plaintext));
        files := files[(world, expected) := sealed];
      }
    }

    /** Only a finished file that will not open to its own name is deleted; an unfinished one never is. */
    method ReadBlob(world: Uuid, expected: Fingerprint, key: SessionKey) returns (r: Option<seq<bv8>>)
      modifies this`files
      ensures r == Opened(old(files), (world, expected), key, cipher, hash)
      ensures r.Some? ==> hash(r.value) == expected
      ensures files == if r == None && ShapeOf(old(files), (world, expected)) == Complete
                       then old(files) - {(world, expected)} else old(files)
    {
      var at := (world, expected);
      if !ShapeOf(files, at).IsReadable() {
        return None;
      }
      var envelope := SplitEnvelope(files[at]);
      if envelope.Err? {
        RemoveBlob(world, expected);
        return None;
      }
      var plaintext := cipher.decrypt(key, envelope.value.0, envelope.value.1);
      if plaintext == None {
        RemoveBlob(world, expected);
        return None;
      }
      if Verify(hash, plaintext.value, expected).Err? {
        RemoveBlob(world, expected);
        return None;
      }
      r := plaintext;
    }

    method BlobShapeAt(world: Uuid, fingerprint: Fingerprint) returns (shape: BlobShape)
      ensures shape == ShapeOf(files, (world, fingerprint))
    {
      shape := ShapeOf(files, (world, fingerprint));
    }

    method RemoveBlob(world: Uuid, fingerprint: Fingerprint)
      modifies this`files
      ensures files == old(files) - {(world, fingerprint)}
    {
      files := files - {(world, fingerprint)};
    }

    /** Every file of a world, finished or not, each once. */
    method ListFingerprints(world: Uuid) returns (fps: seq<Fingerprint>)
      ensures Distinct(fps)
      ensures forall fp :: fp in fps <==> (world, fp) in files
    {
      var keys := ListKeys(files);
      fps := [];
      for i := 0 to |keys|
        invariant Distinct(fps)
        invariant forall fp :: fp in fps <==> (world, fp) in keys[..i]
      {
        assert keys[..i + 1] == keys[..i] + [keys[i]];
        if keys[i].0 == world {
          assert keys[i].1 !in fps;
          fps := fps + [keys[i].1];
        }
      }
      assert keys[..|keys|] == keys;
    }

    method RemoveWorld(world: Uuid)
      modifies this`files
      ensures files == OtherFiles(old(files), world)
    {
      files := OtherFiles(files, world);
    }
  }

  function OtherFiles(files: Files, world: Uuid): Files {
    map at | at in files && at.0 != world :: files[at]
  }
}
