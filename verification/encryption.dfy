/**
 * The document-encryption envelope: key generation and derivation, the
 * AES-GCM encrypt/decrypt wrappers, the stored metadata record and the blob
 * round trip.
 *
 * The WebCrypto primitives are not modelled: they are the fields of a
 * `Provider`, and the facts the envelope relies on (an AEAD decrypts what it
 * encrypted under the same key and IV, the ciphertext is the plaintext plus
 * a 128-bit tag, PBKDF2 yields the requested number of bits) are collected in
 * the predicate `Sound`, which the round-trip lemmas take as a precondition.
 * Random bytes come from an explicit stream `Rng`.
 */
module Encryption {
  import opened Wrappers
  import opened Text

  type byte = b: int | 0 <= b < 256

  const Algorithm: string := "AES-GCM"
  const KeyLength: nat := 256
  const IvLength: nat := 12
  const SaltLength: nat := 16
  const TagLength: nat := 128
  const Pbkdf2Iterations: nat := 100000
  const Pbkdf2Hash: string := "SHA-256"
  const OctetStream: string := "application/octet-stream"
  const UnknownError: string := "Unknown error"
  const EncryptFailed: string := "Failed to encrypt file: "
  const DecryptFailed: string := "Failed to decrypt file: "
  const DocumentFailed: string := "Failed to decrypt document: "

  datatype Usage = Encrypt | Decrypt

  /** A WebCrypto key: its raw bytes and the attributes the application sets. */
  datatype CryptoKey = CryptoKey(
    material: seq<byte>, algorithm: string, length: nat, extractable: bool, usages: seq<Usage>)

  /** A generated key together with its raw export. */
  datatype EncryptionKey = EncryptionKey(key: CryptoKey, keyData: seq<byte>)

  datatype EncryptedFile = EncryptedFile(encryptedData: seq<byte>, iv: seq<byte>, salt: seq<byte>)

  /** The name, MIME type and size the browser reports for a chosen file. */
  datatype File = File(name: string, fileType: string, size: nat)

  datatype Blob = Blob(bytes: seq<byte>, mimeType: string)

  /**
   * The metadata record. It is written by `CreateEncryptedBlob` and read
   * back from the database as untyped JSON, so every field may be missing.
   */
  datatype Metadata = Metadata(
    iv: Option<seq<int>>,
    salt: Option<seq<int>>,
    algorithm: Option<string>,
    originalName: Option<string>,
    originalType: Option<string>,
    originalSize: Option<nat>,
    encrypted: Option<bool>,
    encryptedAt: Option<string>)

  /** What `createEncryptedBlob` returns. */
  datatype EncryptedBlob = EncryptedBlob(blob: Blob, metadata: Metadata, encryptionKey: Option<seq<byte>>)

  /**
   * The cryptographic primitives: AES-GCM encryption and decryption by raw
   * key, IV and data; PBKDF2 by password, salt, iterations, hash and bit
   * count; and the UTF-8 encoder. Any of the cipher calls may throw.
   */
  datatype Provider = Provider(
    encrypt: (seq<byte>, seq<byte>, seq<byte>) -> Result<seq<byte>, Thrown>,
    decrypt: (seq<byte>, seq<byte>, seq<byte>) -> Result<seq<byte>, Thrown>,
    pbkdf2: (seq<byte>, seq<byte>, nat, string, nat) -> seq<byte>,
    utf8: string -> seq<byte>)

  /**
   * The AEAD and key-derivation facts of NIST SP 800-38D and section 5.2 of
   * RFC 8018 that the envelope depends on.
   */
  ghost predicate Sound(p: Provider) {
    && (forall k, iv, d :: p.encrypt(k, iv, d).Ok? ==>
          && |p.encrypt(k, iv, d).value| == |d| + TagLength / 8
          && p.decrypt(k, iv, p.encrypt(k, iv, d).value) == Ok(d))
    && (forall pw, s, n: nat, h, bits: nat :: |p.pbkdf2(pw, s, n, h, bits)| == bits / 8)
  }

  // ---------------------------------------------------------------------
  // Randomness
  // ---------------------------------------------------------------------

  /** A stream of random bytes and the position of the next unread one. */
  datatype Rng = Rng(draw: nat -> byte, pos: nat) {

    /** The next `n` bytes of the stream, and the stream after them. */
    function Take(n: nat): (r: Drawn<seq<byte>>)
      ensures |r.value| == n
      ensures forall i :: 0 <= i < n ==> r.value[i] == draw(pos + i)
      ensures r.rng == Rng(draw, pos + n)
    {
      Drawn(seq(n, i requires 0 <= i < n => draw(pos + i)), Rng(draw, pos + n))
    }
  }

  /** A value computed from random bytes, and the stream after them. */
  datatype Drawn<T> = Drawn(value: T, rng: Rng)

  /** `generateIV`: twelve fresh bytes. */
  function GenerateIV(g: Rng): (r: Drawn<seq<byte>>)
    ensures |r.value| == 12
    ensures forall i :: 0 <= i < 12 ==> r.value[i] == g.draw(g.pos + i)
    ensures r.rng == Rng(g.draw, g.pos + 12)
  {
    g.Take(IvLength)
  }

  /** `generateSalt`: sixteen fresh bytes. */
  function GenerateSalt(g: Rng): (r: Drawn<seq<byte>>)
    ensures |r.value| == 16
    ensures forall i :: 0 <= i < 16 ==> r.value[i] == g.draw(g.pos + i)
    ensures r.rng == Rng(g.draw, g.pos + 16)
  {
    g.Take(SaltLength)
  }

  /** `generateKey`: a fresh extractable 256-bit AES-GCM key and its raw export. */
  function GenerateKey(g: Rng): (r: Drawn<EncryptionKey>)
    ensures r.value.keyData == r.value.key.material
    ensures |r.value.keyData| == KeyLength / 8
    ensures forall i :: 0 <= i < KeyLength / 8 ==> r.value.keyData[i] == g.draw(g.pos + i)
    ensures r.value.key.algorithm == Algorithm && r.value.key.length == KeyLength
    ensures r.value.key.extractable && r.value.key.usages == [Encrypt, Decrypt]
    ensures r.rng == Rng(g.draw, g.pos + 32)
  {
    var bytes := g.Take(KeyLength / 8);
    var key := CryptoKey(bytes.value, Algorithm, KeyLength, true, [Encrypt, Decrypt]);
    Drawn(EncryptionKey(key, bytes.value), bytes.rng)
  }

  /** `importKey`: raw AES key bytes of one of the three AES sizes become a non-extractable key. */
  function ImportKey(keyData: seq<byte>): (r: Option<CryptoKey>)
    ensures r.Some? <==> |keyData| in {16, 24, 32}
    ensures r.Some? ==> r.value.material == keyData && !r.value.extractable
    ensures r.Some? ==> r.value.usages == [Encrypt, Decrypt] && r.value.algorithm == Algorithm
  {
    if |keyData| in {16, 24, 32} then
      Some(CryptoKey(keyData, Algorithm, 8 * |keyData|, false, [Encrypt, Decrypt]))
    else None
  }

  // ---------------------------------------------------------------------
  // encryptFile, decryptFile
  // ---------------------------------------------------------------------

  /** The key `encryptFile` encrypts with: the one passed, or a freshly generated one. */
  function UsedKey(g: Rng, key: Option<CryptoKey>): (r: Drawn<CryptoKey>)
    ensures key.Some? ==> r == Drawn(key.value, g)
    ensures key.None? ==> r == Drawn(GenerateKey(g).value.key, GenerateKey(g).rng)
  {
    match key
    case Some(k) => Drawn(k, g)
    case None =>
      var d := GenerateKey(g);
      Drawn(d.value.key, d.rng)
  }

  /** A failure rethrown as an `Error` whose message is `prefix` and the cause's message. */
  function Rethrow(prefix: string, t: Thrown): (e: Thrown)
    ensures e.ErrorObject? && StartsWith(e.message, prefix)
    ensures t.ErrorObject? ==> e.message == prefix + t.message
    ensures t.NonError? ==> e.message == prefix + UnknownError
  {
    ConcatEnds(prefix, MessageOr(t, UnknownError));
    ErrorObject(prefix + MessageOr(t, UnknownError))
  }

  /**
   * `encryptFile(file, key)`: the key (generated first when none is given),
   * then the IV and the salt are drawn, the file's bytes (`read`, the outcome
   * of reading it) are encrypted, and any failure is rethrown with the
   * "Failed to encrypt file: " prefix.
   */
  function EncryptFile(p: Provider, g: Rng, read: Result<seq<byte>, Thrown>, key: Option<CryptoKey>)
    : (r: Drawn<Result<EncryptedFile, Thrown>>)
    ensures var start := g.pos + (if key.None? then 32 else 0);
      r.rng == Rng(g.draw, start + 28)
    ensures r.value.Ok? ==>
      var start := g.pos + (if key.None? then 32 else 0);
      && |r.value.value.iv| == IvLength && |r.value.value.salt| == SaltLength
      && (forall i :: 0 <= i < IvLength ==> r.value.value.iv[i] == g.draw(start + i))
      && (forall i :: 0 <= i < SaltLength ==> r.value.value.salt[i] == g.draw(start + IvLength + i))
    ensures r.value.Ok? <==>
      read.Ok? &&
      p.encrypt(UsedKey(g, key).value.material, GenerateIV(UsedKey(g, key).rng).value, read.value).Ok?
    ensures r.value.Err? ==> r.value.error.ErrorObject? && StartsWith(r.value.error.message, EncryptFailed)
    ensures read.Err? ==> r.value == Err(Rethrow(EncryptFailed, read.error))
  {
    var k := UsedKey(g, key);
    var iv := GenerateIV(k.rng);
    var salt := GenerateSalt(iv.rng);
    var outcome :=
      match read
      case Err(t) => Err(t)
      case Ok(data) =>
        match p.encrypt(k.value.material, iv.value, data)
        case Err(t) => Err(t)
        case Ok(c) => Ok(EncryptedFile(c, iv.value, salt.value));
    match outcome
    case Ok(f) => Drawn(Ok(f), salt.rng)
    case Err(t) => Drawn(Err(Rethrow(EncryptFailed, t)), salt.rng)
  }

  /** `decryptFile(encryptedFile, key)`: any failure is rethrown with the "Failed to decrypt file: " prefix. */
  function DecryptFile(p: Provider, f: EncryptedFile, key: CryptoKey): (r: Result<seq<byte>, Thrown>)
    ensures r.Ok? <==> p.decrypt(key.material, f.iv, f.encryptedData).Ok?
    ensures r.Err? ==> r.error == Rethrow(DecryptFailed, p.decrypt(key.material, f.iv, f.encryptedData).error)
  {
    match p.decrypt(key.material, f.iv, f.encryptedData)
    case Ok(d) => Ok(d)
    case Err(t) => Err(Rethrow(DecryptFailed, t))
  }

  /** Under a sound provider, a file encrypted by `EncryptFile` decrypts back to its bytes with the key used. */
  lemma EncryptThenDecrypt(p: Provider, g: Rng, data: seq<byte>, key: Option<CryptoKey>)
    requires Sound(p)
    requires EncryptFile(p, g, Ok(data), key).value.Ok?
    ensures DecryptFile(p, EncryptFile(p, g, Ok(data), key).value.value, UsedKey(g, key).value) == Ok(data)
  {
  }

  /** The ciphertext is the plaintext plus the 128-bit authentication tag. */
  lemma CiphertextLength(p: Provider, g: Rng, data: seq<byte>, key: Option<CryptoKey>)
    requires Sound(p)
    requires EncryptFile(p, g, Ok(data), key).value.Ok?
    ensures |EncryptFile(p, g, Ok(data), key).value.value.encryptedData| == |data| + 16
  {
  }

  /** Two successive encryptions draw their IVs from disjoint stretches of the random stream. */
  lemma FreshIVs(p: Provider, g: Rng, read1: Result<seq<byte>, Thrown>, read2: Result<seq<byte>, Thrown>,
                 key: Option<CryptoKey>)
    ensures var first := EncryptFile(p, g, read1, key);
      var second := EncryptFile(p, first.rng, read2, key);
      second.rng.draw == g.draw && second.rng.pos >= first.rng.pos + 28 && first.rng.pos >= g.pos + 28
  {
  }

  // ---------------------------------------------------------------------
  // Number-array serialisation of IV and salt
  // ---------------------------------------------------------------------

  /** `Array.from(bytes)`: the bytes as plain numbers. */
  function ToNumbers(bytes: seq<byte>): (ns: seq<int>)
    ensures |ns| == |bytes|
    ensures forall i :: 0 <= i < |ns| ==> 0 <= ns[i] < 256 && ns[i] == bytes[i]
  {
    seq(|bytes|, i requires 0 <= i < |bytes| => bytes[i] as int)
  }

  /** `new Uint8Array(numbers)`: each integer taken modulo 256. */
  function FromNumbers(ns: seq<int>): (bytes: seq<byte>)
    ensures |bytes| == |ns|
    ensures forall i :: 0 <= i < |ns| && 0 <= ns[i] < 256 ==> bytes[i] == ns[i]
    ensures forall i :: 0 <= i < |ns| ==> (bytes[i] - ns[i]) % 256 == 0
  {
    seq(|ns|, i requires 0 <= i < |ns| => ns[i] % 256)
  }

  /** IV and salt survive the metadata: rebuilding them from their numbers gives the same bytes. */
  lemma NumbersRoundTrip(bytes: seq<byte>)
    ensures FromNumbers(ToNumbers(bytes)) == bytes
  {
  }

  // ---------------------------------------------------------------------
  // createEncryptedBlob, decryptBlob
  // ---------------------------------------------------------------------

  /** The metadata record `createEncryptedBlob` stores for `file`. */
  function BlobMetadata(f: EncryptedFile, file: File, encryptedAt: string): (m: Metadata)
    ensures m.iv == Some(ToNumbers(f.iv)) && m.salt == Some(ToNumbers(f.salt))
    ensures m.algorithm == Some(Algorithm) && m.encrypted == Some(true)
    ensures m.originalName == Some(file.name) && m.originalType == Some(file.fileType)
    ensures m.originalSize == Some(file.size) && m.encryptedAt == Some(encryptedAt)
  {
    Metadata(Some(ToNumbers(f.iv)), Some(ToNumbers(f.salt)), Some(Algorithm), Some(file.name),
             Some(file.fileType), Some(file.size), Some(true), Some(encryptedAt))
  }

  /**
   * `createEncryptedBlob(file, key)` as written: the file is encrypted (with a
   * generated key when none is given), the metadata and an octet-stream blob
   * are built, and, when no key was given, the raw export of a SECOND freshly
   * generated key is returned. Failures of `encryptFile` pass through.
   * `encryptedAt` is the clock reading.
   */
  function CreateEncryptedBlob(p: Provider, g: Rng, file: File, read: Result<seq<byte>, Thrown>,
                               key: Option<CryptoKey>, encryptedAt: string)
    : (r: Drawn<Result<EncryptedBlob, Thrown>>)
    ensures var e := EncryptFile(p, g, read, key);
      && (r.value.Ok? <==> e.value.Ok?)
      && (r.value.Err? ==> r.value.error == e.value.error)
      && (r.value.Ok? ==>
            && r.value.value.blob == Blob(e.value.value.encryptedData, OctetStream)
            && r.value.value.metadata == BlobMetadata(e.value.value, file, encryptedAt)
            && (key.Some? ==> r.value.value.encryptionKey.None?)
            && (key.None? ==> r.value.value.encryptionKey == Some(GenerateKey(e.rng).value.keyData)))
  {
    var e := EncryptFile(p, g, read, key);
    match e.value
    case Err(t) => Drawn(Err(t), e.rng)
    case Ok(f) =>
      var blob := Blob(f.encryptedData, OctetStream);
      var metadata := BlobMetadata(f, file, encryptedAt);
      if key.None? then
        var second := GenerateKey(e.rng);
        Drawn(Ok(EncryptedBlob(blob, metadata, Some(second.value.keyData))), second.rng)
      else
        Drawn(Ok(EncryptedBlob(blob, metadata, None)), e.rng)
  }

  /**
   * `createEncryptedBlob` as evidently intended: when it generates the key,
   * it returns the raw export of that same key.
   */
  function CreateEncryptedBlobFixed(p: Provider, g: Rng, file: File, read: Result<seq<byte>, Thrown>,
                                    key: Option<CryptoKey>, encryptedAt: string)
    : (r: Drawn<Result<EncryptedBlob, Thrown>>)
    ensures var e := EncryptFile(p, g, read, key);
      && (r.value.Ok? <==> e.value.Ok?)
      && (r.value.Err? ==> r.value.error == e.value.error)
      && (r.value.Ok? ==>
            && r.value.value.blob == Blob(e.value.value.encryptedData, OctetStream)
            && r.value.value.metadata == BlobMetadata(e.value.value, file, encryptedAt)
            && (key.Some? ==> r.value.value.encryptionKey.None?)
            && (key.None? ==> r.value.value.encryptionKey == Some(UsedKey(g, key).value.material)))
  {
    var e := EncryptFile(p, g, read, key);
    match e.value
    case Err(t) => Drawn(Err(t), e.rng)
    case Ok(f) =>
      var blob := Blob(f.encryptedData, OctetStream);
      var metadata := BlobMetadata(f, file, encryptedAt);
      var exported := if key.None? then Some(UsedKey(g, key).value.material) else None;
      Drawn(Ok(EncryptedBlob(blob, metadata, exported)), e.rng)
  }

  /**
   * `decryptBlob(blob, metadata, key)`: the blob's bytes (`read`) are
   * decrypted with the IV rebuilt from `metadata.iv` (an absent array is
   * empty); `metadata.algorithm` and the salt play no part. The result is
   * typed `metadata.originalType`, or octet-stream when that is missing or
   * empty. Failures are rethrown with the "Failed to decrypt document: "
   * prefix, on top of the one `decryptFile` added.
   */
  function DecryptBlob(p: Provider, read: Result<seq<byte>, Thrown>, metadata: Metadata, key: CryptoKey)
    : (r: Result<Blob, Thrown>)
    ensures read.Err? ==> r == Err(Rethrow(DocumentFailed, read.error))
    ensures read.Ok? ==>
      var d := p.decrypt(key.material, FromNumbers(metadata.iv.GetOr([])), read.value);
      && (r.Ok? <==> d.Ok?)
      && (r.Ok? ==> r.value.bytes == d.value)
      && (r.Err? ==> r.error == Rethrow(DocumentFailed, Rethrow(DecryptFailed, d.error)))
    ensures r.Ok? ==> r.value.mimeType == OrElse(metadata.originalType, OctetStream)
    ensures r.Err? ==> StartsWith(r.error.message, DocumentFailed)
  {
    match read
    case Err(t) => Err(Rethrow(DocumentFailed, t))
    case Ok(data) =>
      var f := EncryptedFile(data, FromNumbers(metadata.iv.GetOr([])), FromNumbers(metadata.salt.GetOr([])));
      match DecryptFile(p, f, key)
      case Err(t) => Err(Rethrow(DocumentFailed, t))
      case Ok(d) => Ok(Blob(d, OrElse(metadata.originalType, OctetStream)))
  }

  /** The type a decrypted blob gets back: the original type, or octet-stream for an untyped file. */
  function RestoredType(file: File): string {
    if file.fileType == "" then OctetStream else file.fileType
  }

  /**
   * Round trip: under a sound provider, decrypting the blob and metadata of a
   * successful `CreateEncryptedBlob` with the key it encrypted with gives the
   * file's bytes back, typed as the file was.
   */
  lemma BlobRoundTrip(p: Provider, g: Rng, file: File, data: seq<byte>, key: Option<CryptoKey>, at: string)
    requires Sound(p)
    requires CreateEncryptedBlob(p, g, file, Ok(data), key, at).value.Ok?
    ensures var e := CreateEncryptedBlob(p, g, file, Ok(data), key, at).value.value;
      DecryptBlob(p, Ok(e.blob.bytes), e.metadata, UsedKey(g, key).value) == Ok(Blob(data, RestoredType(file)))
  {
    var f := EncryptFile(p, g, Ok(data), key).value.value;
    NumbersRoundTrip(f.iv);
  }

  /**
   * As written, the key returned when none was given is the export of a key
   * drawn after the one that encrypted: its bytes are the stream positions
   * 60 to 91 past the start, the encrypting key's are 0 to 31.
   */
  lemma ReturnedKeyIsSecondDraw(p: Provider, g: Rng, file: File, read: Result<seq<byte>, Thrown>, at: string)
    requires CreateEncryptedBlob(p, g, file, read, None, at).value.Ok?
    ensures var k := CreateEncryptedBlob(p, g, file, read, None, at).value.value.encryptionKey;
      && k.Some? && |k.value| == 32
      && (forall i :: 0 <= i < 32 ==> k.value[i] == g.draw(g.pos + 60 + i))
      && (forall i :: 0 <= i < 32 ==> UsedKey(g, None).value.material[i] == g.draw(g.pos + i))
  {
  }

  /** With the fix, the returned key, once imported, decrypts the blob. */
  lemma FixedReturnedKeyDecrypts(p: Provider, g: Rng, file: File, data: seq<byte>, at: string)
    requires Sound(p)
    requires CreateEncryptedBlobFixed(p, g, file, Ok(data), None, at).value.Ok?
    ensures var e := CreateEncryptedBlobFixed(p, g, file, Ok(data), None, at).value.value;
      && e.encryptionKey.Some?
      && ImportKey(e.encryptionKey.value).Some?
      && DecryptBlob(p, Ok(e.blob.bytes), e.metadata, ImportKey(e.encryptionKey.value).value)
         == Ok(Blob(data, RestoredType(file)))
  {
    var f := EncryptFile(p, g, Ok(data), None).value.value;
    NumbersRoundTrip(f.iv);
  }

  // ---------------------------------------------------------------------
  // A concrete provider: the axioms can be met, and the returned key fails
  // ---------------------------------------------------------------------

  /** A 16-byte tag made of the key's first bytes. */
  function ToyTag(k: seq<byte>): (t: seq<byte>)
    ensures |t| == 16
  {
    seq(16, i requires 0 <= i < 16 => if i < |k| then k[i] else 0)
  }

  /** A transparent "cipher" that appends `ToyTag(key)` and checks it on the way back. */
  function ToyProvider(): Provider {
    Provider(
      (k: seq<byte>, iv: seq<byte>, d: seq<byte>) => Ok(d + ToyTag(k)),
      (k: seq<byte>, iv: seq<byte>, c: seq<byte>) =>
        if |c| >= 16 && c[|c| - 16..] == ToyTag(k) then Ok(c[..|c| - 16])
        else Err(ErrorObject("OperationError")),
      (pw: seq<byte>, s: seq<byte>, n: nat, h: string, bits: nat) => seq(bits / 8, i => 0),
      (s: string) => seq(|s|, i requires 0 <= i < |s| => (s[i] as int) % 256))
  }

  /** The toy provider meets every axiom, so `Sound` is not contradictory. */
  lemma ToyProviderSound()
    ensures Sound(ToyProvider())
  {
    var p := ToyProvider();
    forall k, iv, d | p.encrypt(k, iv, d).Ok?
      ensures |p.encrypt(k, iv, d).value| == |d| + TagLength / 8
      ensures p.decrypt(k, iv, p.encrypt(k, iv, d).value) == Ok(d)
    {
      var c := d + ToyTag(k);
      assert c[|c| - 16..] == ToyTag(k);
      assert c[..|c| - 16] == d;
    }
  }

  /** A stream whose byte at position n is n mod 256. */
  function CountingRng(): Rng {
    Rng(n => n % 256, 0)
  }

  /**
   * The counterexample: with the toy provider and the counting stream, the
   * key `CreateEncryptedBlob` returns for an empty file does not decrypt the
   * blob it returns.
   */
  lemma ReturnedKeyFails(file: File, at: string)
    ensures var e := CreateEncryptedBlob(ToyProvider(), CountingRng(), file, Ok([]), None, at).value;
      && e.Ok?
      && ImportKey(e.value.encryptionKey.value).Some?
      && DecryptBlob(ToyProvider(), Ok(e.value.blob.bytes), e.value.metadata,
                     ImportKey(e.value.encryptionKey.value).value).Err?
  {
    var p := ToyProvider();
    var g := CountingRng();
    var k := UsedKey(g, None).value;
    assert k.material[0] == 0;
    var e := EncryptFile(p, g, Ok([]), None);
    assert e.value.Ok?;
    var c := e.value.value.encryptedData;
    assert c == ToyTag(k.material);
    var second := GenerateKey(e.rng).value.keyData;
    assert second[0] == 60;
    var imported := ImportKey(second).value;
    assert imported.material == second;
    assert ToyTag(second)[0] == 60;
    assert c[|c| - 16..] != ToyTag(second) by {
      assert c[|c| - 16..][0] == c[0] == 0;
    }
    var m := BlobMetadata(e.value.value, file, at);
    assert p.decrypt(imported.material, FromNumbers(m.iv.GetOr([])), c).Err?;
  }

  // ---------------------------------------------------------------------
  // Password-based keys
  // ---------------------------------------------------------------------

  /** `deriveKeyFromPassword(password, salt)`: PBKDF2-SHA-256, 100000 iterations, a 256-bit key. */
  function DeriveKeyFromPassword(p: Provider, password: string, salt: seq<byte>): (k: CryptoKey)
    ensures k.algorithm == Algorithm && k.length == KeyLength
    ensures !k.extractable && k.usages == [Encrypt, Decrypt]
    ensures k.material == p.pbkdf2(p.utf8(password), salt, Pbkdf2Iterations, Pbkdf2Hash, KeyLength)
  {
    var bits := p.pbkdf2(p.utf8(password), salt, Pbkdf2Iterations, Pbkdf2Hash, KeyLength);
    CryptoKey(bits, Algorithm, KeyLength, false, [Encrypt, Decrypt])
  }

  /** The PBKDF2 password `generateUserKey` uses for a user. */
  function UserPassword(userId: string): (s: string)
    ensures EndsWith(s, "-encryption-key-material")
  {
    ConcatEnds(userId, "-encryption-key-material");
    userId + "-encryption-key-material"
  }

  /** The PBKDF2 salt text `generateUserKey` uses for a user. */
  function UserSalt(userId: string): (s: string)
    ensures StartsWith(s, "securedoc-") && EndsWith(s, "-encryption-salt-v1")
  {
    ConcatEnds("securedoc-", userId + "-encryption-salt-v1");
    ConcatEnds("securedoc-" + userId, "-encryption-salt-v1");
    assert "securedoc-" + userId + "-encryption-salt-v1" == "securedoc-" + (userId + "-encryption-salt-v1");
    "securedoc-" + userId + "-encryption-salt-v1"
  }

  /** `generateUserKey(userId)`: a deterministic, non-extractable key derived from the user id alone. */
  function GenerateUserKey(p: Provider, userId: string): (k: CryptoKey)
    ensures k.algorithm == Algorithm && k.length == KeyLength
    ensures !k.extractable && k.usages == [Encrypt, Decrypt]
  {
    var bits := p.pbkdf2(p.utf8(UserPassword(userId)), p.utf8(UserSalt(userId)),
                         Pbkdf2Iterations, Pbkdf2Hash, KeyLength);
    CryptoKey(bits, Algorithm, KeyLength, false, [Encrypt, Decrypt])
  }

  /** A user key is the password key of the user's password under the user's salt. */
  lemma UserKeyIsPasswordKey(p: Provider, userId: string)
    ensures GenerateUserKey(p, userId) == DeriveKeyFromPassword(p, UserPassword(userId), p.utf8(UserSalt(userId)))
  {
  }

  /** Under a sound provider a user key has 32 bytes. */
  lemma UserKeySize(p: Provider, userId: string)
    requires Sound(p)
    ensures |GenerateUserKey(p, userId).material| == 32
  {
  }

  /** Different users feed PBKDF2 different passwords and different salts. */
  lemma UserInputsDistinct(u1: string, u2: string)
    requires u1 != u2
    ensures UserPassword(u1) != UserPassword(u2)
    ensures UserSalt(u1) != UserSalt(u2)
  {
    if UserSalt(u1) == UserSalt(u2) {
      UserSaltMiddle(u1);
      UserSaltMiddle(u2);
      assert false;
    }
  }

  /** The user id sits right after the salt's fixed prefix. */
  lemma UserSaltMiddle(userId: string)
    ensures |UserSalt(userId)| == |userId| + 29
    ensures UserSalt(userId)[10..10 + |userId|] == userId
  {
  }

  /**
   * A document encrypted under a user's key decrypts under that user's key
   * derived again later: the derivation is deterministic.
   */
  lemma UserKeyRoundTrip(p: Provider, g: Rng, file: File, data: seq<byte>, userId: string, at: string)
    requires Sound(p)
    requires CreateEncryptedBlob(p, g, file, Ok(data), Some(GenerateUserKey(p, userId)), at).value.Ok?
    ensures var e := CreateEncryptedBlob(p, g, file, Ok(data), Some(GenerateUserKey(p, userId)), at).value.value;
      DecryptBlob(p, Ok(e.blob.bytes), e.metadata, GenerateUserKey(p, userId)) == Ok(Blob(data, RestoredType(file)))
  {
    BlobRoundTrip(p, g, file, data, Some(GenerateUserKey(p, userId)), at);
  }
}
