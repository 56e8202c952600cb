/**
 The credential vault: a keystream cipher over SHA-256 blocks, an HMAC tag, base64 fields, and a map of
 entries. The hash, the tag function and the JSON codec are parameters: nothing is used of the first two
 beyond the 32-byte digest, and of the codec only that it reads back what it wrote.
 */
module CredentialVault {
  import opened Wrappers
  import opened Base64

  type Bytes = seq<bv8>

  type Hash = h: Bytes -> Bytes | forall x :: |h(x)| == 32 witness (_ => seq(32, _ => 0))

  function Digest(hash: Hash, message: Bytes): (digest: Bytes)
    ensures |digest| == 32
  {
    hash(message)
  }

  const COUNTER_LIMIT: nat := 0x1_0000_0000_0000_0000

  /** `n.to_bytes(width, "big")`. */
  function BigEndian(n: nat, width: nat): Bytes
    decreases width
  {
    if width == 0 then [] else BigEndian(n / 256, width - 1) + [ByteOf(n % 256)]
  }

  function ByteOf(n: nat): bv8
    requires n < 256
  {
    if n == 0 then 0 else ByteOf(n - 1) + 1
  }

  // ------------------------------------------------------- the counter as bytes

  /** The number that bytes stand for, the first one being the highest. */
  function Number(bytes: Bytes): nat {
    if bytes == [] then 0 else 256 * Number(bytes[..|bytes| - 1]) + ByteValue(bytes[|bytes| - 1])
  }

  function ByteValue(b: bv8): nat { b as nat }

  function Power256(width: nat): nat {
    if width == 0 then 1 else 256 * Power256(width - 1)
  }

  lemma NextByte(b: bv8)
    requires b != 255
    ensures ByteValue(b + 1) == ByteValue(b) + 1
  {
  }

  lemma {:induction false} ByteOfIsByte(n: nat)
    requires n < 256
    ensures ByteValue(ByteOf(n)) == n
  {
    if n > 0 {
      ByteOfIsByte(n - 1);
      NextByte(ByteOf(n - 1));
    }
  }

  lemma SplitByte(n: nat, power: nat)
    requires n < 256 * power
    ensures n / 256 < power && 256 * (n / 256) + n % 256 == n
  {
  }

  /** The bytes have the width asked for and stand for the number, so different counters give different bytes. */
  lemma {:induction false} BigEndianIsNumber(n: nat, width: nat)
    requires n < Power256(width)
    ensures |BigEndian(n, width)| == width && Number(BigEndian(n, width)) == n
  {
    if width > 0 {
      SplitByte(n, Power256(width - 1));
      BigEndianIsNumber(n / 256, width - 1);
      ByteOfIsByte(n % 256);
    }
  }

  /** The limit is the first number that eight bytes do not hold. */
  lemma CounterLimitIs()
    ensures COUNTER_LIMIT == Power256(8) && CounterWidth() == 8
  {
    assert Power256(4) == 0x1_0000_0000;
    assert Power256(5) == 256 * 0x1_0000_0000;
    assert Power256(6) == 256 * 256 * 0x1_0000_0000;
    assert Power256(7) == 256 * 256 * 256 * 0x1_0000_0000;
  }

  /** The width of the block counter. */
  function CounterWidth(): nat { 8 }

  // ------------------------------------------------------- the keystream

  /** The stream's block for each counter value: the hash of the key and the eight-byte counter. */
  function BlockAt(hash: Hash, key: Bytes): (block: nat -> Bytes)
    ensures forall c: nat :: |block(c)| == 32
  {
    (c: nat) => Digest(hash, key + BigEndian(c, CounterWidth()))
  }

  /** Byte i of the stream. */
  function StreamByte(block: nat -> Bytes, i: nat): bv8
    requires forall c: nat :: |block(c)| == 32
  {
    block(i / 32)[i % 32]
  }

  function Crypt(hash: Hash, data: Bytes, key: Bytes): (r: Bytes)
    ensures |r| == |data|
  {
    seq(|data|, i requires 0 <= i < |data| => data[i] ^ StreamByte(BlockAt(hash, key), i))
  }

  /** The counter of the last block still fits its eight bytes. */
  predicate Fits(data: Bytes) { |data| <= 32 * COUNTER_LIMIT }

  /** The first n blocks, one after the other. */
  function Blocks<T>(block: nat -> seq<T>, n: nat): (r: seq<T>)
  {
    if n == 0 then [] else Blocks(block, n - 1) + block(n - 1)
  }

  lemma {:induction false} BlocksAt<T>(block: nat -> seq<T>, n: nat, i: nat)
    requires (forall c: nat :: |block(c)| == 32) && i < 32 * n
    ensures |Blocks(block, n)| == 32 * n
    ensures Blocks(block, n)[i] == block(i / 32)[i % 32]
  {
    if n == 1 {
      assert Blocks(block, 0) == [];
    } else {
      BlocksAt(block, n - 1, if i < 32 * (n - 1) then i else 0);
    }
    if i >= 32 * (n - 1) { LastBlock(n, i); }
  }

  lemma BlocksStep<T>(block: nat -> seq<T>, n: nat)
    ensures Blocks(block, n + 1) == Blocks(block, n) + block(n)
  {
  }

  lemma LastBlock(n: nat, i: nat)
    requires 32 * (n - 1) <= i < 32 * n
    ensures i / 32 == n - 1 && i % 32 == i - 32 * (n - 1)
  {
  }

  /** The loop of `_crypt`: the stream grows block by block; a counter beyond eight bytes raises. */
  method GrowStream(block: nat -> Bytes, length: nat) returns (output: Option<Bytes>, ghost counter: nat)
    requires forall c: nat :: |block(c)| == 32
    ensures output.Some? <==> length <= 32 * COUNTER_LIMIT
    ensures output.Some? ==> output.value == Blocks(block, counter) && length <= 32 * counter == |output.value|
  {
    var stream: Bytes := [];
    var n := 0;
    while |stream| < length
      invariant n <= COUNTER_LIMIT && |stream| == 32 * n
      invariant stream == Blocks(block, n)
      decreases length - |stream|
    {
      if n >= COUNTER_LIMIT {
        return None, n;
      }
      BlocksStep(block, n);
      stream := stream + block(n);
      n := n + 1;
    }
    return Some(stream), n;
  }

  /** `_crypt`. */
  method CryptBlocks(hash: Hash, data: Bytes, key: Bytes) returns (r: Option<Bytes>)
    ensures r == if Fits(data) then Some(Crypt(hash, data, key)) else None
  {
    ghost var counter;
    var output;
    output, counter := GrowStream(BlockAt(hash, key), |data|);
    if output.None? {
      return None;
    }
    XorWithBlocks(hash, key, counter, data);
    r := Some(Xor(data, output.value));
  }

  /** `value ^ stream for value, stream in zip(data, output)`. */
  function Xor(data: Bytes, output: Bytes): Bytes
    requires |data| <= |output|
  {
    seq(|data|, i requires 0 <= i < |data| => data[i] ^ output[i])
  }

  lemma XorWithBlocks(hash: Hash, key: Bytes, n: nat, data: Bytes)
    requires |data| <= 32 * n == |Blocks(BlockAt(hash, key), n)|
    ensures Xor(data, Blocks(BlockAt(hash, key), n)) == Crypt(hash, data, key)
  {
    forall i | 0 <= i < |data| ensures Blocks(BlockAt(hash, key), n)[i] == StreamByte(BlockAt(hash, key), i) {
      BlocksAt(BlockAt(hash, key), n, i);
    }
  }

  lemma XorTwice(a: bv8, b: bv8)
    ensures (a ^ b) ^ b == a
  {
  }

  /** The cipher is its own inverse, at every length. */
  lemma {:induction false} CryptInvertsItself(hash: Hash, data: Bytes, key: Bytes)
    ensures Crypt(hash, Crypt(hash, data, key), key) == data
  {
    forall i | 0 <= i < |data| ensures Crypt(hash, Crypt(hash, data, key), key)[i] == data[i] {
      XorTwice(data[i], StreamByte(BlockAt(hash, key), i));
    }
  }

  /** Byte i is combined with byte i mod 32 of the hash of the key and of the eight bytes of i div 32. */
  lemma CipherByte(hash: Hash, data: Bytes, key: Bytes, i: nat)
    requires i < |data|
    ensures |hash(key + BigEndian(i / 32, 8))| == 32
    ensures Crypt(hash, data, key)[i] == data[i] ^ hash(key + BigEndian(i / 32, 8))[i % 32]
  {
    assert BlockAt(hash, key)(i / 32) == Digest(hash, key + BigEndian(i / 32, CounterWidth()));
  }

  // ------------------------------------------------------- entries

  /** The primitives the vault is built from and its master key. */
  datatype Primitives<!V> = Primitives(
    hash: Hash, tag: (Bytes, Bytes) -> Bytes, dumps: V -> Bytes, loads: Bytes -> Option<V>, masterKey: Bytes)

  datatype Entry = Entry(nonce: Bytes, ciphertext: Bytes, tag: Bytes)

  datatype VaultError = NoCredentialId | TooLong | NotFound | Malformed | IntegrityFailed | DecryptionFailed

  ghost predicate ReadsBack<V(!new)>(p: Primitives<V>) {
    forall v :: p.loads(p.dumps(v)) == Some(v)
  }

  function DeriveKey<V>(p: Primitives<V>, nonce: Bytes): Bytes { Digest(p.hash, p.masterKey + nonce) }

  function Seal<V>(p: Primitives<V>, value: V, nonce: Bytes): Entry {
    var key := DeriveKey(p, nonce);
    var ciphertext := Crypt(p.hash, p.dumps(value), key);
    Entry(Encode(nonce), Encode(ciphertext), Encode(p.tag(key, nonce + ciphertext)))
  }

  function Open<V>(p: Primitives<V>, e: Entry): Result<V, VaultError> {
    var nonce, ciphertext, tag := Decode(e.nonce), Decode(e.ciphertext), Decode(e.tag);
    if nonce.None? || ciphertext.None? || tag.None? then Failure(Malformed)
    else
      var key := DeriveKey(p, nonce.value);
      if tag.value != p.tag(key, nonce.value + ciphertext.value) then Failure(IntegrityFailed)
      else if !Fits(ciphertext.value) then Failure(DecryptionFailed)
      else
        var value := p.loads(Crypt(p.hash, ciphertext.value, key));
        if value.None? then Failure(DecryptionFailed) else Success(value.value)
  }

  /** What was sealed opens again, whatever the nonce. */
  lemma {:induction false} OpenInvertsSeal<V(!new)>(p: Primitives<V>, value: V, nonce: Bytes)
    requires ReadsBack(p) && Fits(p.dumps(value))
    ensures Open(p, Seal(p, value, nonce)) == Success(value)
  {
    var key := DeriveKey(p, nonce);
    var ciphertext := Crypt(p.hash, p.dumps(value), key);
    DecodeInvertsEncode(nonce);
    DecodeInvertsEncode(ciphertext);
    DecodeInvertsEncode(p.tag(key, nonce + ciphertext));
    CryptInvertsItself(p.hash, p.dumps(value), key);
  }

  /**
   Any entry, tampered with or not: if a field is not base64 it is malformed; if the tag is not that of the nonce and
   the ciphertext, under the hash of the master key and the nonce, its integrity is lost; otherwise it is decrypted.
   */
  lemma OpenIff<V(!new)>(p: Primitives<V>, nonce: Bytes, ciphertext: Bytes, tag: Bytes)
    ensures
      var key := p.hash(p.masterKey + nonce);
      var r := Open(p, Entry(Encode(nonce), Encode(ciphertext), Encode(tag)));
      && (r == Failure(IntegrityFailed) <==> tag != p.tag(key, nonce + ciphertext))
      && (tag == p.tag(key, nonce + ciphertext) && |ciphertext| <= 32 * Power256(8) ==>
            match p.loads(Crypt(p.hash, ciphertext, key))
            case Some(v) => r == Success(v)
            case None => r == Failure(DecryptionFailed))
      && (tag == p.tag(key, nonce + ciphertext) && |ciphertext| > 32 * Power256(8) ==> r == Failure(DecryptionFailed))
  {
    CounterLimitIs();
    DecodeInvertsEncode(nonce);
    DecodeInvertsEncode(ciphertext);
    DecodeInvertsEncode(tag);
  }

  lemma MalformedIff<V(!new)>(p: Primitives<V>, e: Entry)
    ensures Open(p, e) == Failure(Malformed)
            <==> Decode(e.nonce).None? || Decode(e.ciphertext).None? || Decode(e.tag).None?
  {
  }

  /** Sealing writes the nonce, the ciphertext and its tag in base64, under the key derived from that nonce. */
  lemma SealIs<V(!new)>(p: Primitives<V>, value: V, nonce: Bytes)
    ensures
      var key := p.hash(p.masterKey + nonce);
      var ciphertext := Crypt(p.hash, p.dumps(value), key);
      Seal(p, value, nonce) == Entry(Encode(nonce), Encode(ciphertext), Encode(p.tag(key, nonce + ciphertext)))
  {
  }

  // ------------------------------------------------------- the vault

  type Document = map<Id, Entry>

  function StoreAnswer<V>(p: Primitives<V>, id: Id, value: V): Result<(), VaultError> {
    if id.text == "" then Failure(NoCredentialId)
    else if !Fits(p.dumps(value)) then Failure(TooLong)
    else Success(())
  }

  function AfterStore<V>(p: Primitives<V>, d: Document, id: Id, value: V, nonce: Bytes): Document {
    if StoreAnswer(p, id, value).Success? then d[id := Seal(p, value, nonce)] else d
  }

  function Retrieve<V>(p: Primitives<V>, d: Document, id: Id): Result<V, VaultError> {
    if id !in d then Failure(NotFound) else Open(p, d[id])
  }

  class CredentialVault<V> {
    const p: Primitives<V>
    var document: Document

    /** The source refuses a shorter master key. */
    constructor (p: Primitives<V>)
      requires |p.masterKey| >= 32
      ensures this.p == p && document == map[]
    {
      this.p := p;
      document := map[];
    }

    /** The nonce is drawn from the operating system. */
    method Store(id: Id, value: V, nonce: Bytes) returns (r: Result<(), VaultError>)
      modifies this
      ensures r == StoreAnswer(p, id, value)
      ensures r ==
        if id.text == "" then Failure(NoCredentialId)
        else if |p.dumps(value)| > 32 * COUNTER_LIMIT then Failure(TooLong)
        else Success(())
      ensures document == AfterStore(p, old(document), id, value, nonce)
    {
      if id.text == "" {
        return Failure(NoCredentialId);
      }
      var plaintext := p.dumps(value);
      var key := DeriveKey(p, nonce);
      var ciphertext := CryptBlocks(p.hash, plaintext, key);
      if ciphertext.None? {
        return Failure(TooLong);
      }
      var tag := p.tag(key, nonce + ciphertext.value);
      document := document[id := Entry(Encode(nonce), Encode(ciphertext.value), Encode(tag))];
      r := Success(());
    }

    method RetrieveCredential(id: Id) returns (r: Result<V, VaultError>)
      ensures r == Retrieve(p, document, id)
    {
      if id !in document {
        return Failure(NotFound);
      }
      var e := document[id];
      var nonce, ciphertext, tag := Decode(e.nonce), Decode(e.ciphertext), Decode(e.tag);
      if nonce.None? || ciphertext.None? || tag.None? {
        return Failure(Malformed);
      }
      var key := DeriveKey(p, nonce.value);
      if tag.value != p.tag(key, nonce.value + ciphertext.value) {
        return Failure(IntegrityFailed);
      }
      var plaintext := CryptBlocks(p.hash, ciphertext.value, key);
      if plaintext.None? {
        return Failure(DecryptionFailed);
      }
      var value := p.loads(plaintext.value);
      r := if value.None? then Failure(DecryptionFailed) else Success(value.value);
    }

    method Delete(id: Id) returns (r: Result<(), VaultError>)
      modifies this
      ensures r == if id in old(document) then Success(()) else Failure(NotFound)
      ensures document == old(document) - {id}
    {
      if id !in document {
        assert document - {id} == document;
        return Failure(NotFound);
      }
      document := document - {id};
      r := Success(());
    }
  }

  // ------------------------------------------------------- whole runs

  datatype Operation<V> = Store(id: Id, value: V, nonce: Bytes) | Delete(id: Id)

  function Run<V>(p: Primitives<V>, ops: seq<Operation<V>>): Document {
    if ops == [] then map[] else
      var before := Run(p, ops[..|ops| - 1]);
      match ops[|ops| - 1]
      case Store(id, value, nonce) => AfterStore(p, before, id, value, nonce)
      case Delete(id) => before - {id}
  }

  /** The reference: the value of the last accepted store under the id, unless a delete came after it. */
  function LastStored<V>(p: Primitives<V>, ops: seq<Operation<V>>, id: Id): Option<V> {
    if ops == [] then None else
      var op := ops[|ops| - 1];
      if op.id == id && op.Delete? then None
      else if op.id == id && id.text != "" && |p.dumps(op.value)| <= 32 * COUNTER_LIMIT then Some(op.value)
      else LastStored(p, ops[..|ops| - 1], id)
  }

  lemma {:induction false} EntryIsLastStored<V>(p: Primitives<V>, ops: seq<Operation<V>>, id: Id) returns (nonce: Bytes)
    ensures id in Run(p, ops) <==> LastStored(p, ops, id).Some?
    ensures id in Run(p, ops) ==>
              var v := LastStored(p, ops, id).value;
              Fits(p.dumps(v)) && Run(p, ops)[id] == Seal(p, v, nonce)
  {
    nonce := [];
    if ops != [] {
      var op := ops[|ops| - 1];
      nonce := EntryIsLastStored(p, ops[..|ops| - 1], id);
      if op.Store? && op.id == id && StoreAnswer(p, id, op.value).Success? {
        nonce := op.nonce;
      }
    }
  }

  /** After any run of stores and deletes, every id retrieves what was last stored under it, or is not found. */
  lemma {:induction false} RetrieveReturnsLastStored<V(!new)>(p: Primitives<V>, ops: seq<Operation<V>>, id: Id)
    requires ReadsBack(p)
    ensures Retrieve(p, Run(p, ops), id)
            == match LastStored(p, ops, id)
               case Some(v) => Success(v)
               case None => Failure(NotFound)
  {
    var nonce := EntryIsLastStored(p, ops, id);
    if id in Run(p, ops) {
      OpenInvertsSeal(p, LastStored(p, ops, id).value, nonce);
    }
  }
}
