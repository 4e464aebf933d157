/** The encrypted record layer over a reliable byte stream. Records are Noise transport messages
    (Noise Protocol Framework revision 34, sections 3 and 11.3): at most 65535 bytes, with the
    cipher rekeyed after a fixed number of records on both sides. */
module RecordLayer {
  import Spec

  type Byte = b: int | 0 <= b < 256

  function MaxMessage(): nat { 65535 }

  function TagSize(): nat { 16 }

  function MaxPlaintext(): nat { MaxMessage() - TagSize() }

  function RekeyInterval(): nat { 0x10_0000 }

  function MaxNonce(): nat { 0xFFFF_FFFF_FFFF_FFFF }

  /** An authenticated cipher, seen from outside: keys are numbered, `next` is the rekey function. */
  datatype Cipher = Cipher(
    seal: (nat, nat, seq<Byte>) -> seq<Byte>, open: (nat, nat, seq<Byte>) -> Spec.Option<seq<Byte>>, next: nat -> nat)

  /** Decrypting under the same key and nonce inverts encryption. */
  ghost predicate Sound(c: Cipher) {
    forall k, n, m :: |c.seal(k, n, m)| == |m| + TagSize() && c.open(k, n, c.seal(k, n, m)) == Spec.Some(m)
  }

  /** The key for record number `i`; both ends rekey after every full interval. */
  function KeyAt(c: Cipher, key: nat, i: nat): nat
    decreases i
  {
    if i == 0 then key
    else if i % RekeyInterval() == 0 then c.next(KeyAt(c, key, i - 1))
    else KeyAt(c, key, i - 1)
  }

  /** The key after so many rekeys. */
  function Rekeyed(c: Cipher, key: nat, times: nat): nat {
    if times == 0 then key else c.next(Rekeyed(c, key, times - 1))
  }

  /** A key seals 2^20 records and no more: record `i` is sealed after exactly i / 2^20 rekeys. */
  lemma {:induction false} KeysAreRekeyed(c: Cipher, key: nat, i: nat)
    ensures KeyAt(c, key, i) == Rekeyed(c, key, i / 0x10_0000)
    decreases i
  {
    if i > 0 {
      KeysAreRekeyed(c, key, i - 1);
      NextQuotient(i);
    }
  }

  /** On the wire record `i` is two bytes of length, the higher one first, and the plaintext sealed under the
      key of its block of 2^20 and the number `i`: no key ever seals two records under one number. */
  lemma {:induction false} FramesAreSealed(c: Cipher, key: nat, i: nat, m: seq<Byte>)
    requires Sound(c) && Record(m)
    ensures var f := Frame(c, key, i, m);
            && 2 <= |f| && f[0] as int * 256 + f[1] as int == |f| - 2 == |m| + 16
            && f[2..] == c.seal(Rekeyed(c, key, i / 0x10_0000), i, m)
  {
    KeysAreRekeyed(c, key, i);
    assert (|m| + TagSize()) / 256 * 256 + (|m| + TagSize()) % 256 == |m| + TagSize();
  }

  lemma NextQuotient(i: nat)
    requires i > 0
    ensures i / 0x10_0000 == if i % 0x10_0000 == 0 then (i - 1) / 0x10_0000 + 1 else (i - 1) / 0x10_0000
  {
  }

  function Header(size: nat): seq<Byte>
    requires size <= MaxMessage()
  {
    [size / 256, size % 256]
  }

  predicate Record(m: seq<Byte>) {
    0 < |m| <= MaxPlaintext()
  }

  function Sealed(c: Cipher, key: nat, i: nat, m: seq<Byte>): seq<Byte> {
    c.seal(KeyAt(c, key, i), i, m)
  }

  ghost function Frame(c: Cipher, key: nat, i: nat, m: seq<Byte>): seq<Byte>
    requires Sound(c) && Record(m)
  {
    Header(|m| + TagSize()) + Sealed(c, key, i, m)
  }

  predicate AllRecords(records: seq<seq<Byte>>) {
    forall i :: 0 <= i < |records| ==> Record(records[i])
  }

  /** The bytes on the wire for a sequence of records. */
  ghost function Wire(c: Cipher, key: nat, records: seq<seq<Byte>>): seq<Byte>
    requires Sound(c) && AllRecords(records)
    decreases |records|
  {
    if records == [] then []
    else Wire(c, key, records[..|records| - 1]) + Frame(c, key, |records| - 1, records[|records| - 1])
  }

  /** The plaintext of a sequence of records. */
  function Plain(records: seq<seq<Byte>>): seq<Byte>
    decreases |records|
  {
    if records == [] then [] else Plain(records[..|records| - 1]) + records[|records| - 1]
  }

  lemma {:induction false} PlainPrefix(records: seq<seq<Byte>>, k: nat)
    requires k <= |records|
    ensures Plain(records[..k]) <= Plain(records)
    decreases |records|
  {
    if k == |records| {
      assert records[..k] == records;
    } else {
      var front := records[..|records| - 1];
      assert front[..k] == records[..k];
      PlainPrefix(front, k);
    }
  }

  lemma {:induction false} WirePrefix(c: Cipher, key: nat, records: seq<seq<Byte>>, k: nat)
    requires Sound(c) && AllRecords(records) && k <= |records|
    ensures Wire(c, key, records[..k]) <= Wire(c, key, records)
    decreases |records|
  {
    hide Frame;
    if k == |records| {
      assert records[..k] == records;
    } else {
      var front := records[..|records| - 1];
      assert front[..k] == records[..k];
      WirePrefix(c, key, front, k);
    }
  }

  lemma {:induction false} WireNext(c: Cipher, key: nat, records: seq<seq<Byte>>, k: nat)
    requires Sound(c) && AllRecords(records) && k < |records|
    ensures Wire(c, key, records[..k + 1]) == Wire(c, key, records[..k]) + Frame(c, key, k, records[k])
  {
    assert records[..k + 1][..k] == records[..k];
  }

  // ---------------------------------------------------------------- the byte stream

  /** One direction of a reliable connection: bytes arrive in order, in pieces of any size. */
  class Pipe {
    var bytes: seq<Byte>
    var taken: nat

    constructor ()
      ensures bytes == [] && taken == 0
    {
      bytes, taken := [], 0;
    }

    /** Accepts some of the data, or fails after accepting some of it. */
    method Put(data: seq<Byte>) returns (n: nat, ok: bool)
      modifies this`bytes
      ensures n <= |data| && bytes == old(bytes) + data[..n]
    {
      var wanted: int := *;
      n := if 0 <= wanted <= |data| then wanted else |data|;
      ok := *;
      bytes := bytes + data[..n];
    }

    /** Gives some of the bytes that arrived, or fails. */
    method Take(max: nat) returns (data: seq<Byte>, ok: bool)
      requires taken <= |bytes|
      modifies this`taken
      ensures |data| <= max && old(taken) + |data| == taken <= |bytes|
      ensures data == bytes[old(taken)..taken]
    {
      var wanted: int := *;
      ok := *;
      var n := if 0 <= wanted <= max then wanted else max;
      n := if n <= |bytes| - taken then n else |bytes| - taken;
      data := bytes[taken..taken + n];
      taken := taken + n;
    }

    /** writeAll. */
    method WriteAll(data: seq<Byte>) returns (ok: bool)
      modifies this`bytes
      ensures exists n: nat :: n <= |data| && bytes == old(bytes) + data[..n]
      ensures ok ==> bytes == old(bytes) + data
    {
      var rest := data;
      ghost var done := 0;
      while |rest| != 0
        invariant done <= |data| && rest == data[done..] && bytes == old(bytes) + data[..done]
        decreases |rest|
      {
        var n, fine := Put(rest);
        assert data[..done] + data[done..][..n] == data[..done + n];
        done := done + n;
        if !fine || n == 0 {
          return false;
        }
        rest := rest[n..];
      }
      assert data[..done] == data;
      return true;
    }

    /** ReadFull. */
    method ReadFull(size: nat) returns (data: seq<Byte>, ok: bool)
      requires taken <= |bytes|
      modifies this`taken
      ensures old(taken) + |data| == taken <= |bytes| && data == bytes[old(taken)..taken]
      ensures ok ==> |data| == size
    {
      data := [];
      while |data| < size
        invariant |data| <= size && old(taken) + |data| == taken <= |bytes| && data == bytes[old(taken)..taken]
        decreases size - |data|
      {
        var more, fine := Take(size - |data|);
        data := data + more;
        if !fine || |more| == 0 {
          return data, false;
        }
      }
      return data, true;
    }
  }

  // ---------------------------------------------------------------- sending

  /** Write cuts the plaintext into records of the largest size. */
  function Chunks(m: seq<Byte>): (records: seq<seq<Byte>>)
    ensures AllRecords(records)
    decreases |m|
  {
    if m == [] then []
    else
      var size := if |m| > MaxPlaintext() then MaxPlaintext() else |m|;
      [m[..size]] + Chunks(m[size..])
  }

  /** All but the last have the largest size. */
  predicate Full(chunks: seq<seq<Byte>>) {
    && (forall i :: 0 <= i < |chunks| ==> 0 < |chunks[i]| <= 65535 - 16)
    && forall i :: 0 <= i < |chunks| - 1 ==> |chunks[i]| == 65535 - 16
  }

  /** Records are as large as a transport message can be, except for the last one. */
  lemma {:induction false} ChunksAreFull(m: seq<Byte>)
    ensures Full(Chunks(m))
    decreases |m|
  {
    if m != [] {
      var size := if |m| > MaxPlaintext() then MaxPlaintext() else |m|;
      ChunksAreFull(m[size..]);
      assert |m| <= MaxPlaintext() ==> m[size..] == [];
      NoChunks();
      OneChunkMore(m[..size], Chunks(m[size..]));
    }
  }

  lemma OneChunkMore(first: seq<Byte>, rest: seq<seq<Byte>>)
    requires Full(rest) && 0 < |first| <= 65535 - 16 && (rest != [] ==> |first| == 65535 - 16)
    ensures Full([first] + rest)
  {
  }

  lemma {:induction false} PlainAppend(a: seq<seq<Byte>>, b: seq<seq<Byte>>)
    ensures Plain(a + b) == Plain(a) + Plain(b)
    decreases |b|
  {
    if b == [] {
      assert a + b == a;
    } else {
      var front, last := b[..|b| - 1], b[|b| - 1];
      assert (a + b)[..|a + b| - 1] == a + front;
      PlainAppend(a, front);
    }
  }

  lemma {:induction false} ChunksKeepPlaintext(m: seq<Byte>)
    ensures Plain(Chunks(m)) == m
    decreases |m|
  {
    if m != [] {
      var size := if |m| > MaxPlaintext() then MaxPlaintext() else |m|;
      ChunksKeepPlaintext(m[size..]);
      PlainAppend([m[..size]], Chunks(m[size..]));
      assert [m[..size]][..0] == [];
      assert Plain([m[..size]]) == m[..size];
    }
  }

  class Sender {
    const cipher: Cipher
    const pipe: Pipe
    var key: nat
    var nonce: nat
    var sent: nat
    ghost const start: nat
    ghost var records: seq<seq<Byte>>

    /** The state of the cipher is a function of the number of records sent. */
    ghost predicate Synchronized()
      reads this
    {
      && Sound(cipher) && AllRecords(records)
      && sent == nonce == |records| && key == KeyAt(cipher, start, sent)
    }

    ghost predicate Valid()
      reads this, pipe
    {
      Synchronized() && pipe.bytes == Wire(cipher, start, records)
    }

    constructor (cipher: Cipher, key: nat, pipe: Pipe)
      requires Sound(cipher) && pipe.bytes == []
      ensures Valid() && records == [] && start == key && this.cipher == cipher && this.pipe == pipe
    {
      this.cipher, this.pipe, this.key, this.start := cipher, pipe, key, key;
      nonce, sent, records := 0, 0, [];
    }

    /** writeFrame. */
    method WriteFrame(message: seq<Byte>) returns (ok: bool)
      modifies pipe`bytes
      ensures old(pipe.bytes) <= pipe.bytes
      ensures 0 < |message| <= MaxMessage() ==> pipe.bytes <= old(pipe.bytes) + (Header(|message|) + message)
      ensures ok ==> 0 < |message| <= MaxMessage() && pipe.bytes == old(pipe.bytes) + (Header(|message|) + message)
    {
      if |message| == 0 || |message| > MaxMessage() {
        return false;
      }
      ok := pipe.WriteAll(Header(|message|));
      if ok {
        ok := pipe.WriteAll(message);
      }
    }

    /** One record: encrypt, frame, count, rekey when an interval is full. */
    method WriteRecord(chunk: seq<Byte>) returns (ok: bool)
      requires Valid() && Record(chunk)
      modifies this, pipe`bytes
      ensures AllRecords(old(records) + [chunk])
      ensures ok ==> Valid() && records == old(records) + [chunk] && |records| < 0x1_0000_0000_0000_0000
      ensures !ok ==> records == old(records) && AllRecords(records) && Sound(cipher)
                      && Wire(cipher, start, records) <= pipe.bytes <= Wire(cipher, start, old(records) + [chunk])
    {
      hide AllRecords, KeyAt, Wire;
      NextRecord(cipher, start, records, chunk);
      if nonce >= MaxNonce() {
        return false;
      }
      var ciphertext := cipher.seal(key, nonce, chunk);
      nonce := nonce + 1;
      ok := WriteFrame(ciphertext);
      if ok {
        sent := sent + 1;
        NextKey(cipher, start, sent);
        if sent % RekeyInterval() == 0 {
          key := cipher.next(key);
        }
        records := records + [chunk];
      }
    }

    /** Write: all of the plaintext as records, or, after an error, some of them and perhaps a part of
        the next one; `partial` is everything that may be on the wire. */
    method Write(plaintext: seq<Byte>) returns (written: nat, ok: bool, ghost partial: seq<seq<Byte>>)
      requires Valid()
      modifies this, pipe`bytes
      ensures Sound(cipher) && AllRecords(records) && AllRecords(partial) && written <= |plaintext|
      ensures old(records) <= records <= partial
      ensures Plain(records) == Plain(old(records)) + plaintext[..written]
      ensures Plain(partial) <= Plain(old(records)) + plaintext
      ensures Wire(cipher, start, records) <= pipe.bytes <= Wire(cipher, start, partial)
      ensures ok ==> Valid() && written == |plaintext| && partial == records == old(records) + Chunks(plaintext)
    {
      hide Sound, Frame, KeyAt, AllRecords, Wire, Record, Plain, Chunks;
      var rest := plaintext;
      written := 0;
      while |rest| != 0
        invariant written <= |plaintext| && rest == plaintext[written..]
        invariant Valid() && old(records) <= records
        invariant Plain(records) == Plain(old(records)) + plaintext[..written]
        invariant records + Chunks(rest) == old(records) + Chunks(plaintext)
        decreases |rest|
      {
        var size := if |rest| > MaxPlaintext() then MaxPlaintext() else |rest|;
        var chunk := rest[..size];
        ChunkIsRecord(chunk);
        FirstChunk(rest);
        ghost var before := records;
        OneMoreChunk(before, chunk, old(records), plaintext, written);
        var fine := WriteRecord(chunk);
        if !fine {
          return written, false, before + [chunk];
        }
        assert before + ([chunk] + Chunks(rest[size..])) == before + [chunk] + Chunks(rest[size..]);
        written := written + size;
        rest := rest[size..];
      }
      NoChunks();
      assert plaintext[..written] == plaintext && records + [] == records;
      return written, true, records;
    }
  }

  lemma {:induction false} FirstChunk(m: seq<Byte>)
    requires m != []
    ensures var size := if |m| > MaxPlaintext() then MaxPlaintext() else |m|;
            Chunks(m) == [m[..size]] + Chunks(m[size..])
  {
  }

  lemma NoChunks()
    ensures Chunks([]) == []
  {
  }

  lemma ChunkIsRecord(chunk: seq<Byte>)
    requires 0 < |chunk| <= MaxPlaintext()
    ensures Record(chunk)
  {
  }

  lemma {:induction false} OneMoreChunk(records: seq<seq<Byte>>, chunk: seq<Byte>, first: seq<seq<Byte>>, plaintext: seq<Byte>, written: nat)
    requires written + |chunk| <= |plaintext| && chunk == plaintext[written..written + |chunk|]
    requires Plain(records) == Plain(first) + plaintext[..written]
    ensures Plain(records + [chunk]) == Plain(first) + plaintext[..written + |chunk|]
    ensures Plain(records + [chunk]) <= Plain(first) + plaintext
  {
    assert (records + [chunk])[..|records|] == records;
    assert plaintext[..written] + chunk == plaintext[..written + |chunk|];
  }

  lemma {:induction false} NextRecord(c: Cipher, key: nat, records: seq<seq<Byte>>, chunk: seq<Byte>)
    requires Sound(c) && AllRecords(records) && Record(chunk)
    ensures AllRecords(records + [chunk])
    ensures Wire(c, key, records + [chunk]) == Wire(c, key, records) + Frame(c, key, |records|, chunk)
  {
    assert (records + [chunk])[..|records|] == records;
  }

  lemma {:induction false} NextKey(c: Cipher, key: nat, i: nat)
    requires i > 0
    ensures KeyAt(c, key, i) == if i % RekeyInterval() == 0 then c.next(KeyAt(c, key, i - 1)) else KeyAt(c, key, i - 1)
  {
  }

  // ---------------------------------------------------------------- receiving

  class Receiver {
    const cipher: Cipher
    const pipe: Pipe
    var key: nat
    var nonce: nat
    var received: nat
    var buffer: seq<Byte>
    ghost const start: nat
    ghost var delivered: seq<Byte>

    /** `records` is everything the other end ever sealed. Record by record the two ends are in the
        same cipher state, and what was handed out plus what is buffered is what was decrypted. */
    ghost predicate Valid(records: seq<seq<Byte>>)
      reads this, pipe
    {
      && Sound(cipher) && AllRecords(records)
      && received == nonce <= |records| && key == KeyAt(cipher, start, received)
      && pipe.taken == |Wire(cipher, start, records[..received])| <= |pipe.bytes|
      && pipe.bytes <= Wire(cipher, start, records)
      && delivered + buffer == Plain(records[..received])
    }

    constructor (cipher: Cipher, key: nat, pipe: Pipe, ghost records: seq<seq<Byte>>)
      requires Sound(cipher) && AllRecords(records) && pipe.taken == 0 && pipe.bytes <= Wire(cipher, key, records)
      ensures Valid(records) && delivered == [] && start == key && this.cipher == cipher && this.pipe == pipe
    {
      this.cipher, this.pipe, this.key, this.start := cipher, pipe, key, key;
      nonce, received, buffer, delivered := 0, 0, [], [];
      assert records[..0] == [];
    }

    /** readFrame: the next frame, if all of it arrives. */
    method ReadFrame(ghost records: seq<seq<Byte>>) returns (message: seq<Byte>, ok: bool)
      requires Valid(records)
      modifies pipe`taken
      ensures ok ==> received < |records| && message == Sealed(cipher, start, received, records[received])
      ensures ok ==> pipe.taken == |Wire(cipher, start, records[..received + 1])| <= |pipe.bytes|
    {
      hide KeyAt, AllRecords, Sealed, Wire, Plain, Sound;
      var header;
      header, ok := pipe.ReadFull(2);
      if !ok {
        return [], false;
      }
      NextFrame(cipher, start, records, received, pipe.bytes, 2);
      var size := header[0] as int * 256 + header[1] as int;
      if size == 0 || size > MaxMessage() {
        return [], false;
      }
      message, ok := pipe.ReadFull(size);
      if !ok {
        return [], false;
      }
      NextFrame(cipher, start, records, received, pipe.bytes, 2 + size);
    }

    /** Read: at least one and at most `size` bytes, which continue what was delivered before. */
    method Read(size: nat, ghost records: seq<seq<Byte>>) returns (data: seq<Byte>, ok: bool)
      requires Valid(records)
      modifies this, pipe`taken
      ensures ok ==> Valid(records) && delivered == old(delivered) + data && delivered <= Plain(records)
      ensures ok ==> |data| <= size && (size > 0 ==> |data| > 0)
      ensures !ok ==> delivered == old(delivered)
    {
      hide KeyAt, AllRecords, Frame, Wire, Plain, Sound;
      PlainPrefix(records, received);
      if size == 0 {
        return [], true;
      }
      if |buffer| == 0 {
        ok := Refill(records);
        if !ok {
          return [], false;
        }
      }
      var copied := if size < |buffer| then size else |buffer|;
      data := buffer[..copied];
      assert data + buffer[copied..] == buffer;
      delivered := delivered + data;
      buffer := buffer[copied..];
      PlainPrefix(records, received);
      return data, true;
    }

    /** Decrypts the next record into the empty buffer, and rekeys when an interval is full. */
    method Refill(ghost records: seq<seq<Byte>>) returns (ok: bool)
      requires Valid(records) && buffer == []
      modifies this`key, this`nonce, this`received, this`buffer, pipe`taken
      ensures ok ==> Valid(records) && |buffer| > 0
    {
      hide KeyAt, AllRecords, Frame, Wire, Plain, Sound, Sealed;
      var ciphertext;
      ciphertext, ok := ReadFrame(records);
      if !ok {
        return false;
      }
      var plaintext := cipher.open(key, nonce, ciphertext);
      Opened(cipher, start, records, received);
      if plaintext.None? {
        return false;
      }
      nonce := nonce + 1;
      received := received + 1;
      NextKey(cipher, start, received);
      if received % RekeyInterval() == 0 {
        key := cipher.next(key);
      }
      buffer := plaintext.value;
      PlainNext(records, received - 1);
      return true;
    }
  }

  /** Reading on from the end of a frame, the next bytes are those of the next one. */
  lemma {:induction false} NextFrame(c: Cipher, key: nat, records: seq<seq<Byte>>, k: nat, bytes: seq<Byte>, n: nat)
    requires Sound(c) && AllRecords(records) && k <= |records| && bytes <= Wire(c, key, records)
    requires 0 < n && |Wire(c, key, records[..k])| + n <= |bytes|
    ensures k < |records| && Record(records[k])
    ensures var from, frame := |Wire(c, key, records[..k])|, Frame(c, key, k, records[k]);
            && |Wire(c, key, records[..k + 1])| == from + |frame|
            && (n <= |frame| ==> bytes[from..from + n] == frame[..n])
            && frame[0] as int * 256 + frame[1] as int == |frame| - 2
            && frame[2..] == Sealed(c, key, k, records[k])
  {
    hide KeyAt;
    assert records[..|records|] == records;
    WireNext(c, key, records, k);
    WirePrefix(c, key, records, k + 1);
  }

  lemma {:induction false} Opened(c: Cipher, key: nat, records: seq<seq<Byte>>, k: nat)
    requires Sound(c) && AllRecords(records) && k < |records|
    ensures c.open(KeyAt(c, key, k), k, Sealed(c, key, k, records[k])) == Spec.Some(records[k])
    ensures |records[k]| > 0
  {
    assert Record(records[k]);
  }

  lemma PlainNext(records: seq<seq<Byte>>, k: nat)
    requires k < |records|
    ensures Plain(records[..k + 1]) == Plain(records[..k]) + records[k]
  {
    assert records[..k + 1][..k] == records[..k];
  }

  // ---------------------------------------------------------------- whole conversations

  datatype Op = WriteOp(plaintext: seq<Byte>) | ReadOp(size: nat)

  /** Any sequence of writes at one end and reads at the other: the bytes read are an in-order prefix of
      the bytes handed to Write. Either end gives up after its own first error and the other goes on:
      what a failed write left on the wire is still read, and no more than that. */
  method Converse(cipher: Cipher, key: nat, ops: seq<Op>) returns (written: seq<Byte>, got: seq<Byte>)
    requires Sound(cipher)
    ensures got <= written
  {
    hide Sound, AllRecords, Wire, Plain, KeyAt;
    var pipe := new Pipe();
    var sender := new Sender(cipher, key, pipe);
    NoRecords(cipher, key);
    var receiver := new Receiver(cipher, key, pipe, []);
    written, got := [], [];
    var writing, reading := true, true;
    ghost var sent: seq<seq<Byte>> := [];
    for i := 0 to |ops|
      invariant fresh(pipe) && fresh(sender) && fresh(receiver)
      invariant sender.pipe == receiver.pipe == pipe && sender.cipher == receiver.cipher == cipher
      invariant sender.start == receiver.start == key
      invariant writing ==> sender.Valid() && sender.records == sent && Plain(sent) == written
      invariant reading ==> receiver.Valid(sent) && receiver.delivered == got
      invariant Plain(sent) <= written && got <= written
    {
      match ops[i]
      case WriteOp(plaintext) =>
        if writing {
          ghost var before := sent;
          var n, ok, partial := sender.Write(plaintext);
          written := written + plaintext;
          assert ok ==> plaintext[..n] == plaintext;
          writing, sent := ok, partial;
          if reading {
            LaterRecords(cipher, key, before, sender.records, receiver.received);
            LaterRecords(cipher, key, before, sent, receiver.received);
          }
        }
      case ReadOp(size) =>
        if reading {
          var data, ok := receiver.Read(size, sent);
          if ok {
            got := got + data;
            PrefixOfPrefix(got, Plain(sent), written);
          }
          reading := ok;
        }
    }
  }

  lemma PrefixOfPrefix(a: seq<Byte>, b: seq<Byte>, c: seq<Byte>)
    requires a <= b <= c
    ensures a <= c
  {
    assert c[..|b|] == b;
  }

  lemma {:induction false} NoRecords(c: Cipher, key: nat)
    requires Sound(c)
    ensures AllRecords([]) && Wire(c, key, []) == [] && Plain([]) == []
  {
  }

  /** Records sent later leave the ones before them where they are. */
  lemma {:induction false} LaterRecords(c: Cipher, key: nat, records: seq<seq<Byte>>, next: seq<seq<Byte>>, k: nat)
    requires Sound(c) && AllRecords(records) && AllRecords(next) && records <= next && k <= |records|
    ensures next[..k] == records[..k]
    ensures Wire(c, key, records) <= Wire(c, key, next)
  {
    assert next[..|records|] == records;
    WirePrefix(c, key, next, |records|);
  }
}
