/** The transport codec after the Noise handshake: a message is cut into chunks, each
    chunk sealed under the next nonce, the sealed chunks joined and framed with a
    length prefix. The receiver undoes this from whatever pieces the stream comes in. */
module NoiseCodec {
  import opened Basics

  type Byte = b: int | 0 <= b < 256
  type Bytes = seq<Byte>

  const MaxMessageLen: nat := 65535
  const TagLen: nat := 16
  const PlainLen: nat := MaxMessageLen - TagLen

  // ---------------------------------------------------------------- the cipher

  datatype Cipher = Cipher(seal: (nat, Bytes) -> Bytes, open: (nat, Bytes) -> Option<Bytes>)

  /** Opening undoes sealing under the same nonce, and a seal adds its tag. */
  ghost predicate Lawful(c: Cipher) {
    forall n: nat, m: Bytes :: |c.seal(n, m)| == |m| + TagLen && c.open(n, c.seal(n, m)) == Some(m)
  }

  function Padding(): (z: Bytes)
    ensures |z| == TagLen
  {
    seq(TagLen, i => 0)
  }

  ghost function PlainCipher(): Cipher {
    Cipher((n: nat, m: Bytes) => m + Padding(),
           (n: nat, x: Bytes) => if |x| < TagLen then None else Some(x[..|x| - TagLen]))
  }

  lemma PlainIsLawful()
    ensures Lawful(PlainCipher())
  {
    var c := PlainCipher();
    forall n: nat, m: Bytes
      ensures |c.seal(n, m)| == |m| + TagLen && c.open(n, c.seal(n, m)) == Some(m)
    {
      assert (m + Padding())[..|m|] == m;
    }
  }

  ghost function SomeAead(): (c: Cipher)
    ensures Lawful(c)
  {
    PlainIsLawful();
    PlainCipher()
  }

  type Aead = c: Cipher | Lawful(c) ghost witness SomeAead()

  // ---------------------------------------------------------------- chunks

  function Chunks(s: Bytes, size: nat): seq<Bytes>
    requires size > 0
    decreases |s|
  {
    if s == [] then []
    else if |s| <= size then [s]
    else [s[..size]] + Chunks(s[size..], size)
  }

  function Flatten(cs: seq<Bytes>): Bytes {
    if cs == [] then [] else cs[0] + Flatten(cs[1..])
  }

  /** Full pieces, except that the last one may be shorter but not empty. */
  ghost predicate Packed(cs: seq<Bytes>, size: nat) {
    forall i :: 0 <= i < |cs| ==> 0 < |cs[i]| <= size && (i < |cs| - 1 ==> |cs[i]| == size)
  }

  lemma {:induction false} ChunksPacked(s: Bytes, size: nat)
    requires size > 0
    ensures Packed(Chunks(s, size), size) && Flatten(Chunks(s, size)) == s
    decreases |s|
  {
    if |s| > size {
      ChunksPacked(s[size..], size);
      var cs := Chunks(s, size);
      assert cs[1..] == Chunks(s[size..], size);
      assert s == s[..size] + s[size..];
    } else if s != [] {
      assert Flatten([s]) == s + Flatten([s][1..]);
    }
  }

  /** Cutting a joined sequence of packed pieces gives the pieces back. */
  lemma {:induction false} ChunksOfFlatten(cs: seq<Bytes>, size: nat)
    requires size > 0 && Packed(cs, size)
    ensures Chunks(Flatten(cs), size) == cs
    decreases |cs|
  {
    if cs != [] {
      var rest := cs[1..];
      assert forall i :: 0 <= i < |rest| ==> rest[i] == cs[i + 1];
      ChunksOfFlatten(rest, size);
      if rest == [] {
        assert Flatten(cs) == cs[0];
      } else {
        assert 0 < |rest[0]| <= |Flatten(rest)|;
        var s := Flatten(cs);
        assert s[..size] == cs[0] && s[size..] == Flatten(rest);
      }
    }
  }

  // ---------------------------------------------------------------- sealing

  function SealAll(c: Cipher, nonce: nat, cs: seq<Bytes>): seq<Bytes>
    decreases |cs|
  {
    if cs == [] then [] else [c.seal(nonce, cs[0])] + SealAll(c, nonce + 1, cs[1..])
  }

  /** Stops at the first piece that does not open; tells how many did. */
  function OpenAll(c: Cipher, nonce: nat, cs: seq<Bytes>): (Option<Bytes>, nat)
    decreases |cs|
  {
    if cs == [] then (Some([]), nonce)
    else
      match c.open(nonce, cs[0])
      case None => (None, nonce)
      case Some(m) =>
        var (rest, last) := OpenAll(c, nonce + 1, cs[1..]);
        (JoinTo(m, rest), last)
  }

  function JoinTo(m: Bytes, rest: Option<Bytes>): Option<Bytes> {
    if rest.Some? then Some(m + rest.value) else None
  }

  lemma JoinNothing(rest: Option<Bytes>)
    ensures JoinTo([], rest) == rest
  {
    assert rest.Some? ==> [] + rest.value == rest.value;
  }

  lemma JoinAssoc(a: Bytes, b: Bytes, rest: Option<Bytes>)
    ensures JoinTo(a, JoinTo(b, rest)) == JoinTo(a + b, rest)
  {
    if rest.Some? {
      ConcatAssoc(a, b, rest.value);
    }
  }

  lemma {:induction false} OpenUndoesSeal(c: Aead, nonce: nat, cs: seq<Bytes>)
    ensures OpenAll(c, nonce, SealAll(c, nonce, cs)) == (Some(Flatten(cs)), nonce + |cs|)
    decreases |cs|
  {
    if cs != [] {
      OpenUndoesSeal(c, nonce + 1, cs[1..]);
      assert SealAll(c, nonce, cs)[1..] == SealAll(c, nonce + 1, cs[1..]);
    }
  }

  lemma {:induction false} SealPacks(c: Aead, nonce: nat, cs: seq<Bytes>)
    requires Packed(cs, PlainLen)
    ensures Packed(SealAll(c, nonce, cs), MaxMessageLen) && |SealAll(c, nonce, cs)| == |cs|
    ensures |Flatten(SealAll(c, nonce, cs))| == |Flatten(cs)| + TagLen * |cs|
    decreases |cs|
  {
    if cs != [] {
      assert forall i :: 0 <= i < |cs[1..]| ==> cs[1..][i] == cs[i + 1];
      SealPacks(c, nonce + 1, cs[1..]);
      assert SealAll(c, nonce, cs)[1..] == SealAll(c, nonce + 1, cs[1..]);
    }
  }

  function Encrypt(c: Cipher, nonce: nat, msg: Bytes): Bytes {
    Flatten(SealAll(c, nonce, Chunks(msg, PlainLen)))
  }

  function Decrypt(c: Cipher, nonce: nat, body: Bytes): (Option<Bytes>, nat) {
    OpenAll(c, nonce, Chunks(body, MaxMessageLen))
  }

  function ChunkCount(msg: Bytes): nat {
    |Chunks(msg, PlainLen)|
  }

  /** The receiver's cuts at 65535 fall exactly between the sender's sealed chunks. */
  lemma DecryptUndoesEncrypt(c: Aead, nonce: nat, msg: Bytes)
    ensures Decrypt(c, nonce, Encrypt(c, nonce, msg)) == (Some(msg), nonce + ChunkCount(msg))
    ensures |Encrypt(c, nonce, msg)| == |msg| + TagLen * ChunkCount(msg)
  {
    var cs := Chunks(msg, PlainLen);
    ChunksPacked(msg, PlainLen);
    SealPacks(c, nonce, cs);
    ChunksOfFlatten(SealAll(c, nonce, cs), MaxMessageLen);
    OpenUndoesSeal(c, nonce, cs);
  }

  // ---------------------------------------------------------------- frames

  function Pow256(n: nat): (r: nat)
    ensures r > 0
  {
    if n == 0 then 1 else 256 * Pow256(n - 1)
  }

  /** Big-endian, in exactly `len` bytes. */
  function ToBytes(n: nat, len: nat): (r: Bytes)
    ensures |r| == len
    decreases len
  {
    if len == 0 then [] else ToBytes(n / 256, len - 1) + [n % 256]
  }

  function FromBytes(s: Bytes): nat {
    if s == [] then 0 else FromBytes(DropLast(s)) * 256 + Last(s)
  }

  lemma {:induction false} FromToBytes(n: nat, len: nat)
    requires n < Pow256(len)
    ensures FromBytes(ToBytes(n, len)) == n
    decreases len
  {
    if len > 0 {
      FromToBytes(n / 256, len - 1);
      var r := ToBytes(n, len);
      assert DropLast(r) == ToBytes(n / 256, len - 1) && Last(r) == n % 256;
    }
  }

  /** A number without its `k` lowest bytes. */
  function Shifted(n: nat, k: nat): nat
    decreases k
  {
    if k == 0 then n else Shifted(n / 256, k - 1)
  }

  /** Byte by byte: the most significant comes first. */
  lemma {:induction false} BytesAre(n: nat, len: nat, k: nat)
    requires k < len
    ensures ToBytes(n, len)[k] == Shifted(n, len - 1 - k) % 256
    decreases len
  {
    if k < len - 1 {
      BytesAre(n / 256, len - 1, k);
    }
  }

  /** How a connection frames: the width of the length prefix and the largest body. */
  datatype Framing = Framing(prefix: nat, limit: nat) {
    /** The limit is cut down to what the prefix can say. */
    function MaxBody(): nat {
      if limit < Pow256(prefix) then limit else Pow256(prefix) - 1
    }
  }

  function SealedLen(msg: Bytes): nat {
    |msg| + TagLen * ChunkCount(msg)
  }

  predicate Fits(f: Framing, msg: Bytes) {
    SealedLen(msg) <= f.MaxBody()
  }

  /** What the node uses: two bytes of length, bodies up to 65535. */
  const NodeFraming: Framing := Framing(2, 65535)

  /** So only single-chunk messages of at most 65519 bytes go out. */
  lemma NodeFits(msg: Bytes)
    ensures Fits(NodeFraming, msg) <==> |msg| <= 65519
  {
    assert Pow256(2) == 65536 by {
      assert Pow256(1) == 256 * Pow256(0);
    }
    ChunksPacked(msg, PlainLen);
    if |msg| > PlainLen {
      assert Chunks(msg, PlainLen) == [msg[..PlainLen]] + Chunks(msg[PlainLen..], PlainLen);
      assert ChunkCount(msg) >= 1;
    } else if msg != [] {
      assert Chunks(msg, PlainLen) == [msg];
    }
  }

  function Frame(f: Framing, body: Bytes): Bytes {
    ToBytes(|body|, f.prefix) + body
  }

  // ---------------------------------------------------------------- sender

  /** The two bytes a node puts in front of a body: high byte, then low byte. */
  lemma NodePrefix(body: Bytes)
    requires |body| <= NodeFraming.MaxBody()
    ensures var frame := Frame(NodeFraming, body);
            |frame| == 2 + |body| && frame[0] == |body| / 256 && frame[1] == |body| % 256 && frame[2..] == body
  {
    assert Shifted(|body|, 1) == Shifted(|body| / 256, 0) && Pow256(2) == 65536;
    BytesAre(|body|, 2, 0);
    BytesAre(|body|, 2, 1);
  }

  /** Nonces move on for every chunk, framed or not; a message that does not fit
      leaves no bytes. */
  function Send(c: Cipher, f: Framing, nonce: nat, msg: Bytes): (Bytes, nat) {
    (if Fits(f, msg) then Frame(f, Encrypt(c, nonce, msg)) else [], nonce + ChunkCount(msg))
  }

  function SendAll(c: Cipher, f: Framing, nonce: nat, msgs: seq<Bytes>): (Bytes, nat)
    decreases |msgs|
  {
    if msgs == [] then ([], nonce)
    else
      var (bytes, next) := Send(c, f, nonce, msgs[0]);
      var (rest, last) := SendAll(c, f, next, msgs[1..]);
      (bytes + rest, last)
  }

  // ---------------------------------------------------------------- receiver

  /** `expecting` is the body length once the prefix has been read. */
  datatype Reader = Reader(nonce: nat, expecting: Option<nat>, buffer: Bytes, failed: bool)

  /** Read the prefix when it is there; a length over the limit is an error. */
  function ReadHead(f: Framing, r: Reader): Reader {
    if r.failed || r.expecting.Some? || |r.buffer| < f.prefix then r
    else
      var n := FromBytes(r.buffer[..f.prefix]);
      if n > f.MaxBody() then r.(failed := true)
      else r.(expecting := Some(n), buffer := r.buffer[f.prefix..])
  }

  predicate BodyReady(r: Reader) {
    !r.failed && r.expecting.Some? && |r.buffer| >= r.expecting.value
  }

  /** Take one complete body off the buffer and decrypt it. */
  function ReadBody(c: Cipher, r: Reader): (Reader, Option<Bytes>)
    requires BodyReady(r)
  {
    var n := r.expecting.value;
    var (msg, nonce) := Decrypt(c, r.nonce, r.buffer[..n]);
    (Reader(nonce, None, r.buffer[n..], msg.None?), msg)
  }

  /** One call of the decoder: a message, or nothing yet, or a failure. */
  function Decode(c: Cipher, f: Framing, r: Reader): (Reader, Option<Bytes>) {
    var h := ReadHead(f, r);
    if BodyReady(h) then ReadBody(c, h) else (h, None)
  }

  /** A frame that says it is longer than allowed is refused, and so is everything after. */
  lemma TooLongIsRefused(c: Cipher, f: Framing, r: Reader, more: Bytes)
    requires f.prefix > 0 && !r.failed && r.expecting.None? && |r.buffer| >= f.prefix
    requires FromBytes(r.buffer[..f.prefix]) > f.limit || FromBytes(r.buffer[..f.prefix]) >= Pow256(f.prefix)
    ensures Decode(c, f, r) == (r.(failed := true), None)
    ensures Receive(c, f, Decode(c, f, r).0, more).1 == []
  {
  }

  function Work(r: Reader): nat {
    2 * |r.buffer| + if r.expecting.Some? then 1 else 0
  }

  lemma DecodeWorks(c: Cipher, f: Framing, r: Reader)
    requires f.prefix > 0 && Decode(c, f, r).1.Some?
    ensures Work(Decode(c, f, r).0) < Work(r)
  {
  }

  /** Decode for as long as there are complete frames. */
  function Drain(c: Cipher, f: Framing, r: Reader): (Reader, seq<Bytes>)
    requires f.prefix > 0
    decreases Work(r)
  {
    var (next, msg) := Decode(c, f, r);
    if msg.None? then (next, [])
    else
      DecodeWorks(c, f, r);
      var (last, msgs) := Drain(c, f, next);
      (last, [msg.value] + msgs)
  }

  function Plus(r: Reader, bytes: Bytes): Reader {
    r.(buffer := r.buffer + bytes)
  }

  /** More bytes arrive. */
  function Receive(c: Cipher, f: Framing, r: Reader, bytes: Bytes): (Reader, seq<Bytes>)
    requires f.prefix > 0
  {
    Drain(c, f, Plus(r, bytes))
  }

  function ReceiveAll(c: Cipher, f: Framing, r: Reader, pieces: seq<Bytes>): (Reader, seq<Bytes>)
    requires f.prefix > 0
    decreases |pieces|
  {
    if pieces == [] then (r, [])
    else
      var (next, msgs) := Receive(c, f, r, pieces[0]);
      var (last, rest) := ReceiveAll(c, f, next, pieces[1..]);
      (last, msgs + rest)
  }

  // ---------------------------------------------------------------- arrival in pieces

  /** Bytes that come later do not change what is decoded now. */
  lemma DecodeEarly(c: Cipher, f: Framing, r: Reader, more: Bytes)
    requires f.prefix > 0 && Decode(c, f, r).1.Some?
    ensures Decode(c, f, Plus(r, more)) == (Plus(Decode(c, f, r).0, more), Decode(c, f, r).1)
  {
    var h := ReadHead(f, r);
    HeadEarly(f, r, more);
    var n := h.expecting.value;
    assert (h.buffer + more)[..n] == h.buffer[..n];
    assert (h.buffer + more)[n..] == h.buffer[n..] + more;
  }

  lemma HeadEarly(f: Framing, r: Reader, more: Bytes)
    requires r.failed || r.expecting.Some? || |r.buffer| >= f.prefix
    ensures ReadHead(f, Plus(r, more)) == Plus(ReadHead(f, r), more)
  {
    if |r.buffer| >= f.prefix {
      assert (r.buffer + more)[..f.prefix] == r.buffer[..f.prefix];
      assert (r.buffer + more)[f.prefix..] == r.buffer[f.prefix..] + more;
    }
  }

  /** Nothing is lost by having tried too early. */
  lemma DecodeLater(c: Cipher, f: Framing, r: Reader, more: Bytes)
    requires f.prefix > 0 && Decode(c, f, r).1.None?
    ensures Decode(c, f, Plus(r, more)) == Decode(c, f, Plus(Decode(c, f, r).0, more))
  {
    var h := ReadHead(f, r);
    if r.failed || r.expecting.Some? || |r.buffer| >= f.prefix {
      HeadEarly(f, r, more);
      if BodyReady(h) {
        var n := h.expecting.value;
        assert (h.buffer + more)[..n] == h.buffer[..n];
        assert (h.buffer + more)[n..] == h.buffer[n..] + more;
      }
    }
  }

  lemma {:induction false} DrainMore(c: Cipher, f: Framing, r: Reader, more: Bytes)
    requires f.prefix > 0
    ensures var (r1, ms1) := Drain(c, f, r);
            var (r2, ms2) := Drain(c, f, Plus(r1, more));
            Drain(c, f, Plus(r, more)) == (r2, ms1 + ms2)
    decreases Work(r)
  {
    var (next, msg) := Decode(c, f, r);
    if msg.None? {
      DecodeLater(c, f, r, more);
      DrainUnfolds(c, f, Plus(r, more), Plus(next, more));
      assert [] + Drain(c, f, Plus(next, more)).1 == Drain(c, f, Plus(next, more)).1;
    } else {
      DecodeWorks(c, f, r);
      DecodeEarly(c, f, r, more);
      DrainMore(c, f, next, more);
      var (r1, ms1) := Drain(c, f, next);
      ConcatAssoc([msg.value], ms1, Drain(c, f, Plus(r1, more)).1);
    }
  }

  lemma DrainUnfolds(c: Cipher, f: Framing, a: Reader, b: Reader)
    requires f.prefix > 0 && Decode(c, f, a) == Decode(c, f, b)
    ensures Drain(c, f, a) == Drain(c, f, b)
  {
  }

  /** A drained reader has nothing left to do. */
  lemma DrainedIsIdle(c: Cipher, f: Framing, r: Reader)
    requires f.prefix > 0
    ensures Drain(c, f, Drain(c, f, r).0) == (Drain(c, f, r).0, [])
  {
    DrainMore(c, f, r, []);
    var (r1, ms1) := Drain(c, f, r);
    assert Plus(r, []) == r && Plus(r1, []) == r1;
    var (r2, ms2) := Drain(c, f, r1);
    assert ms1 == ms1 + ms2;
    assert |ms2| == 0;
  }

  /** However the stream is cut up, the result is that of receiving it whole. */
  lemma {:induction false} PiecesDoNotMatter(c: Cipher, f: Framing, r: Reader, pieces: seq<Bytes>)
    requires f.prefix > 0 && Drain(c, f, r) == (r, [])
    ensures ReceiveAll(c, f, r, pieces) == Receive(c, f, r, Flatten(pieces))
    decreases |pieces|
  {
    if pieces == [] {
      assert Plus(r, []) == r;
    } else {
      var rest := Flatten(pieces[1..]);
      var (next, msgs) := Receive(c, f, r, pieces[0]);
      DrainedIsIdle(c, f, Plus(r, pieces[0]));
      PiecesDoNotMatter(c, f, next, pieces[1..]);
      DrainMore(c, f, Plus(r, pieces[0]), rest);
      assert Plus(Plus(r, pieces[0]), rest) == Plus(r, Flatten(pieces)) by {
        ConcatAssoc(r.buffer, pieces[0], rest);
      }
    }
  }

  // ---------------------------------------------------------------- round trip

  ghost predicate AllFit(f: Framing, msgs: seq<Bytes>) {
    forall i :: 0 <= i < |msgs| ==> Fits(f, msgs[i])
  }

  /** A reader takes off the first frame and opens its body under its own nonce. */
  lemma DecodeBody(c: Cipher, f: Framing, nonce: nat, body: Bytes, rest: Bytes)
    requires f.prefix > 0 && |body| <= f.MaxBody()
    ensures var (msg, next) := Decrypt(c, nonce, body);
            Decode(c, f, Reader(nonce, None, Frame(f, body) + rest, false)) == (Reader(next, None, rest, msg.None?), msg)
  {
    FromToBytes(|body|, f.prefix);
    var s := Frame(f, body) + rest;
    assert s[..f.prefix] == ToBytes(|body|, f.prefix);
    assert s[f.prefix..] == body + rest;
    assert (body + rest)[..|body|] == body && (body + rest)[|body|..] == rest;
  }

  lemma DecodeFrame(c: Aead, f: Framing, nonce: nat, msg: Bytes, rest: Bytes)
    requires f.prefix > 0 && Fits(f, msg)
    ensures Decode(c, f, Reader(nonce, None, Frame(f, Encrypt(c, nonce, msg)) + rest, false))
         == (Reader(nonce + ChunkCount(msg), None, rest, false), Some(msg))
  {
    DecryptUndoesEncrypt(c, nonce, msg);
    DecodeBody(c, f, nonce, Encrypt(c, nonce, msg), rest);
  }

  /** A fresh reader given all that a sender with the same nonce writes. */
  ghost function Trip(c: Cipher, f: Framing, nonce: nat, msgs: seq<Bytes>): (Reader, seq<Bytes>)
    requires f.prefix > 0
  {
    Drain(c, f, Reader(nonce, None, SendAll(c, f, nonce, msgs).0, false))
  }

  /** The first frame comes off and the rest of the stream is left. */
  lemma TripStep(c: Aead, f: Framing, nonce: nat, msgs: seq<Bytes>)
    requires f.prefix > 0 && msgs != [] && Fits(f, msgs[0])
    ensures var (last, rest) := Trip(c, f, nonce + ChunkCount(msgs[0]), msgs[1..]);
            Trip(c, f, nonce, msgs) == (last, [msgs[0]] + rest)
    ensures SendAll(c, f, nonce, msgs).1 == SendAll(c, f, nonce + ChunkCount(msgs[0]), msgs[1..]).1
  {
    DecodeFrame(c, f, nonce, msgs[0], SendAll(c, f, nonce + ChunkCount(msgs[0]), msgs[1..]).0);
  }

  /** The trip delivers exactly the messages and leaves the reader at the sender's nonce. */
  ghost predicate ComesBack(c: Cipher, f: Framing, nonce: nat, msgs: seq<Bytes>)
    requires f.prefix > 0
  {
    Trip(c, f, nonce, msgs) == (Reader(SendAll(c, f, nonce, msgs).1, None, [], false), msgs)
  }

  lemma ComesBackStep(c: Aead, f: Framing, nonce: nat, msgs: seq<Bytes>)
    requires f.prefix > 0 && msgs != [] && Fits(f, msgs[0])
    requires ComesBack(c, f, nonce + ChunkCount(msgs[0]), msgs[1..])
    ensures ComesBack(c, f, nonce, msgs)
  {
    TripStep(c, f, nonce, msgs);
    assert [msgs[0]] + msgs[1..] == msgs;
  }

  lemma {:induction false} WholeStream(c: Aead, f: Framing, nonce: nat, msgs: seq<Bytes>)
    requires f.prefix > 0 && AllFit(f, msgs)
    ensures ComesBack(c, f, nonce, msgs)
    decreases |msgs|
  {
    if msgs != [] {
      AllFitTail(f, msgs);
      WholeStream(c, f, nonce + ChunkCount(msgs[0]), msgs[1..]);
      ComesBackStep(c, f, nonce, msgs);
    }
  }

  lemma AllFitTail(f: Framing, msgs: seq<Bytes>)
    requires msgs != []
    ensures AllFit(f, msgs) <==> Fits(f, msgs[0]) && AllFit(f, msgs[1..])
  {
    assert forall i :: 0 <= i < |msgs[1..]| ==> msgs[1..][i] == msgs[i + 1];
    assert forall i :: 0 < i < |msgs| ==> msgs[i] == msgs[1..][i - 1];
  }

  /** Codec round trip: for any messages that fit, any framing and any way the stream
      is cut up on arrival, the receiver gets exactly the messages, in order, keeps no
      bytes and stands at the sender's nonce. */
  lemma CodecRoundTrip(c: Aead, f: Framing, nonce: nat, msgs: seq<Bytes>, pieces: seq<Bytes>)
    requires f.prefix > 0 && AllFit(f, msgs) && Flatten(pieces) == SendAll(c, f, nonce, msgs).0
    ensures ReceiveAll(c, f, Reader(nonce, None, [], false), pieces)
         == (Reader(SendAll(c, f, nonce, msgs).1, None, [], false), msgs)
  {
    var r := Reader(nonce, None, [], false);
    assert Drain(c, f, r) == (r, []);
    PiecesDoNotMatter(c, f, r, pieces);
    assert [] + Flatten(pieces) == Flatten(pieces);
    WholeStream(c, f, nonce, msgs);
  }

  // ---------------------------------------------------------------- staying in step

  /** Chunks that actually went out. */
  function WrittenChunks(f: Framing, msgs: seq<Bytes>): nat {
    if msgs == [] then 0
    else (if Fits(f, msgs[0]) then ChunkCount(msgs[0]) else 0) + WrittenChunks(f, msgs[1..])
  }

  /** A message that does not fit still uses up nonces of the sender. */
  lemma {:induction false} SenderRunsAhead(c: Cipher, f: Framing, nonce: nat, msgs: seq<Bytes>)
    ensures SendAll(c, f, nonce, msgs).1 >= nonce + WrittenChunks(f, msgs)
    ensures SendAll(c, f, nonce, msgs).1 == nonce + WrittenChunks(f, msgs) <==> AllFit(f, msgs)
    decreases |msgs|
  {
    if msgs != [] {
      SenderRunsAhead(c, f, nonce + ChunkCount(msgs[0]), msgs[1..]);
      AllFitTail(f, msgs);
    }
  }

  lemma {:induction false} OpenAllBound(c: Cipher, nonce: nat, cs: seq<Bytes>)
    ensures OpenAll(c, nonce, cs).1 <= nonce + |cs|
    decreases |cs|
  {
    if cs != [] {
      OpenAllBound(c, nonce + 1, cs[1..]);
    }
  }

  /** Whatever nonce the receiver stands at, a body moves it on by at most the chunks
      that were sealed into it. */
  lemma DecryptBound(c: Aead, nonce: nat, msg: Bytes, at: nat)
    ensures Decrypt(c, at, Encrypt(c, nonce, msg)).1 <= at + ChunkCount(msg)
  {
    var cs := Chunks(msg, PlainLen);
    ChunksPacked(msg, PlainLen);
    SealPacks(c, nonce, cs);
    ChunksOfFlatten(SealAll(c, nonce, cs), MaxMessageLen);
    OpenAllBound(c, at, SealAll(c, nonce, cs));
  }

  /** A receiver at any nonce ends at most as many nonces further as chunks were
      written, whether or not they open. */
  lemma {:induction false} ReceiverBound(c: Aead, f: Framing, nonce: nat, msgs: seq<Bytes>, at: nat)
    requires f.prefix > 0
    ensures Drain(c, f, Reader(at, None, SendAll(c, f, nonce, msgs).0, false)).0.nonce <= at + WrittenChunks(f, msgs)
    decreases |msgs|
  {
    if msgs != [] {
      var next := nonce + ChunkCount(msgs[0]);
      var rest := SendAll(c, f, next, msgs[1..]).0;
      if Fits(f, msgs[0]) {
        var body := Encrypt(c, nonce, msgs[0]);
        DecryptUndoesEncrypt(c, nonce, msgs[0]);
        DecodeBody(c, f, at, body, rest);
        DecryptBound(c, nonce, msgs[0], at);
        ReceiverBound(c, f, next, msgs[1..], Decrypt(c, at, body).1);
      } else {
        assert [] + rest == rest;
        ReceiverBound(c, f, next, msgs[1..], at);
      }
    }
  }

  /** Sender and receiver end at the same nonce exactly when every message fits, however
      the stream is cut up on arrival. */
  lemma InStepIffAllFit(c: Aead, f: Framing, nonce: nat, msgs: seq<Bytes>, pieces: seq<Bytes>)
    requires f.prefix > 0 && Flatten(pieces) == SendAll(c, f, nonce, msgs).0
    ensures ReceiveAll(c, f, Reader(nonce, None, [], false), pieces).0.nonce == SendAll(c, f, nonce, msgs).1
       <==> AllFit(f, msgs)
  {
    var r := Reader(nonce, None, [], false);
    PiecesDoNotMatter(c, f, r, pieces);
    assert [] + Flatten(pieces) == Flatten(pieces);
    ReceiverBound(c, f, nonce, msgs, nonce);
    SenderRunsAhead(c, f, nonce, msgs);
    if AllFit(f, msgs) {
      WholeStream(c, f, nonce, msgs);
    }
  }

  // ---------------------------------------------------------------- the codec object

  /** One end of a connection. `sealedWith` records every nonce handed to the cipher. */
  class Codec {
    const cipher: Aead
    const framing: Framing
    var txNonce: nat
    var rxNonce: nat
    var expecting: Option<nat>
    var carryover: Bytes
    ghost var sealedWith: seq<nat>

    /** The i-th seal uses nonce i: none is ever used twice. */
    ghost predicate Valid()
      reads this
    {
      framing.prefix > 0 && |sealedWith| == txNonce && forall i :: 0 <= i < txNonce ==> sealedWith[i] == i
    }

    constructor (cipher: Aead, framing: Framing, carryover: Bytes)
      requires framing.prefix > 0
      ensures Valid() && txNonce == 0 && rxNonce == 0 && expecting == None
      ensures this.cipher == cipher && this.framing == framing && this.carryover == carryover
    {
      this.cipher := cipher;
      this.framing := framing;
      this.carryover := carryover;
      txNonce, rxNonce, expecting := 0, 0, None;
      sealedWith := [];
    }

    method SealChunks(msg: Bytes) returns (encrypted: Bytes)
      requires Valid()
      modifies this`txNonce, this`sealedWith
      ensures Valid() && txNonce == old(txNonce) + ChunkCount(msg)
      ensures encrypted == Encrypt(cipher, old(txNonce), msg)
    {
      encrypted := [];
      var i := 0;
      assert msg[0..] == msg;
      while i < |msg|
        invariant 0 <= i <= |msg| && Valid()
        invariant Encrypt(cipher, old(txNonce), msg) == encrypted + Encrypt(cipher, txNonce, msg[i..])
        invariant old(txNonce) + ChunkCount(msg) == txNonce + ChunkCount(msg[i..])
      {
        var j := if i + PlainLen < |msg| then i + PlainLen else |msg|;
        SealFirst(cipher, txNonce, msg[i..], j - i);
        assert msg[i..][..j - i] == msg[i..j] && msg[i..][j - i..] == msg[j..];
        var sealed := cipher.seal(txNonce, msg[i..j]);
        ConcatAssoc(encrypted, sealed, Encrypt(cipher, txNonce + 1, msg[j..]));
        sealedWith := sealedWith + [txNonce];
        txNonce := txNonce + 1;
        encrypted := encrypted + sealed;
        i := j;
      }
      assert msg[i..] == [];
    }

    /** Seal chunk by chunk, then frame, if the result is not too long. */
    method Encode(msg: Bytes, dst: Bytes) returns (ok: bool, out: Bytes)
      requires Valid()
      modifies this`txNonce, this`sealedWith
      ensures Valid() && (ok <==> Fits(framing, msg))
      ensures var (bytes, next) := Send(cipher, framing, old(txNonce), msg);
              out == dst + bytes && txNonce == next
    {
      var encrypted := SealChunks(msg);
      DecryptUndoesEncrypt(cipher, old(txNonce), msg);
      if |encrypted| > framing.MaxBody() {
        return false, dst;
      }
      return true, dst + Frame(framing, encrypted);
    }

    /** One decoding step on what has arrived so far. */
    method DecodeNext(src: Bytes) returns (result: Result<Option<Bytes>, string>, rest: Bytes)
      requires Valid()
      modifies this`rxNonce, this`expecting, this`carryover
      ensures carryover == []
      ensures var (r, msg) := Decode(cipher, framing, Reader(old(rxNonce), old(expecting), old(carryover) + src, false));
              && rest == r.buffer && expecting == r.expecting && rxNonce == r.nonce
              && (if r.failed then result.Err? else result == Ok(msg))
    {
      rest := carryover + src;
      carryover := [];
      if expecting.None? {
        if |rest| < framing.prefix {
          return Ok(None), rest;
        }
        var n := FromBytes(rest[..framing.prefix]);
        if n > framing.MaxBody() {
          return Err("frame too long"), rest;
        }
        expecting := Some(n);
        rest := rest[framing.prefix..];
      }
      if |rest| < expecting.value {
        return Ok(None), rest;
      }
      var body := rest[..expecting.value];
      rest := rest[expecting.value..];
      expecting := None;
      var msg := OpenChunks(body);
      if msg.None? {
        return Err("invalid data"), rest;
      }
      return Ok(msg), rest;
    }

    method OpenChunks(body: Bytes) returns (msg: Option<Bytes>)
      modifies this`rxNonce
      ensures (msg, rxNonce) == Decrypt(cipher, old(rxNonce), body)
    {
      var decrypted: Bytes := [];
      var i := 0;
      assert body[0..] == body;
      JoinNothing(Decrypt(cipher, rxNonce, body).0);
      while i < |body|
        invariant 0 <= i <= |body|
        invariant var (rest, last) := Decrypt(cipher, rxNonce, body[i..]);
                  Decrypt(cipher, old(rxNonce), body)
                  == (JoinTo(decrypted, rest), last)
      {
        var j := if i + MaxMessageLen < |body| then i + MaxMessageLen else |body|;
        OpenFirst(cipher, rxNonce, body[i..], j - i);
        assert body[i..][..j - i] == body[i..j] && body[i..][j - i..] == body[j..];
        var plain := cipher.open(rxNonce, body[i..j]);
        if plain.None? {
          return None;
        }
        JoinAssoc(decrypted, plain.value, Decrypt(cipher, rxNonce + 1, body[j..]).0);
        rxNonce := rxNonce + 1;
        decrypted := decrypted + plain.value;
        i := j;
      }
      assert body[i..] == [] && decrypted + [] == decrypted;
      return Some(decrypted);
    }
  }

  lemma SealFirst(c: Cipher, nonce: nat, s: Bytes, n: nat)
    requires s != [] && n == (if |s| > PlainLen then PlainLen else |s|)
    ensures Encrypt(c, nonce, s) == c.seal(nonce, s[..n]) + Encrypt(c, nonce + 1, s[n..])
    ensures ChunkCount(s) == 1 + ChunkCount(s[n..])
  {
    FirstChunk(s, PlainLen, n);
    var cs := Chunks(s, PlainLen);
    assert SealAll(c, nonce, cs)[1..] == SealAll(c, nonce + 1, cs[1..]);
  }

  lemma OpenFirst(c: Cipher, nonce: nat, s: Bytes, n: nat)
    requires s != [] && n == (if |s| > MaxMessageLen then MaxMessageLen else |s|)
    ensures match c.open(nonce, s[..n])
            case None => Decrypt(c, nonce, s) == (None, nonce)
            case Some(m) =>
              var (rest, last) := Decrypt(c, nonce + 1, s[n..]);
              Decrypt(c, nonce, s) == (JoinTo(m, rest), last)
  {
    FirstChunk(s, MaxMessageLen, n);
  }

  lemma FirstChunk(s: Bytes, size: nat, n: nat)
    requires size > 0 && s != [] && n == (if |s| > size then size else |s|)
    ensures Chunks(s, size) != [] && Chunks(s, size)[0] == s[..n] && Chunks(s, size)[1..] == Chunks(s[n..], size)
  {
    if |s| <= size {
      assert s[..n] == s && s[n..] == [];
    }
  }
}
