/**
 The encrypted tunnel between nodes (src/network/tunnel.rs): commands are cut
 into chunks, each made a message of the Noise Protocol Framework and framed by
 its length. In transport mode a message is sealed under the next nonce; before
 that it is a message of the handshake. The cipher, the handshake and the
 command codec are parameters.
 */
module TunnelFraming {
  import opened Words
  import opened Wrappers

  const CHUNK := 65_000
  /** The authentication tag and the message limit of the Noise Protocol Framework, sections 4.2 and 3. */
  const TAG := 16
  const MAX_MESSAGE := 65_535
  /** The nonce value that section 5.1 of the Noise Protocol Framework keeps out of use. */
  const RESERVED_NONCE := U64 - 1
  const REKEY_AFTER := 1_000_000_000

  type Key = Bytes

  /** The state of a handshake under way. */
  type Noise = Bytes

  /**
   Authenticated encryption under a key and a nonce, and one message of a
   handshake, which may be refused and leaves the handshake in another state.
   */
  datatype Cipher = Cipher(seal: (Key, u64, Bytes) -> Bytes, open: (Key, u64, Bytes) -> Option<Bytes>,
                           write: (Noise, Bytes) -> (Option<Bytes>, Noise),
                           read: (Noise, Bytes) -> (Option<Bytes>, Noise))
  {
    ghost predicate Correct() {
      forall k, n, p :: |seal(k, n, p)| == |p| + TAG && open(k, n, seal(k, n, p)) == Some(p)
    }
  }

  datatype TunnelError = NoiseError | BincodeError | IoError | RekeyRequired

  datatype Transport = Transport(sendKey: Key, sendNonce: u64, receiveKey: Key, receiveNonce: u64)

  // ---------------------------------------------------------------------
  // Frame lengths
  // ---------------------------------------------------------------------

  function ToBigEndian(x: u32): (b: Bytes)
    ensures |b| == 4
  {
    [x / 0x100_0000, x / 0x1_0000 % 0x100, x / 0x100 % 0x100, x % 0x100]
  }

  function FromBigEndian(b: Bytes): u32
    requires |b| == 4
  {
    0x100_0000 * (b[0] as int) + 0x1_0000 * (b[1] as int) + 0x100 * (b[2] as int) + b[3]
  }

  lemma BigEndianRoundTrip(x: u32)
    ensures FromBigEndian(ToBigEndian(x)) == x && ToBigEndian(0x0102_0304) == [1, 2, 3, 4]
  {
    assert x / 0x1_0000 == x / 0x100 / 0x100 && x / 0x100_0000 == x / 0x1_0000 / 0x100;
  }

  // ---------------------------------------------------------------------
  // One message
  // ---------------------------------------------------------------------

  function WriteMessage(c: Cipher, key: Key, nonce: u64, plain: Bytes): Result<Bytes, TunnelError> {
    if |plain| + TAG > MAX_MESSAGE || nonce == RESERVED_NONCE then Err(NoiseError) else Ok(c.seal(key, nonce, plain))
  }

  function ReadMessage(c: Cipher, key: Key, nonce: u64, sealed: Bytes): Result<Bytes, TunnelError> {
    if |sealed| > MAX_MESSAGE || |sealed| < TAG || nonce == RESERVED_NONCE then Err(NoiseError)
    else match c.open(key, nonce, sealed) case Some(plain) => Ok(plain) case None => Err(NoiseError)
  }

  // ---------------------------------------------------------------------
  // Whole payloads
  // ---------------------------------------------------------------------

  /** A result and the nonce or state that comes next: a failure keeps what is already used up. */
  datatype Progress<S> = Progress(result: Result<Bytes, TunnelError>, next: S)

  function Prepend<S>(head: Bytes, p: Progress<S>): Progress<S> {
    match p.result
    case Ok(tail) => p.(result := Ok(head + tail))
    case Err(_) => p
  }

  function FirstChunk(payload: Bytes): nat {
    if |payload| < CHUNK then |payload| else CHUNK
  }

  function FrameLength(len: nat): u32 {
    if len < U32 then len else len % U32
  }

  function Frame(sealed: Bytes): Bytes {
    ToBigEndian(FrameLength(|sealed|)) + sealed
  }

  /** How many chunks a payload of this size is cut into. */
  function Chunks(len: nat): nat {
    if len == 0 then 0 else 1 + Chunks(if len < CHUNK then 0 else len - CHUNK)
  }

  lemma {:induction false} ChunkCount(len: nat)
    ensures Chunks(len) == (len + CHUNK - 1) / CHUNK
  {
    if len >= CHUNK {
      ChunkCount(len - CHUNK);
    }
  }

  /** Enough nonces left for a payload of this size. */
  predicate Fresh(nonce: u64, len: nat) {
    nonce + Chunks(len) <= RESERVED_NONCE
  }

  function Encrypted(c: Cipher, key: Key, nonce: u64, payload: Bytes): (p: Progress<u64>)
    ensures Fresh(nonce, |payload|) ==> p.result.Ok? && p.next == nonce + Chunks(|payload|)
    decreases |payload|
  {
    if payload == [] then Progress(Ok([]), nonce)
    else
      var n := FirstChunk(payload);
      match WriteMessage(c, key, nonce, payload[..n])
      case Err(e) => Progress(Err(e), nonce)
      case Ok(sealed) => Prepend(Frame(sealed), Encrypted(c, key, nonce + 1, payload[n..]))
  }

  function Decrypted(c: Cipher, key: Key, nonce: u64, wire: Bytes): Progress<u64>
    decreases |wire|
  {
    if wire == [] then Progress(Ok([]), nonce)
    else if |wire| < 4 then Progress(Err(IoError), nonce)
    else
      var n := FromBigEndian(wire[..4]);
      if |wire| < 4 + n then Progress(Err(IoError), nonce)
      else match ReadMessage(c, key, nonce, wire[4..4 + n])
        case Err(e) => Progress(Err(e), nonce)
        case Ok(plain) => Prepend(plain, Decrypted(c, key, nonce + 1, wire[4 + n..]))
  }

  /** What a sealed chunk looks like on the wire, and that its frame reads back as it. */
  lemma FrameReads(c: Cipher, key: Key, nonce: u64, chunk: Bytes, rest: Bytes)
    requires c.Correct() && |chunk| <= CHUNK && nonce < RESERVED_NONCE
    ensures |c.seal(key, nonce, chunk)| == |chunk| + TAG <= 65_016
    ensures |Frame(c.seal(key, nonce, chunk))| == |chunk| + 20
    ensures Decrypted(c, key, nonce, Frame(c.seal(key, nonce, chunk)) + rest)
         == Prepend(chunk, Decrypted(c, key, nonce + 1, rest))
  {
    var sealed := c.seal(key, nonce, chunk);
    var wire := Frame(sealed) + rest;
    BigEndianRoundTrip(|sealed|);
    assert wire[..4] == ToBigEndian(|sealed|);
    assert wire[4..4 + |sealed|] == sealed;
    assert wire[4 + |sealed|..] == rest;
  }

  /** The bytes on the wire, when encryption does not run out of nonces. */
  function Wire(c: Cipher, key: Key, nonce: u64, payload: Bytes): Bytes
    requires Fresh(nonce, |payload|)
  {
    Encrypted(c, key, nonce, payload).result.value
  }

  lemma WireUnfolds(c: Cipher, key: Key, nonce: u64, payload: Bytes)
    requires payload != [] && Fresh(nonce, |payload|)
    ensures Chunks(|payload|) == 1 + Chunks(|payload[FirstChunk(payload)..]|)
    ensures Wire(c, key, nonce, payload)
         == Frame(c.seal(key, nonce, payload[..FirstChunk(payload)]))
          + Wire(c, key, nonce + 1, payload[FirstChunk(payload)..])
  {
  }

  lemma {:induction false} WireLength(c: Cipher, key: Key, nonce: u64, payload: Bytes)
    requires c.Correct() && Fresh(nonce, |payload|)
    ensures |Wire(c, key, nonce, payload)| == |payload| + 20 * Chunks(|payload|)
    decreases |payload|
  {
    if payload != [] {
      WireUnfolds(c, key, nonce, payload);
      WireLength(c, key, nonce + 1, payload[FirstChunk(payload)..]);
      FrameReads(c, key, nonce, payload[..FirstChunk(payload)], []);
    }
  }

  /** Encryption succeeds while nonces last; decryption under the same nonce undoes it and uses as many. */
  lemma PayloadRoundTrip(c: Cipher, key: Key, nonce: u64, payload: Bytes)
    requires c.Correct() && Fresh(nonce, |payload|)
    ensures Encrypted(c, key, nonce, payload) == Progress(Ok(Wire(c, key, nonce, payload)), nonce + Chunks(|payload|))
    ensures Decrypted(c, key, nonce, Wire(c, key, nonce, payload)) == Progress(Ok(payload), nonce + Chunks(|payload|))
  {
    DecryptionUndoes(c, key, nonce, payload);
  }

  lemma {:induction false} DecryptionUndoes(c: Cipher, key: Key, nonce: u64, payload: Bytes)
    requires c.Correct() && Fresh(nonce, |payload|)
    ensures Decrypted(c, key, nonce, Wire(c, key, nonce, payload)) == Progress(Ok(payload), nonce + Chunks(|payload|))
    decreases |payload|
  {
    if payload != [] {
      ChunksUnfold(nonce, payload);
      DecryptionUndoes(c, key, nonce + 1, payload[FirstChunk(payload)..]);
      OneFrameRoundTrip(c, key, nonce, payload);
    }
  }

  lemma ChunksUnfold(nonce: u64, payload: Bytes)
    requires payload != [] && Fresh(nonce, |payload|)
    ensures Chunks(|payload|) == 1 + Chunks(|payload[FirstChunk(payload)..]|)
    ensures nonce < RESERVED_NONCE && Fresh(nonce + 1, |payload[FirstChunk(payload)..]|)
  {
  }

  lemma OneFrameRoundTrip(c: Cipher, key: Key, nonce: u64, payload: Bytes)
    requires c.Correct() && payload != [] && Fresh(nonce, |payload|)
    requires nonce < RESERVED_NONCE && Fresh(nonce + 1, |payload[FirstChunk(payload)..]|)
    requires var rest := payload[FirstChunk(payload)..];
             Decrypted(c, key, nonce + 1, Wire(c, key, nonce + 1, rest))
             == Progress(Ok(rest), nonce + 1 + Chunks(|rest|))
    ensures Decrypted(c, key, nonce, Wire(c, key, nonce, payload)) == Progress(Ok(payload), nonce + Chunks(|payload|))
  {
    var n := FirstChunk(payload);
    ChunksUnfold(nonce, payload);
    WireUnfolds(c, key, nonce, payload);
    FrameReads(c, key, nonce, payload[..n], Wire(c, key, nonce + 1, payload[n..]));
    assert payload == payload[..n] + payload[n..];
  }

  /** Every chunk of up to 65000 bytes costs 20 more, so the buffer reserved up front is never outgrown. */
  lemma FitsReservedCapacity(c: Cipher, key: Key, nonce: u64, payload: Bytes)
    requires c.Correct() && Fresh(nonce, |payload|)
    ensures |Wire(c, key, nonce, payload)| == |payload| + 20 * ((|payload| + 64_999) / 65_000)
    ensures |Wire(c, key, nonce, payload)| <= |payload| + (|payload| / 65_000 + 1) * 20
  {
    WireLength(c, key, nonce, payload);
    ChunkCount(|payload|);
    ChunksAtMost(|payload|);
  }

  lemma ChunksAtMost(len: nat)
    ensures Chunks(len) <= len / CHUNK + 1
  {
    ChunkCount(len);
  }

  /** Every message handed to the cipher seals to at most 65016 bytes, so within the Noise limit. */
  lemma CiphertextBound(c: Cipher, key: Key, nonce: u64, payload: Bytes, i: nat)
    requires c.Correct() && i < Chunks(|payload|)
    ensures var from := i * CHUNK;
            var to := if from + CHUNK <= |payload| then from + CHUNK else |payload|;
            from < to && |c.seal(key, nonce, payload[from..to])| <= 65_016 <= MAX_MESSAGE
  {
    ChunkCount(|payload|);
  }

  // ---------------------------------------------------------------------
  // Cut payloads
  // ---------------------------------------------------------------------

  const FULL_FRAME := CHUNK + 20

  predicate FrameEnd(wire: Bytes, cut: nat) {
    cut % FULL_FRAME == 0 || cut == |wire|
  }

  function WholeChunks(payload: Bytes, wire: Bytes, cut: nat): Bytes {
    if cut == |wire| || cut / FULL_FRAME * CHUNK > |payload| then payload else payload[..cut / FULL_FRAME * CHUNK]
  }

  function CutResult(payload: Bytes, wire: Bytes, cut: nat): Result<Bytes, TunnelError> {
    if FrameEnd(wire, cut) then Ok(WholeChunks(payload, wire, cut)) else Err(IoError)
  }

  /** The framing accepts a prefix exactly when it ends between two frames, and then returns whole chunks. */
  lemma {:induction false} CutIsRejectedIff(c: Cipher, key: Key, nonce: u64, payload: Bytes, cut: nat)
    requires c.Correct() && Fresh(nonce, |payload|) && cut <= |Wire(c, key, nonce, payload)|
    ensures Decrypted(c, key, nonce, Wire(c, key, nonce, payload)[..cut]).result
         == CutResult(payload, Wire(c, key, nonce, payload), cut)
    decreases |payload|
  {
    var wire := Wire(c, key, nonce, payload);
    if cut == |wire| {
      PayloadRoundTrip(c, key, nonce, payload);
      assert wire[..cut] == wire;
    } else if cut < FirstChunk(payload) + 20 {
      WireUnfolds(c, key, nonce, payload);
      CutInsideFrame(c, key, nonce, payload[..FirstChunk(payload)], cut);
      assert wire[..cut] == Frame(c.seal(key, nonce, payload[..FirstChunk(payload)]))[..cut];
      CutInsideFirst(payload, wire, cut);
    } else {
      WireUnfolds(c, key, nonce, payload);
      FrameReads(c, key, nonce, payload[..FirstChunk(payload)], []);
      LongerThanOne(c, key, nonce, payload, cut);
      CutIsRejectedIff(c, key, nonce + 1, payload[FirstChunk(payload)..], cut - FirstChunk(payload) - 20);
      CutLater(c, key, nonce, payload, cut);
    }
  }

  lemma LongerThanOne(c: Cipher, key: Key, nonce: u64, payload: Bytes, cut: nat)
    requires c.Correct() && Fresh(nonce, |payload|) && FirstChunk(payload) + 20 <= cut < |Wire(c, key, nonce, payload)|
    ensures |payload| > CHUNK && nonce < RESERVED_NONCE
  {
    WireLength(c, key, nonce, payload);
    ChunkCount(|payload|);
  }

  /** A cut behind the first frame leaves that frame whole. */
  lemma CutBehindFirst(c: Cipher, key: Key, nonce: u64, payload: Bytes, cut: nat)
    requires c.Correct() && payload != [] && Fresh(nonce, |payload|) && nonce < RESERVED_NONCE
    requires Fresh(nonce + 1, |payload[FirstChunk(payload)..]|)
    requires FirstChunk(payload) + 20 <= cut < |Wire(c, key, nonce, payload)|
    ensures var tail := Wire(c, key, nonce + 1, payload[FirstChunk(payload)..]);
            && |Wire(c, key, nonce, payload)| == FirstChunk(payload) + 20 + |tail|
            && Decrypted(c, key, nonce, Wire(c, key, nonce, payload)[..cut])
               == Prepend(payload[..FirstChunk(payload)],
                          Decrypted(c, key, nonce + 1, tail[..cut - FirstChunk(payload) - 20]))
  {
    var chunk, tail := payload[..FirstChunk(payload)], Wire(c, key, nonce + 1, payload[FirstChunk(payload)..]);
    var left := cut - |chunk| - 20;
    WireUnfolds(c, key, nonce, payload);
    FrameReads(c, key, nonce, chunk, tail[..left]);
    assert Wire(c, key, nonce, payload)[..cut] == Frame(c.seal(key, nonce, chunk)) + tail[..left];
  }

  lemma CutLater(c: Cipher, key: Key, nonce: u64, payload: Bytes, cut: nat)
    requires c.Correct() && Fresh(nonce, |payload|) && FirstChunk(payload) + 20 <= cut < |Wire(c, key, nonce, payload)|
    requires payload != [] && nonce < RESERVED_NONCE && Fresh(nonce + 1, |payload[FirstChunk(payload)..]|)
    requires |payload| > CHUNK
    requires cut - FirstChunk(payload) - 20 <= |Wire(c, key, nonce + 1, payload[FirstChunk(payload)..])|
    requires var rest := payload[FirstChunk(payload)..];
             Decrypted(c, key, nonce + 1, Wire(c, key, nonce + 1, rest)[..cut - FirstChunk(payload) - 20]).result
             == CutResult(rest, Wire(c, key, nonce + 1, rest), cut - FirstChunk(payload) - 20)
    ensures Decrypted(c, key, nonce, Wire(c, key, nonce, payload)[..cut]).result
         == CutResult(payload, Wire(c, key, nonce, payload), cut)
  {
    CutBehindFirst(c, key, nonce, payload, cut);
    CutAfterFirst(payload, Wire(c, key, nonce, payload), Wire(c, key, nonce + 1, payload[FirstChunk(payload)..]), cut);
  }

  lemma CutInsideFirst(payload: Bytes, wire: Bytes, cut: nat)
    requires cut < FirstChunk(payload) + 20 && cut < |wire|
    ensures CutResult(payload, wire, cut) == if cut == 0 then Ok([]) else Err(IoError)
  {
  }

  lemma CutAfterFirst(payload: Bytes, wire: Bytes, tail: Bytes, cut: nat)
    requires |payload| > CHUNK && |wire| == |tail| + FULL_FRAME && FULL_FRAME <= cut < |wire|
    ensures CutResult(payload, wire, cut) ==
            match CutResult(payload[CHUNK..], tail, cut - FULL_FRAME)
            case Ok(plain) => Ok(payload[..CHUNK] + plain)
            case Err(e) => Err(e)
  {
    CutDivides(cut);
    var k := (cut - FULL_FRAME) / FULL_FRAME * CHUNK;
    if CHUNK + k <= |payload| {
      assert payload[..CHUNK] + payload[CHUNK..][..k] == payload[..CHUNK + k];
    } else {
      assert payload[..CHUNK] + payload[CHUNK..] == payload;
    }
  }

  lemma CutDivides(cut: nat)
    requires cut >= FULL_FRAME
    ensures (cut - FULL_FRAME) % FULL_FRAME == cut % FULL_FRAME
    ensures (cut - FULL_FRAME) / FULL_FRAME * CHUNK + CHUNK == cut / FULL_FRAME * CHUNK
  {
  }

  lemma CutInsideFrame(c: Cipher, key: Key, nonce: u64, chunk: Bytes, cut: nat)
    requires c.Correct() && |chunk| <= CHUNK && cut < |chunk| + 20
    ensures |Frame(c.seal(key, nonce, chunk))| == |chunk| + 20
    ensures Decrypted(c, key, nonce, Frame(c.seal(key, nonce, chunk))[..cut]).result
         == if cut == 0 then Ok([]) else Err(IoError)
  {
    var sealed := c.seal(key, nonce, chunk);
    BigEndianRoundTrip(|sealed|);
    if cut >= 4 {
      assert Frame(sealed)[..cut][..4] == ToBigEndian(|sealed|);
    }
  }

  // ---------------------------------------------------------------------
  // Sessions
  // ---------------------------------------------------------------------

  /** A tunnel that is neither in transport mode nor in its handshake sends and reads nothing. */
  datatype State = State(transport: Option<Transport>, noise: Option<Noise>, transferCount: u64)

  /** One chunk made a message, by whichever of the two is there. */
  function SendChunk(c: Cipher, t: State, chunk: Bytes): Progress<State> {
    if t.transport.Some? then
      var tr := t.transport.value;
      var sealed := WriteMessage(c, tr.sendKey, tr.sendNonce, chunk);
      Progress(sealed, if sealed.Err? then t else t.(transport := Some(tr.(sendNonce := tr.sendNonce + 1))))
    else if t.noise.Some? then
      var (message, noise) := c.write(t.noise.value, chunk);
      Progress(if message.Some? then Ok(message.value) else Err(NoiseError), t.(noise := Some(noise)))
    else Progress(Err(IoError), t)
  }

  function ReadFrame(c: Cipher, t: State, frame: Bytes): Progress<State> {
    if t.transport.Some? then
      var tr := t.transport.value;
      var plain := ReadMessage(c, tr.receiveKey, tr.receiveNonce, frame);
      Progress(plain, if plain.Err? then t else t.(transport := Some(tr.(receiveNonce := tr.receiveNonce + 1))))
    else if t.noise.Some? then
      var (plain, noise) := c.read(t.noise.value, frame);
      Progress(if plain.Some? then Ok(plain.value) else Err(NoiseError), t.(noise := Some(noise)))
    else Progress(Err(IoError), t)
  }

  function SendAll(c: Cipher, t: State, payload: Bytes): Progress<State>
    decreases |payload|
  {
    if payload == [] then Progress(Ok([]), t)
    else
      var sent := SendChunk(c, t, payload[..FirstChunk(payload)]);
      if sent.result.Err? then sent
      else Prepend(Frame(sent.result.value), SendAll(c, sent.next, payload[FirstChunk(payload)..]))
  }

  function ReadAll(c: Cipher, t: State, wire: Bytes): Progress<State>
    decreases |wire|
  {
    if wire == [] then Progress(Ok([]), t)
    else if |wire| < 4 || |wire| < 4 + FromBigEndian(wire[..4]) then Progress(Err(IoError), t)
    else
      var end := 4 + FromBigEndian(wire[..4]);
      var plain := ReadFrame(c, t, wire[4..end]);
      if plain.result.Err? then plain else Prepend(plain.result.value, ReadAll(c, plain.next, wire[end..]))
  }

  lemma {:induction false} SendAllIs(c: Cipher, t: State, payload: Bytes)
    requires t.transport.Some?
    ensures var tr := t.transport.value;
            var p := Encrypted(c, tr.sendKey, tr.sendNonce, payload);
            SendAll(c, t, payload) == Progress(p.result, t.(transport := Some(tr.(sendNonce := p.next))))
    decreases |payload|
  {
    if payload != [] {
      var sent := SendChunk(c, t, payload[..FirstChunk(payload)]);
      if sent.result.Ok? {
        SendAllIs(c, sent.next, payload[FirstChunk(payload)..]);
      }
    }
  }

  lemma {:induction false} ReadAllIs(c: Cipher, t: State, wire: Bytes)
    requires t.transport.Some?
    ensures var tr := t.transport.value;
            var p := Decrypted(c, tr.receiveKey, tr.receiveNonce, wire);
            ReadAll(c, t, wire) == Progress(p.result, t.(transport := Some(tr.(receiveNonce := p.next))))
    decreases |wire|
  {
    if |wire| >= 4 && |wire| >= 4 + FromBigEndian(wire[..4]) {
      var end := 4 + FromBigEndian(wire[..4]);
      var plain := ReadFrame(c, t, wire[4..end]);
      if plain.result.Ok? {
        ReadAllIs(c, plain.next, wire[end..]);
      }
    }
  }

  ghost predicate ReadsBack(c: Cipher, pair: (Noise, Noise) -> bool, a: Noise, b: Noise, chunk: Bytes) {
    pair(a, b) && c.write(a, chunk).0.Some? ==>
      var (message, a') := c.write(a, chunk);
      |message.value| < U32 && c.read(b, message.value).0 == Some(chunk) && pair(a', c.read(b, message.value).1)
  }

  /** While `pair` holds of two handshake states, one reads what the other writes, and it goes on holding. */
  ghost predicate Paired(c: Cipher, pair: (Noise, Noise) -> bool) {
    forall a, b, chunk :: ReadsBack(c, pair, a, b, chunk)
  }

  ghost predicate StatesPaired(pair: (Noise, Noise) -> bool, s: State, r: State) {
    && s.transport.None? && r.transport.None?
    && s.noise.Some? && r.noise.Some? && pair(s.noise.value, r.noise.value)
  }

  /** Over a handshake too, whatever could be sent is read back, and the two ends stay paired. */
  lemma {:induction false} HandshakeRoundTrip(c: Cipher, pair: (Noise, Noise) -> bool, s: State, r: State,
                                              payload: Bytes)
    requires Paired(c, pair) && StatesPaired(pair, s, r) && SendAll(c, s, payload).result.Ok?
    ensures var read := ReadAll(c, r, SendAll(c, s, payload).result.value);
            read.result == Ok(payload) && StatesPaired(pair, SendAll(c, s, payload).next, read.next)
    decreases |payload|
  {
    if payload != [] {
      var n := FirstChunk(payload);
      assert ReadsBack(c, pair, s.noise.value, r.noise.value, payload[..n]);
      var sent := SendChunk(c, s, payload[..n]);
      var message, rest := sent.result.value, SendAll(c, sent.next, payload[n..]).result.value;
      var got := ReadFrame(c, r, message);
      assert got.result == Ok(payload[..n]);
      FrameUnwraps(message, rest);
      HandshakeRoundTrip(c, pair, sent.next, got.next, payload[n..]);
      assert payload == payload[..n] + payload[n..];
    }
  }

  lemma FrameUnwraps(message: Bytes, rest: Bytes)
    requires |message| < U32
    ensures var wire := Frame(message) + rest;
            && |wire| >= 4 + |message| && FromBigEndian(wire[..4]) == |message|
            && wire[4..4 + |message|] == message && wire[4 + |message|..] == rest
  {
    BigEndianRoundTrip(|message|);
    assert (Frame(message) + rest)[..4] == ToBigEndian(|message|);
  }

  // ---------------------------------------------------------------------
  // Whatever arrives
  // ---------------------------------------------------------------------

  /** The whole frames at the start of `wire`, by their lengths alone, and how many bytes they take up. */
  function FramesOf(wire: Bytes): (r: (seq<Bytes>, nat))
    ensures r.1 <= |wire|
    decreases |wire|
  {
    if |wire| < 4 || |wire| < 4 + FromBigEndian(wire[..4]) then ([], 0)
    else
      var end := 4 + FromBigEndian(wire[..4]);
      var (frames, len) := FramesOf(wire[end..]);
      ([wire[4..end]] + frames, end + len)
  }

  function Joined(parts: seq<Bytes>): Bytes {
    if parts == [] then [] else parts[0] + Joined(parts[1..])
  }

  /** The frame is a message that authenticates under this nonce. */
  predicate Opens(c: Cipher, key: Key, nonce: nat, frame: Bytes) {
    nonce < 0xFFFF_FFFF_FFFF_FFFF && 16 <= |frame| <= 65_535 && c.open(key, nonce, frame).Some?
  }

  /** The frames open one after the other, each under the next nonce, to these parts. */
  ghost predicate OpenTo(c: Cipher, key: Key, nonce: nat, frames: seq<Bytes>, parts: seq<Bytes>) {
    && |parts| <= |frames|
    && forall i :: 0 <= i < |parts| ==>
         Opens(c, key, nonce + i, frames[i]) && c.open(key, nonce + i, frames[i]) == Some(parts[i])
  }

  /** What is made of frames that opened to `parts` and no further, and of bytes after the last whole frame. */
  function Verdict(frames: nat, parts: seq<Bytes>, rest: nat): Result<Bytes, TunnelError> {
    if |parts| < frames then Err(NoiseError) else if rest > 0 then Err(IoError) else Ok(Joined(parts))
  }

  lemma VerdictMore<S>(frames: nat, part: Bytes, parts: seq<Bytes>, rest: nat, next: S)
    ensures Progress(Verdict(frames + 1, [part] + parts, rest), next)
         == Prepend(part, Progress(Verdict(frames, parts, rest), next))
  {
    assert ([part] + parts)[1..] == parts;
  }

  /** Frame by frame, by lengths alone. */
  lemma FramesUnfold(wire: Bytes)
    requires |wire| >= 4 && |wire| >= 4 + FromBigEndian(wire[..4])
    ensures var end := 4 + FromBigEndian(wire[..4]);
            && FramesOf(wire).0 == [wire[4..end]] + FramesOf(wire[end..]).0
            && FramesOf(wire).1 == end + FramesOf(wire[end..]).1
  {
  }

  lemma OpenToMore(c: Cipher, key: Key, nonce: u64, frame: Bytes, part: Bytes, frames: seq<Bytes>, parts: seq<Bytes>)
    requires Opens(c, key, nonce, frame) && c.open(key, nonce, frame) == Some(part)
    requires OpenTo(c, key, nonce + 1, frames, parts)
    ensures OpenTo(c, key, nonce, [frame] + frames, [part] + parts)
    ensures |parts| < |frames| ==> ([frame] + frames)[|parts| + 1] == frames[|parts|]
  {
    forall i | 0 < i < |parts| + 1
      ensures Opens(c, key, nonce + i, ([frame] + frames)[i])
      ensures c.open(key, nonce + i, ([frame] + frames)[i]) == Some(([part] + parts)[i])
    {
      assert ([frame] + frames)[i] == frames[i - 1] && nonce + 1 + (i - 1) == nonce + i;
    }
  }

  /** What reading `wire` comes to in transport mode, given what its frames open to. */
  ghost predicate ReadAs(c: Cipher, t: State, wire: Bytes, parts: seq<Bytes>, p: Progress<State>)
    requires t.transport.Some?
  {
    var tr, (frames, len) := t.transport.value, FramesOf(wire);
    && OpenTo(c, tr.receiveKey, tr.receiveNonce, frames, parts)
    && (|parts| < |frames| ==> !Opens(c, tr.receiveKey, tr.receiveNonce + |parts|, frames[|parts|]))
    && tr.receiveNonce + |parts| < U64
    && p.result == Verdict(|frames|, parts, |wire| - len)
    && p.next == t.(transport := Some(tr.(receiveNonce := tr.receiveNonce + |parts|)))
  }

  lemma OneFrameMore(c: Cipher, t: State, wire: Bytes, part: Bytes, parts: seq<Bytes>, p: Progress<State>)
    requires |wire| >= 4 && |wire| >= 4 + FromBigEndian(wire[..4]) && t.transport.Some?
    requires var tr, end := t.transport.value, 4 + FromBigEndian(wire[..4]);
             && Opens(c, tr.receiveKey, tr.receiveNonce, wire[4..end])
             && c.open(tr.receiveKey, tr.receiveNonce, wire[4..end]) == Some(part)
             && ReadAs(c, t.(transport := Some(tr.(receiveNonce := tr.receiveNonce + 1))), wire[end..], parts, p)
    ensures ReadAs(c, t, wire, [part] + parts, Prepend(part, p))
  {
    var tr, end := t.transport.value, 4 + FromBigEndian(wire[..4]);
    FramesUnfold(wire);
    OpenToMore(c, tr.receiveKey, tr.receiveNonce, wire[4..end], part, FramesOf(wire[end..]).0, parts);
    VerdictMore(|FramesOf(wire[end..]).0|, part, parts, |wire| - FramesOf(wire).1, p.next);
  }

  lemma NothingOpens(c: Cipher, t: State, wire: Bytes)
    requires t.transport.Some?
    requires |wire| >= 4 && |wire| >= 4 + FromBigEndian(wire[..4]) ==>
               !Opens(c, t.transport.value.receiveKey, t.transport.value.receiveNonce,
                      wire[4..4 + FromBigEndian(wire[..4])])
    ensures ReadAs(c, t, wire, [], ReadAll(c, t, wire))
  {
    if |wire| >= 4 && |wire| >= 4 + FromBigEndian(wire[..4]) {
      FramesUnfold(wire);
    }
  }

  /**
   Whatever bytes arrive in transport mode, they are opened frame by frame, each
   under the next nonce, up to the first that does not open. If there is one the
   answer is a Noise error, if the bytes end inside a frame an I/O error, and
   otherwise what the frames opened to, joined; the nonces of the opened frames
   are used up, in every case, and no others.
   */
  lemma {:induction false} OpensFrameByFrame(c: Cipher, t: State, wire: Bytes) returns (parts: seq<Bytes>)
    requires t.transport.Some?
    ensures ReadAs(c, t, wire, parts, ReadAll(c, t, wire))
    decreases |wire|
  {
    var tr, end := t.transport.value, if |wire| >= 4 then 4 + FromBigEndian(wire[..4]) else 4;
    if end <= |wire| && Opens(c, tr.receiveKey, tr.receiveNonce, wire[4..end]) {
      var next := t.(transport := Some(tr.(receiveNonce := tr.receiveNonce + 1)));
      var part := c.open(tr.receiveKey, tr.receiveNonce, wire[4..end]).value;
      var more := OpensFrameByFrame(c, next, wire[end..]);
      OneFrameMore(c, t, wire, part, more, ReadAll(c, next, wire[end..]));
      assert ReadFrame(c, t, wire[4..end]) == Progress(Ok(part), next);
      parts := [part] + more;
    } else {
      NothingOpens(c, t, wire);
      parts := [];
    }
  }

  /** `states` are those a handshake goes through while it reads the first of these frames to these parts. */
  ghost predicate ReadTo(c: Cipher, frames: seq<Bytes>, parts: seq<Bytes>, states: seq<Noise>) {
    && |parts| <= |frames| && |states| == |parts| + 1
    && forall i :: 0 <= i < |parts| ==> c.read(states[i], frames[i]) == (Some(parts[i]), states[i + 1])
  }

  lemma ReadToMore(c: Cipher, first: Noise, frame: Bytes, part: Bytes, frames: seq<Bytes>, parts: seq<Bytes>,
                   states: seq<Noise>)
    requires ReadTo(c, frames, parts, states) && c.read(first, frame) == (Some(part), states[0])
    ensures ReadTo(c, [frame] + frames, [part] + parts, [first] + states)
    ensures |parts| < |frames| ==> ([frame] + frames)[|parts| + 1] == frames[|parts|]
  {
    forall i | 0 < i < |parts| + 1
      ensures c.read(([first] + states)[i], ([frame] + frames)[i]) == (Some(([part] + parts)[i]), states[i])
    {
      assert ([frame] + frames)[i] == frames[i - 1] && ([first] + states)[i] == states[i - 1];
    }
  }

  /** What reading `wire` comes to in the handshake. */
  ghost predicate HandshakeReadAs(c: Cipher, t: State, wire: Bytes, parts: seq<Bytes>, states: seq<Noise>,
                                  p: Progress<State>)
    requires t.noise.Some?
  {
    var (frames, len) := FramesOf(wire);
    && ReadTo(c, frames, parts, states) && states[0] == t.noise.value
    && p.result == Verdict(|frames|, parts, |wire| - len)
    && (|parts| == |frames| ==> p.next == t.(noise := Some(states[|parts|])))
    && (|parts| < |frames| ==>
          && c.read(states[|parts|], frames[|parts|]).0.None?
          && p.next == t.(noise := Some(c.read(states[|parts|], frames[|parts|]).1)))
  }

  lemma OneReadMore(c: Cipher, t: State, wire: Bytes, part: Bytes, noise: Noise, parts: seq<Bytes>, states: seq<Noise>,
                    p: Progress<State>)
    requires |wire| >= 4 && |wire| >= 4 + FromBigEndian(wire[..4]) && t.noise.Some?
    requires var end := 4 + FromBigEndian(wire[..4]);
             && c.read(t.noise.value, wire[4..end]) == (Some(part), noise)
             && HandshakeReadAs(c, t.(noise := Some(noise)), wire[end..], parts, states, p)
    ensures HandshakeReadAs(c, t, wire, [part] + parts, [t.noise.value] + states, Prepend(part, p))
  {
    var end := 4 + FromBigEndian(wire[..4]);
    FramesUnfold(wire);
    ReadToMore(c, t.noise.value, wire[4..end], part, FramesOf(wire[end..]).0, parts, states);
    VerdictMore(|FramesOf(wire[end..]).0|, part, parts, |wire| - FramesOf(wire).1, p.next);
  }

  /**
   In the handshake, too: the frames are read up to the first that the handshake
   refuses, which is a Noise error and leaves the handshake where the refusal put it.
   */
  lemma {:induction false} ReadsFrameByFrame(c: Cipher, t: State, wire: Bytes)
    returns (parts: seq<Bytes>, states: seq<Noise>)
    requires t.transport.None? && t.noise.Some?
    ensures HandshakeReadAs(c, t, wire, parts, states, ReadAll(c, t, wire))
    decreases |wire|
  {
    parts, states := [], [t.noise.value];
    if |wire| >= 4 && |wire| >= 4 + FromBigEndian(wire[..4]) {
      var end := 4 + FromBigEndian(wire[..4]);
      FramesUnfold(wire);
      var (part, noise) := c.read(t.noise.value, wire[4..end]);
      if part.Some? {
        var next := t.(noise := Some(noise));
        var more, rest := ReadsFrameByFrame(c, next, wire[end..]);
        OneReadMore(c, t, wire, part.value, noise, more, rest, ReadAll(c, next, wire[end..]));
        assert ReadFrame(c, t, wire[4..end]) == Progress(Ok(part.value), next);
        parts, states := [part.value] + more, [t.noise.value] + rest;
      }
    }
  }

  /** A payload in pieces of 65000 bytes, the last one of what is left. */
  function Pieces(payload: Bytes): seq<Bytes> {
    if payload == [] then []
    else if |payload| <= 65_000 then [payload]
    else [payload[..65_000]] + Pieces(payload[65_000..])
  }

  /** Each message with its length before it. */
  function Framed(messages: seq<Bytes>): Bytes {
    if messages == [] then []
    else ToBigEndian(|messages[0]| % 0x1_0000_0000) + messages[0] + Framed(messages[1..])
  }

  /** `states` are those a handshake goes through while it writes the first of these pieces as these messages. */
  ghost predicate WriteTo(c: Cipher, pieces: seq<Bytes>, messages: seq<Bytes>, states: seq<Noise>) {
    && |messages| <= |pieces| && |states| == |messages| + 1
    && forall i :: 0 <= i < |messages| ==> c.write(states[i], pieces[i]) == (Some(messages[i]), states[i + 1])
  }

  lemma WriteToMore(c: Cipher, first: Noise, piece: Bytes, message: Bytes, pieces: seq<Bytes>, messages: seq<Bytes>,
                    states: seq<Noise>)
    requires WriteTo(c, pieces, messages, states) && c.write(first, piece) == (Some(message), states[0])
    ensures WriteTo(c, [piece] + pieces, [message] + messages, [first] + states)
    ensures |messages| < |pieces| ==> ([piece] + pieces)[|messages| + 1] == pieces[|messages|]
  {
    forall i | 0 < i < |messages| + 1
      ensures c.write(([first] + states)[i], ([piece] + pieces)[i]) == (Some(([message] + messages)[i]), states[i])
    {
      assert ([piece] + pieces)[i] == pieces[i - 1] && ([first] + states)[i] == states[i - 1];
    }
  }

  lemma LengthOnTheWire(len: nat)
    ensures FrameLength(len) == len % 0x1_0000_0000
  {
  }

  lemma FramedMore(message: Bytes, messages: seq<Bytes>)
    ensures Framed([message] + messages) == Frame(message) + Framed(messages)
  {
    var all := [message] + messages;
    LengthOnTheWire(|message|);
    assert all[0] == message && all[1..] == messages;
    assert Framed(all) == ToBigEndian(|all[0]| % 0x1_0000_0000) + all[0] + Framed(all[1..]);
  }

  lemma PiecesUnfold(payload: Bytes)
    requires payload != []
    ensures Pieces(payload) == [payload[..FirstChunk(payload)]] + Pieces(payload[FirstChunk(payload)..])
  {
    if |payload| <= 65_000 {
      assert payload[..|payload|] == payload;
      assert payload[FirstChunk(payload)..] == [];
    }
  }

  /** What sending `payload` comes to in the handshake. */
  ghost predicate HandshakeSentAs(c: Cipher, t: State, payload: Bytes, messages: seq<Bytes>, states: seq<Noise>,
                                  p: Progress<State>)
    requires t.noise.Some?
  {
    var pieces := Pieces(payload);
    && WriteTo(c, pieces, messages, states) && states[0] == t.noise.value
    && (|messages| == |pieces| ==>
          p.result == Ok(Framed(messages)) && p.next == t.(noise := Some(states[|messages|])))
    && (|messages| < |pieces| ==>
          && c.write(states[|messages|], pieces[|messages|]).0.None?
          && p.result == Err(NoiseError)
          && p.next == t.(noise := Some(c.write(states[|messages|], pieces[|messages|]).1)))
  }

  lemma OneWriteMore(c: Cipher, t: State, payload: Bytes, message: Bytes, noise: Noise, messages: seq<Bytes>,
                     states: seq<Noise>, p: Progress<State>)
    requires payload != [] && t.noise.Some?
    requires c.write(t.noise.value, payload[..FirstChunk(payload)]) == (Some(message), noise)
    requires HandshakeSentAs(c, t.(noise := Some(noise)), payload[FirstChunk(payload)..], messages, states, p)
    ensures HandshakeSentAs(c, t, payload, [message] + messages, [t.noise.value] + states, Prepend(Frame(message), p))
  {
    var n := FirstChunk(payload);
    PiecesUnfold(payload);
    WriteToMore(c, t.noise.value, payload[..n], message, Pieces(payload[n..]), messages, states);
    FramedMore(message, messages);
  }

  /**
   In the handshake a payload goes out piece by piece, each as one message with its
   length, up to the first that the handshake refuses to write, which is a Noise error.
   */
  lemma {:induction false} WritesPieceByPiece(c: Cipher, t: State, payload: Bytes)
    returns (messages: seq<Bytes>, states: seq<Noise>)
    requires t.transport.None? && t.noise.Some?
    ensures HandshakeSentAs(c, t, payload, messages, states, SendAll(c, t, payload))
    decreases |payload|
  {
    messages, states := [], [t.noise.value];
    if payload != [] {
      var n := FirstChunk(payload);
      PiecesUnfold(payload);
      var (message, noise) := c.write(t.noise.value, payload[..n]);
      if message.Some? {
        var next := t.(noise := Some(noise));
        var more, rest := WritesPieceByPiece(c, next, payload[n..]);
        OneWriteMore(c, t, payload, message.value, noise, more, rest, SendAll(c, next, payload[n..]));
        assert SendChunk(c, t, payload[..n]) == Progress(Ok(message.value), next);
        messages, states := [message.value] + more, [t.noise.value] + rest;
      }
    }
  }

  /** Without transport or handshake nothing is read and nothing is sent. */
  lemma ClosedTunnelRefuses(c: Cipher, t: State, bytes: Bytes)
    requires t.transport.None? && t.noise.None? && bytes != []
    ensures ReadAll(c, t, bytes) == Progress(Err(IoError), t) && SendAll(c, t, bytes) == Progress(Err(IoError), t)
  {
  }

  /**
   In transport mode encryption succeeds exactly when there are enough nonces
   below 2^64 - 1; when there are not, it fails with a Noise error, all used up.
   */
  lemma {:induction false} SendsIffNoncesLast(c: Cipher, t: State, payload: Bytes)
    requires t.transport.Some? && t.transport.value.sendNonce <= 0xFFFF_FFFF_FFFF_FFFF
    ensures var tr, p := t.transport.value, SendAll(c, t, payload);
            var needed := (|payload| + 64_999) / 65_000;
            if tr.sendNonce + needed <= 0xFFFF_FFFF_FFFF_FFFF
            then p.result.Ok? && p.next == t.(transport := Some(tr.(sendNonce := tr.sendNonce + needed)))
            else p.result == Err(NoiseError) && p.next == t.(transport := Some(tr.(sendNonce := 0xFFFF_FFFF_FFFF_FFFF)))
    decreases |payload|
  {
    if payload != [] && t.transport.value.sendNonce < RESERVED_NONCE {
      var sent := SendChunk(c, t, payload[..FirstChunk(payload)]);
      SendsIffNoncesLast(c, sent.next, payload[FirstChunk(payload)..]);
    }
  }

  /** The longest slice a 64-bit address space can hold. */
  const MAX_SLICE := 0x8000_0000_0000_0000

  /** The count goes up before it is checked, so it goes up for refused commands too. */
  function Encrypting(c: Cipher, t: State, payload: Bytes): Progress<State>
    requires |payload| < MAX_SLICE
  {
    var counted := t.(transferCount := WrappingAdd(t.transferCount, |payload|));
    if counted.transferCount > REKEY_AFTER then Progress(Err(RekeyRequired), counted) else SendAll(c, counted, payload)
  }

  lemma {:induction false} SendAllKeepsCount(c: Cipher, t: State, payload: Bytes)
    ensures var p := SendAll(c, t, payload);
            p.next.transferCount == t.transferCount && (p.result.Err? ==> p.result.error in {NoiseError, IoError})
    decreases |payload|
  {
    if payload != [] {
      var sent := SendChunk(c, t, payload[..FirstChunk(payload)]);
      if sent.result.Ok? {
        SendAllKeepsCount(c, sent.next, payload[FirstChunk(payload)..]);
      }
    }
  }

  /**
   In every mode a command is counted first, modulo 2^64, and refused for want of
   a new key exactly when the count is then above 1,000,000,000; that uses up nothing else.
   */
  lemma RekeyIff(c: Cipher, t: State, payload: Bytes)
    requires |payload| < MAX_SLICE
    ensures var p, count := Encrypting(c, t, payload), (t.transferCount + |payload|) % 0x1_0000_0000_0000_0000;
            && p.next.transferCount == count
            && (p.result == Err(RekeyRequired) <==> count > 1_000_000_000)
            && (p.result == Err(RekeyRequired) ==> p.next == t.(transferCount := count))
            && (p.result != Err(RekeyRequired) ==> p == SendAll(c, t.(transferCount := count), payload))
  {
    SendAllKeepsCount(c, t.(transferCount := WrappingAdd(t.transferCount, |payload|)), payload);
  }

  function Decoding<Command(!new)>(codec: Codec<Command>, plain: Result<Bytes, TunnelError>)
    : Result<Command, TunnelError>
  {
    match plain
    case Err(e) => Err(e)
    case Ok(bytes) => match codec.decode(bytes) case Some(cmd) => Ok(cmd) case None => Err(BincodeError)
  }

  /**
   What a receiver in transport mode makes of any payload: a Noise error exactly
   when some whole frame does not open in its turn, else an I/O error exactly when
   bytes are left over, else the command that the joined frames decode to, if any.
   A frame that does not open uses up no nonce, and nothing after it is read.
   */
  lemma PayloadVerdict<Command(!new)>(c: Cipher, codec: Codec<Command>, t: State, wire: Bytes)
    returns (parts: seq<Bytes>)
    requires t.transport.Some?
    ensures var tr, (frames, len) := t.transport.value, FramesOf(wire);
            var r := Decoding(codec, ReadAll(c, t, wire).result);
            && OpenTo(c, tr.receiveKey, tr.receiveNonce, frames, parts)
            && (r == Err(NoiseError) <==> |parts| < |frames|)
            && (|parts| < |frames| ==> !Opens(c, tr.receiveKey, tr.receiveNonce + |parts|, frames[|parts|]))
            && (r == Err(IoError) <==> |parts| == |frames| && len < |wire|)
            && (r == Err(BincodeError) <==>
                  |parts| == |frames| && len == |wire| && codec.decode(Joined(parts)).None?)
            && (r.Ok? ==> codec.decode(Joined(parts)) == Some(r.value))
            && tr.receiveNonce + |parts| < U64
            && ReadAll(c, t, wire).next
               == t.(transport := Some(tr.(receiveNonce := tr.receiveNonce + |parts|)))
  {
    parts := OpensFrameByFrame(c, t, wire);
  }

  /** What the receiver makes of a session in which every command that encrypts is delivered, in order. */
  function Received<Command(!new)>(c: Cipher, codec: Codec<Command>, sender: State, receiver: State, cmds: seq<Command>)
    : seq<Result<Command, TunnelError>>
    requires Sendable(codec, cmds)
    decreases |cmds|
  {
    if cmds == [] then []
    else
      var sent := Encrypting(c, sender, codec.encode(cmds[0]));
      if sent.result.Err? then Received(c, codec, sent.next, receiver, cmds[1..])
      else
        var read := ReadAll(c, receiver, sent.result.value);
        [Decoding(codec, read.result)] + Received(c, codec, sent.next, read.next, cmds[1..])
  }

  ghost predicate Sendable<Command(!new)>(codec: Codec<Command>, cmds: seq<Command>) {
    forall cmd <- cmds :: |codec.encode(cmd)| < MAX_SLICE
  }

  function Size<Command(!new)>(codec: Codec<Command>, cmds: seq<Command>): nat {
    if cmds == [] then 0 else |codec.encode(cmds[0])| + Size(codec, cmds[1..])
  }

  function AllOk<Command(!new)>(cmds: seq<Command>): seq<Result<Command, TunnelError>> {
    if cmds == [] then [] else [Ok(cmds[0])] + AllOk(cmds[1..])
  }

  /** The receiver is where the sender is, and no more nonces are gone than bytes were counted. */
  ghost predicate InSync(s: State, r: State) {
    && s.transport.Some? && r.transport.Some?
    && s.transport.value.sendKey == r.transport.value.receiveKey
    && s.transport.value.sendNonce == r.transport.value.receiveNonce <= s.transferCount
  }

  lemma {:induction false} ChunksAtMostBytes(len: nat)
    ensures Chunks(len) <= len
  {
    if len >= CHUNK {
      ChunksAtMostBytes(len - CHUNK);
    }
  }

  /** One command under the limit arrives as it was, and leaves the two ends in step. */
  lemma CommandRoundTrip<Command(!new)>(c: Cipher, codec: Codec<Command>, s: State, r: State, cmd: Command)
    requires c.Correct() && codec.Correct() && InSync(s, r)
    requires |codec.encode(cmd)| < MAX_SLICE && s.transferCount + |codec.encode(cmd)| <= REKEY_AFTER
    ensures Encrypting(c, s, codec.encode(cmd)).result.Ok?
    ensures var sent := Encrypting(c, s, codec.encode(cmd));
            var read := ReadAll(c, r, sent.result.value);
            && Decoding(codec, read.result) == Ok(cmd) && InSync(sent.next, read.next)
            && sent.next.transferCount == s.transferCount + |codec.encode(cmd)|
  {
    var payload := codec.encode(cmd);
    ChunksAtMostBytes(|payload|);
    PayloadRoundTrip(c, s.transport.value.sendKey, s.transport.value.sendNonce, payload);
    SendAllIs(c, s.(transferCount := s.transferCount + |payload|), payload);
    ReadAllIs(c, r, Wire(c, s.transport.value.sendKey, s.transport.value.sendNonce, payload));
  }

  lemma {:induction false} NothingAfterRekey<Command(!new)>(c: Cipher, codec: Codec<Command>, s: State, r: State,
                                                            cmds: seq<Command>)
    requires Sendable(codec, cmds) && s.transferCount > REKEY_AFTER && s.transferCount + Size(codec, cmds) < U64
    ensures Received(c, codec, s, r, cmds) == []
    decreases |cmds|
  {
    if cmds != [] {
      NothingAfterRekey(c, codec, Encrypting(c, s, codec.encode(cmds[0])).next, r, cmds[1..]);
    }
  }

  /**
   From synchronised ends the receiver gets back, in order and unchanged, the
   longest prefix of the commands whose total size stays within the re-key
   limit, and nothing after it.
   */
  lemma {:induction false} SessionDelivers<Command(!new)>(c: Cipher, codec: Codec<Command>, s: State, r: State,
                                                          cmds: seq<Command>)
    returns (k: nat)
    requires c.Correct() && codec.Correct() && InSync(s, r)
    requires Sendable(codec, cmds) && s.transferCount <= REKEY_AFTER && s.transferCount + Size(codec, cmds) < U64
    ensures k <= |cmds| && Received(c, codec, s, r, cmds) == AllOk(cmds[..k])
    ensures s.transferCount + Size(codec, cmds[..k]) <= 1_000_000_000
    ensures k < |cmds| ==> s.transferCount + Size(codec, cmds[..k + 1]) > 1_000_000_000
    decreases |cmds|
  {
    k := 0;
    if cmds != [] {
      var sent := Encrypting(c, s, codec.encode(cmds[0]));
      if s.transferCount + |codec.encode(cmds[0])| <= REKEY_AFTER {
        CommandRoundTrip(c, codec, s, r, cmds[0]);
        var more := SessionDelivers(c, codec, sent.next, ReadAll(c, r, sent.result.value).next, cmds[1..]);
        k := more + 1;
        assert cmds[..k][1..] == cmds[1..][..more];
        assert k < |cmds| ==> cmds[..k + 1][1..] == cmds[1..][..more + 1];
      } else {
        NothingAfterRekey(c, codec, sent.next, r, cmds[1..]);
        assert cmds[..1][1..] == [];
      }
    }
  }

  lemma PrependNothing<S>(p: Progress<S>)
    ensures Prepend([], p) == p
  {
    if p.result.Ok? {
      assert [] + p.result.value == p.result.value;
    }
  }

  lemma PrependTwice<S>(a: Bytes, b: Bytes, p: Progress<S>)
    ensures Prepend(a, Prepend(b, p)) == Prepend(a + b, p)
  {
    if p.result.Ok? {
      assert a + (b + p.result.value) == a + b + p.result.value;
    }
  }

  lemma NextChunk(c: Cipher, t: State, payload: Bytes, offset: nat)
    requires offset < |payload|
    ensures var next := offset + FirstChunk(payload[offset..]);
            var sent := SendChunk(c, t, payload[offset..next]);
            && offset < next <= |payload|
            && SendAll(c, t, payload[offset..]) ==
               if sent.result.Err? then sent
               else Prepend(Frame(sent.result.value), SendAll(c, sent.next, payload[next..]))
  {
    var n := FirstChunk(payload[offset..]);
    assert payload[offset..][..n] == payload[offset..offset + n];
    assert payload[offset..][n..] == payload[offset + n..];
  }

  function FrameEndsAt(wire: Bytes, offset: nat): nat
    requires offset + 4 <= |wire|
  {
    offset + 4 + FromBigEndian(wire[offset..offset + 4])
  }

  lemma NextFrame(c: Cipher, t: State, wire: Bytes, offset: nat)
    requires offset < |wire|
    ensures ReadAll(c, t, wire[offset..]) ==
            if offset + 4 > |wire| || FrameEndsAt(wire, offset) > |wire| then Progress(Err(IoError), t)
            else
              var plain := ReadFrame(c, t, wire[offset + 4..FrameEndsAt(wire, offset)]);
              if plain.result.Err? then plain
              else Prepend(plain.result.value, ReadAll(c, plain.next, wire[FrameEndsAt(wire, offset)..]))
  {
    if offset + 4 <= |wire| {
      assert wire[offset..][..4] == wire[offset..offset + 4];
      var next := FrameEndsAt(wire, offset);
      if next <= |wire| {
        assert wire[offset..][4..next - offset] == wire[offset + 4..next];
        assert wire[offset..][next - offset..] == wire[next..];
      }
    }
  }

  // ---------------------------------------------------------------------
  // The code
  // ---------------------------------------------------------------------

  class Tunnel {
    var transport: Option<Transport>
    var noise: Option<Noise>
    var transferCount: u64

    function Value(): State
      reads this
    {
      State(transport, noise, transferCount)
    }

    constructor (handshake: Noise)
      ensures Value() == State(None, Some(handshake), 0)
    {
      transport, noise, transferCount := None, Some(handshake), 0;
    }

    /**
     `split` is what the handshake turns into, or nothing when it is not
     finished; the handshake is given up either way.
     */
    method ToTransport(split: Option<Transport>) returns (ok: bool)
      modifies this
      ensures ok <==> old(noise).None? || split.Some?
      ensures Value()
           == State(if old(noise).Some? && split.Some? then split else old(transport), None, old(transferCount))
    {
      ok := true;
      if noise.Some? {
        noise := None;
        if split.None? {
          return false;
        }
        transport := split;
      }
    }

    method EncryptCommand<Command(!new)>(c: Cipher, codec: Codec<Command>, cmd: Command)
      returns (r: Result<Bytes, TunnelError>)
      requires |codec.encode(cmd)| < MAX_SLICE
      modifies this
      ensures Progress(r, Value()) == Encrypting(c, old(Value()), codec.encode(cmd))
    {
      var payload := codec.encode(cmd);
      transferCount := WrappingAdd(transferCount, |payload|);
      if transferCount > REKEY_AFTER {
        return Err(RekeyRequired);
      }
      r := EncryptChunks(c, payload);
    }

    method EncryptChunks(c: Cipher, payload: Bytes) returns (r: Result<Bytes, TunnelError>)
      modifies this
      ensures Progress(r, Value()) == SendAll(c, old(Value()), payload)
    {
      var finalOut, offset := [], 0;
      ghost var all := SendAll(c, Value(), payload);
      PrependNothing(all);
      assert payload[offset..] == payload;
      while offset < |payload|
        invariant offset <= |payload|
        invariant Prepend(finalOut, SendAll(c, Value(), payload[offset..])) == all
      {
        var next := offset + FirstChunk(payload[offset..]);
        NextChunk(c, Value(), payload, offset);
        var message := WriteChunk(c, payload[offset..next]);
        if message.Err? {
          return message;
        }
        PrependTwice(finalOut, Frame(message.value), SendAll(c, Value(), payload[next..]));
        finalOut := finalOut + Frame(message.value);
        offset := next;
      }
      assert finalOut + [] == finalOut;
      r := Ok(finalOut);
    }

    method WriteChunk(c: Cipher, chunk: Bytes) returns (r: Result<Bytes, TunnelError>)
      modifies this
      ensures Progress(r, Value()) == SendChunk(c, old(Value()), chunk)
    {
      if transport.Some? {
        var t := transport.value;
        r := WriteMessage(c, t.sendKey, t.sendNonce, chunk);
        if r.Ok? {
          transport := Some(t.(sendNonce := t.sendNonce + 1));
        }
      } else if noise.Some? {
        var (message, after) := c.write(noise.value, chunk);
        noise := Some(after);
        r := if message.Some? then Ok(message.value) else Err(NoiseError);
      } else {
        r := Err(IoError);
      }
    }

    method DecryptPayload<Command(!new)>(c: Cipher, codec: Codec<Command>, wire: Bytes)
      returns (r: Result<Command, TunnelError>)
      modifies this
      ensures Value() == ReadAll(c, old(Value()), wire).next
      ensures r == Decoding(codec, ReadAll(c, old(Value()), wire).result)
    {
      var plain := DecryptFrames(c, wire);
      r := Decoding(codec, plain);
    }

    method DecryptFrames(c: Cipher, wire: Bytes) returns (r: Result<Bytes, TunnelError>)
      modifies this
      ensures Progress(r, Value()) == ReadAll(c, old(Value()), wire)
    {
      var plaintext, offset := [], 0;
      ghost var all := ReadAll(c, Value(), wire);
      PrependNothing(all);
      assert wire[offset..] == wire;
      while offset < |wire|
        invariant offset <= |wire|
        invariant Prepend(plaintext, ReadAll(c, Value(), wire[offset..])) == all
      {
        NextFrame(c, Value(), wire, offset);
        if offset + 4 > |wire| {
          return Err(IoError);
        }
        var next := FrameEndsAt(wire, offset);
        if next > |wire| {
          return Err(IoError);
        }
        var plain := ReadOne(c, wire[offset + 4..next]);
        if plain.Err? {
          return plain;
        }
        PrependTwice(plaintext, plain.value, ReadAll(c, Value(), wire[next..]));
        plaintext := plaintext + plain.value;
        offset := next;
      }
      assert plaintext + [] == plaintext;
      r := Ok(plaintext);
    }

    method ReadOne(c: Cipher, frame: Bytes) returns (r: Result<Bytes, TunnelError>)
      modifies this
      ensures Progress(r, Value()) == ReadFrame(c, old(Value()), frame)
    {
      if transport.Some? {
        var t := transport.value;
        r := ReadMessage(c, t.receiveKey, t.receiveNonce, frame);
        if r.Ok? {
          transport := Some(t.(receiveNonce := t.receiveNonce + 1));
        }
      } else if noise.Some? {
        var (plain, after) := c.read(noise.value, frame);
        noise := Some(after);
        r := if plain.Some? then Ok(plain.value) else Err(NoiseError);
      } else {
        r := Err(IoError);
      }
    }
  }
}
