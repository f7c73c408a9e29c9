/**
 How the host writes a reply into guest memory (src/sandbox/host_api/helpers.rs,
 with the range checks of src/sandbox/sandbox_wasmtime.rs).
 */
module GuestMemory {
  import opened Words
  import opened Wrappers

  /** The access is refused and the guest is stopped, or the host's copy panics. */
  datatype Fault = OutOfBounds | LengthsDiffer

  // ---------------------------------------------------------------------
  // Little-endian words
  // ---------------------------------------------------------------------

  function EncodeU32(x: u32): (b: Bytes)
    ensures |b| == 4
  {
    [x % 0x100, x / 0x100 % 0x100, x / 0x1_0000 % 0x100, x / 0x100_0000]
  }

  function EncodeI32(x: i32): (b: Bytes)
    ensures |b| == 4
  {
    EncodeU32(AsU32(x))
  }

  function DecodeU32(b: Bytes): u32
    requires |b| == 4
  {
    b[0] + 0x100 * (b[1] as int) + 0x1_0000 * (b[2] as int) + 0x100_0000 * (b[3] as int)
  }

  function DecodeI32(b: Bytes): i32
    requires |b| == 4
  {
    var x := DecodeU32(b);
    if x < 0x8000_0000 then x else x - U32
  }

  lemma DecodeEncode(x: i32)
    ensures DecodeI32(EncodeI32(x)) == x && EncodeI32(0x0102_0304) == [4, 3, 2, 1]
  {
    var u := AsU32(x);
    assert u / 0x1_0000 == u / 0x100 / 0x100 && u / 0x100_0000 == u / 0x1_0000 / 0x100;
    assert DecodeU32(EncodeU32(u)) == u;
  }

  // ---------------------------------------------------------------------
  // Ranges
  // ---------------------------------------------------------------------

  /** Pointers are taken as unsigned. */
  predicate InRange(size: nat, ptr: i32, len: nat) {
    AsU32(ptr) + len <= size
  }

  predicate Within(ptr: i32, len: nat, k: nat) {
    AsU32(ptr) <= k < AsU32(ptr) + len
  }

  ghost predicate Disjoint(p: i32, n: nat, q: i32, m: nat) {
    AsU32(p) + n <= AsU32(q) || AsU32(q) + m <= AsU32(p)
  }

  function At(mem: Bytes, ptr: i32, len: nat): (r: Bytes)
    requires InRange(|mem|, ptr, len)
    ensures |r| == len
  {
    mem[AsU32(ptr)..AsU32(ptr) + len]
  }

  function Put(mem: Bytes, ptr: i32, data: Bytes): (r: Bytes)
    requires InRange(|mem|, ptr, |data|)
    ensures |r| == |mem|
  {
    mem[..AsU32(ptr)] + data + mem[AsU32(ptr) + |data|..]
  }

  lemma PutAt(mem: Bytes, ptr: i32, data: Bytes)
    requires InRange(|mem|, ptr, |data|)
    ensures At(Put(mem, ptr, data), ptr, |data|) == data
    ensures forall k :: 0 <= k < |mem| && !Within(ptr, |data|, k) ==> Put(mem, ptr, data)[k] == mem[k]
  {
  }

  // ---------------------------------------------------------------------
  // The reply
  // ---------------------------------------------------------------------

  datatype Response = Response(mem: Bytes, result: Result<int, Fault>)

  /** A reply's length cast to 32 bits, signed. */
  function ReplyLength(len: nat): i32 {
    if len % U32 < 0x8000_0000 then len % U32 else len % U32 - U32
  }

  /** What `write_response` leaves in memory and returns. */
  function Respond(mem: Bytes, out: i32, outLen: i32, data: Bytes): Response {
    var length := ReplyLength(|data|);
    if !InRange(|mem|, outLen, 4) then Response(mem, Err(OutOfBounds))
    else if length > DecodeI32(At(mem, outLen, 4)) then Response(Put(mem, outLen, EncodeI32(length)), Ok(2))
    else if !InRange(|mem|, out, AsU32(length)) then Response(mem, Err(OutOfBounds))
    else if AsU32(length) != |data| then Response(mem, Err(LengthsDiffer))
    else Response(Put(Put(mem, out, data), outLen, EncodeI32(length)), Ok(0))
  }

  /** A fault changes nothing; otherwise only the two named ranges change, and with code 2 only the length word. */
  lemma RespondFrame(mem: Bytes, out: i32, outLen: i32, data: Bytes)
    ensures var r := Respond(mem, out, outLen, data);
            && |r.mem| == |mem|
            && (r.result.Err? ==> r.mem == mem)
            && (forall k :: 0 <= k < |mem| && r.mem[k] != mem[k] ==>
                  Within(outLen, 4, k) || (r.result == Ok(0) && Within(out, |data|, k)))
  {
    var r := Respond(mem, out, outLen, data);
    if r.result == Ok(2) {
      PutAt(mem, outLen, EncodeI32(ReplyLength(|data|)));
    } else if r.result == Ok(0) {
      PutAt(mem, out, data);
      PutAt(Put(mem, out, data), outLen, EncodeI32(ReplyLength(|data|)));
    }
  }

  lemma WordReadsBack(mem: Bytes, ptr: i32, value: i32)
    requires InRange(|mem|, ptr, 4)
    ensures DecodeI32(At(Put(mem, ptr, EncodeI32(value)), ptr, 4)) == value
  {
    DecodeEncode(value);
    PutAt(mem, ptr, EncodeI32(value));
  }

  lemma AnswerEndsInItsLength(mem: Bytes, out: i32, outLen: i32, data: Bytes)
    requires Respond(mem, out, outLen, data).result.Ok?
    ensures exists before: Bytes ::
              && InRange(|before|, outLen, 4)
              && Respond(mem, out, outLen, data).mem == Put(before, outLen, EncodeI32(ReplyLength(|data|)))
  {
    var before := if Respond(mem, out, outLen, data).result == Ok(2) then mem else Put(mem, out, data);
    assert Respond(mem, out, outLen, data).mem == Put(before, outLen, EncodeI32(ReplyLength(|data|)));
  }

  /** Unless it faults, the call leaves the cast length in the length word: the size, exactly below 2^31 bytes. */
  lemma RespondTellsSize(mem: Bytes, out: i32, outLen: i32, data: Bytes)
    requires Respond(mem, out, outLen, data).result.Ok?
    ensures DecodeI32(At(Respond(mem, out, outLen, data).mem, outLen, 4)) == ReplyLength(|data|)
    ensures ReplyLength(|data|) == |data| <==> |data| < 0x8000_0000
  {
    AnswerEndsInItsLength(mem, out, outLen, data);
    var before: Bytes :| InRange(|before|, outLen, 4)
      && Respond(mem, out, outLen, data).mem == Put(before, outLen, EncodeI32(ReplyLength(|data|)));
    WordReadsBack(before, outLen, ReplyLength(|data|));
  }

  /**
   A reply is written only into a buffer announced as large enough exactly when
   it is smaller than 2^31 bytes: the length of a larger one counts as negative,
   and passes the check against any buffer.
   */
  lemma BufferIsRespectedIff(mem: Bytes, out: i32, outLen: i32, data: Bytes)
    requires Respond(mem, out, outLen, data).result == Ok(0) && DecodeI32(At(mem, outLen, 4)) >= 0
    ensures |data| <= DecodeI32(At(mem, outLen, 4)) <==> |data| < 0x8000_0000
  {
  }

  lemma ReplyByte(mem: Bytes, out: i32, outLen: i32, data: Bytes, j: nat)
    requires Respond(mem, out, outLen, data).result == Ok(0) && j < |data|
    ensures At(Respond(mem, out, outLen, data).mem, out, |data|)[j]
         == if Within(outLen, 4, AsU32(out) + j) then EncodeI32(ReplyLength(|data|))[AsU32(out) + j - AsU32(outLen)]
            else data[j]
  {
    PutAt(Put(mem, out, data), outLen, EncodeI32(ReplyLength(|data|)));
  }

  /** A reply that was written is intact exactly when the length word, where it overlaps the reply, equals it. */
  lemma ReplyIsIntactIff(mem: Bytes, out: i32, outLen: i32, data: Bytes)
    requires Respond(mem, out, outLen, data).result == Ok(0)
    ensures At(Respond(mem, out, outLen, data).mem, out, |data|) == data <==>
              forall j :: 0 <= j < |data| && Within(outLen, 4, AsU32(out) + j) ==>
                EncodeI32(ReplyLength(|data|))[AsU32(out) + j - AsU32(outLen)] == data[j]
  {
    forall j | 0 <= j < |data|
      ensures At(Respond(mem, out, outLen, data).mem, out, |data|)[j]
           == if Within(outLen, 4, AsU32(out) + j) then EncodeI32(ReplyLength(|data|))[AsU32(out) + j - AsU32(outLen)]
              else data[j]
    {
      ReplyByte(mem, out, outLen, data, j);
    }
  }

  /**
   A reply below 2^32 bytes is written exactly when its length, as a signed word,
   is at most the size announced in the length word, however large that is, and
   both ranges are within memory. It is refused with code 2 exactly when the size
   announced is smaller, whatever the buffer. Apart from the length word a written
   reply is in place, and the word then holds its length.
   */
  lemma AnswerIff(mem: Bytes, out: i32, outLen: i32, data: Bytes)
    requires |data| < 0x1_0000_0000
    ensures var r := Respond(mem, out, outLen, data);
            var signed := if |data| < 0x8000_0000 then |data| else |data| - 0x1_0000_0000;
            var wordThere := AsU32(outLen) + 4 <= |mem|;
            && (r.result == Ok(2) <==> wordThere && signed > DecodeI32(At(mem, outLen, 4)))
            && (r.result == Ok(0) <==> wordThere && signed <= DecodeI32(At(mem, outLen, 4))
                                       && AsU32(out) + |data| <= |mem|)
            && (r.result.Err? ==> r.result == Err(OutOfBounds) && r.mem == mem)
            && (r.result.Ok? ==> r.result.value in {0, 2} && DecodeI32(At(r.mem, outLen, 4)) == signed)
            && (r.result == Ok(0) && Disjoint(out, |data|, outLen, 4) ==> At(r.mem, out, |data|) == data)
  {
    var r := Respond(mem, out, outLen, data);
    RespondFrame(mem, out, outLen, data);
    if r.result.Ok? {
      RespondTellsSize(mem, out, outLen, data);
    }
    if r.result == Ok(0) {
      ReplyIsIntactIff(mem, out, outLen, data);
    }
  }

  /**
   The protocol guests follow: after code 2 the length word holds the cast size,
   and one more call with a buffer of the reply's size, apart from the word,
   returns 0 with the reply in it, exactly for replies below 2^32 bytes.
   */
  lemma RetrySucceeds(mem: Bytes, out: i32, outLen: i32, data: Bytes, buffer: i32)
    requires Respond(mem, out, outLen, data).result == Ok(2)
    requires InRange(|mem|, buffer, |data|) && Disjoint(buffer, |data|, outLen, 4)
    ensures var asked := Respond(mem, out, outLen, data).mem;
            var again := Respond(asked, buffer, outLen, data);
            && DecodeI32(At(asked, outLen, 4)) == ReplyLength(|data|)
            && again.result == (if |data| < U32 then Ok(0) else Err(LengthsDiffer))
            && (|data| < U32 ==>
                  At(again.mem, buffer, |data|) == data && DecodeI32(At(again.mem, outLen, 4)) == ReplyLength(|data|))
  {
    var asked := Respond(mem, out, outLen, data).mem;
    RespondTellsSize(mem, out, outLen, data);
    if |data| < U32 {
      RespondTellsSize(asked, buffer, outLen, data);
      ReplyIsIntactIff(asked, buffer, outLen, data);
    }
  }

  // ---------------------------------------------------------------------
  // The code
  // ---------------------------------------------------------------------

  method CopyInto(mem: array<byte>, ptr: i32, data: Bytes)
    requires InRange(mem.Length, ptr, |data|)
    modifies mem
    ensures mem[..] == Put(old(mem[..]), ptr, data)
  {
    var start := AsU32(ptr);
    for i := 0 to |data|
      invariant forall k :: 0 <= k < mem.Length ==>
        mem[k] == if start <= k < start + i then data[k - start] else old(mem[k])
    {
      mem[start + i] := data[i];
    }
  }

  method ReadI32(mem: array<byte>, ptr: i32) returns (r: Result<i32, Fault>)
    ensures r == if InRange(mem.Length, ptr, 4) then Ok(DecodeI32(At(mem[..], ptr, 4))) else Err(OutOfBounds)
  {
    if !InRange(mem.Length, ptr, 4) {
      return Err(OutOfBounds);
    }
    var start := AsU32(ptr);
    assert mem[start..start + 4] == At(mem[..], ptr, 4);
    r := Ok(DecodeI32(mem[start..start + 4]));
  }

  method WriteI32(mem: array<byte>, ptr: i32, value: i32) returns (ok: bool)
    modifies mem
    ensures ok <==> InRange(mem.Length, ptr, 4)
    ensures mem[..] == if ok then Put(old(mem[..]), ptr, EncodeI32(value)) else old(mem[..])
  {
    ok := InRange(mem.Length, ptr, 4);
    if ok {
      CopyInto(mem, ptr, EncodeI32(value));
    }
  }

  method WriteResponse(mem: array<byte>, out: i32, outLen: i32, data: Bytes) returns (r: Result<int, Fault>)
    modifies mem
    ensures Response(mem[..], r) == Respond(old(mem[..]), out, outLen, data)
  {
    var length := ReplyLength(|data|);
    var size := ReadI32(mem, outLen);
    if size.Err? {
      return Err(size.error);
    }
    if length > size.value {
      var told := WriteI32(mem, outLen, length);
      return if told then Ok(2) else Err(OutOfBounds);
    }
    if !InRange(mem.Length, out, AsU32(length)) {
      return Err(OutOfBounds);
    }
    if AsU32(length) != |data| {
      return Err(LengthsDiffer);
    }
    CopyInto(mem, out, data);
    var told := WriteI32(mem, outLen, length);
    r := if told then Ok(0) else Err(OutOfBounds);
  }
}
