/** Round trips of the frame codec, frame streams, and the echo session. */
module WebSocketProofs {
  import opened Options
  import opened WebSocket

  // ------------------------------------------------------------------ masking and lengths

  lemma MaskTwice(payload: seq<byte>, key: seq<byte>)
    requires |key| == 4
    ensures Masked(Masked(payload, key), key) == payload
  {
    var masked := Masked(payload, key);
    forall i | 0 <= i < |payload|
      ensures Masked(masked, key)[i] == payload[i]
    {
      EightBits();
      XorTwice(payload[i], key[i % 4], 8);
    }
  }

  lemma {:induction false} PackUnpack(value: nat, size: nat)
    requires value < Pow256(size)
    ensures |Pack(value, size)| == size && Unpack(Pack(value, size)) == value
  {
    if size > 0 {
      PackUnpack(value / 256, size - 1);
      var bytes := Pack(value, size);
      assert bytes[..size - 1] == Pack(value / 256, size - 1);
    }
  }

  lemma Powers()
    ensures Pow256(2) == 65536 && Pow256(8) == LIMIT
  {
    assert Pow256(4) == 65536 * 65536;
    assert Pow256(8) == 256 * (256 * (256 * (256 * Pow256(4))));
  }

  lemma LengthRoundTrip(length: nat)
    requires length < LIMIT
    ensures var code := LengthCode(length);
            && |LengthBytes(length)| == (if code == 126 then 2 else if code == 127 then 8 else 0)
            && (code < 126 ==> code == length) && (code >= 126 ==> Unpack(LengthBytes(length)) == length)
  {
    Powers();
    if 126 <= length < 65536 {
      PackUnpack(length, 2);
    } else if length >= 65536 {
      PackUnpack(length, 8);
    }
  }

  // ------------------------------------------------------------------ one frame

  ghost predicate Delivers(schedule: Schedule, call: nat, n: nat) {
    n <= 1 || schedule(call) >= n
  }

  // A read asks for all of the next part and gets it exactly when the chunk is large enough.
  lemma NextPart(schedule: Schedule, s: Input, part: seq<byte>, rest: seq<byte>)
    requires s.bytes == part + rest && part != []
    ensures Delivers(schedule, s.calls, |part|) ==>
              Taken(schedule, s, |part|) == part && After(schedule, s, |part|) == Input(rest, s.calls + 1)
    ensures !Delivers(schedule, s.calls, |part|) ==>
              0 < Granted(schedule, s, |part|) < |part|
  {}

  function LengthCalls(f: Frame): nat {
    if |f.payload| < 126 then 0 else 1
  }

  // The two bytes of the header, the extended length and the key each arrive in one piece.
  ghost predicate Whole(f: Frame, schedule: Schedule, call: nat) {
    && Delivers(schedule, call, 2)
    && Delivers(schedule, call + 1, |LengthBytes(|f.payload|)|)
    && (f.key.Some? ==> Delivers(schedule, call + 1 + LengthCalls(f), 4))
  }

  lemma BodyRead(f: Frame, schedule: Schedule, s: Input, opcode: nat, rest: seq<byte>)
    requires Keyed(f) && s.bytes == KeyBytes(f) + Body(f) + rest
    ensures var (got, s') := ReadBody(schedule, s, opcode, f.key.Some?, |f.payload|);
            (got == Ok((opcode, f.payload)) && s'.bytes == rest) <==> (f.key.Some? ==> Delivers(schedule, s.calls, 4))
  {
    hide Gather, Granted, Delivers;
    if f.key.Some? {
      assert s.bytes == f.key.value + (Body(f) + rest);
      NextPart(schedule, s, f.key.value, Body(f) + rest);
      GatherIsPrefix(schedule, After(schedule, s, 4), |f.payload|);
      MaskTwice(f.payload, f.key.value);
    } else {
      assert s.bytes == f.payload + rest;
      GatherIsPrefix(schedule, s, |f.payload|);
    }
  }

  lemma RestRead(f: Frame, schedule: Schedule, s: Input, opcode: nat, rest: seq<byte>)
    requires Fits(f) && s.bytes == LengthBytes(|f.payload|) + (KeyBytes(f) + Body(f) + rest)
    ensures var (got, s') := ReadRest(schedule, s, opcode, f.key.Some?, LengthCode(|f.payload|));
            (got == Ok((opcode, f.payload)) && s'.bytes == rest) <==>
            && Delivers(schedule, s.calls, |LengthBytes(|f.payload|)|)
            && (f.key.Some? ==> Delivers(schedule, s.calls + LengthCalls(f), 4))
  {
    hide ReadBody, Body, Delivers, LengthBytes, Granted;
    var length, tail := LengthBytes(|f.payload|), KeyBytes(f) + Body(f) + rest;
    LengthRoundTrip(|f.payload|);
    if |f.payload| < 126 {
      assert length == [] && s.bytes == tail;
      NoPart(schedule, s.calls);
      BodyRead(f, schedule, s, opcode, rest);
    } else {
      NextPart(schedule, s, length, tail);
      if Delivers(schedule, s.calls, |length|) {
        BodyRead(f, schedule, Input(tail, s.calls + 1), opcode, rest);
      }
    }
  }

  lemma NoPart(schedule: Schedule, call: nat)
    ensures Delivers(schedule, call, 0)
  {}

  // Reading a frame gives back its opcode and payload, and leaves what follows, exactly when no read
  // splits the parts of fixed size; how the payload is chunked never matters.
  lemma FrameRoundTrip(f: Frame, schedule: Schedule, s: Input, rest: seq<byte>)
    requires Fits(f) && s.bytes == Wire(f) + rest
    ensures var (got, s') := Read(schedule, s);
            && ((got == Ok((f.opcode % 16, f.payload)) && s'.bytes == rest) <==> Whole(f, schedule, s.calls))
            && ((got == Ok((f.opcode, f.payload)) && s'.bytes == rest)
                 <==> Whole(f, schedule, s.calls) && f.opcode < 16)
  {
    hide ReadRest, Body, LengthBytes, Granted;
    var tail := LengthBytes(|f.payload|) + (KeyBytes(f) + Body(f) + rest);
    assert s.bytes == Header(f) + tail;
    NextPart(schedule, s, Header(f), tail);
    if Delivers(schedule, s.calls, 2) {
      RestRead(f, schedule, Input(tail, s.calls + 1), f.opcode % 16, rest);
    }
  }

  // ------------------------------------------------------------------ frame streams

  ghost predicate AllFit(frames: seq<Frame>) {
    forall i | 0 <= i < |frames| :: Fits(frames[i])
  }

  ghost predicate AllWhole(frames: seq<Frame>, schedule: Schedule, s: Input) {
    frames == [] || (Whole(frames[0], schedule, s.calls) && AllWhole(frames[1..], schedule, Read(schedule, s).1))
  }

  function ReadMany(schedule: Schedule, s: Input, n: nat): (seq<Result<(nat, seq<byte>)>>, Input)
    decreases n
  {
    if n == 0 then ([], s)
    else
      var first := Read(schedule, s);
      var rest := ReadMany(schedule, first.1, n - 1);
      ([first.0] + rest.0, rest.1)
  }

  function Contents(frames: seq<Frame>): seq<Result<(nat, seq<byte>)>> {
    seq(|frames|, i requires 0 <= i < |frames| => Ok((frames[i].opcode % 16, frames[i].payload)))
  }

  lemma NeverEmpty(f: Frame)
    requires Keyed(f)
    ensures Wire(f) != []
  {}

  // The head of a stream is read as its first frame and leaves the others.
  lemma HeadRead(frames: seq<Frame>, schedule: Schedule, s: Input, rest: seq<byte>)
    requires frames != [] && AllFit(frames) && AllWhole(frames, schedule, s) && s.bytes == WireAll(frames) + rest
    ensures Read(schedule, s).0 == Ok((frames[0].opcode % 16, frames[0].payload))
    ensures Read(schedule, s).1.bytes == WireAll(frames[1..]) + rest
            && AllWhole(frames[1..], schedule, Read(schedule, s).1)
    ensures s.bytes != []
  {
    hide Read, Whole, Wire;
    assert s.bytes == Wire(frames[0]) + (WireAll(frames[1..]) + rest);
    NeverEmpty(frames[0]);
    FrameRoundTrip(frames[0], schedule, s, WireAll(frames[1..]) + rest);
  }

  // A socket that never returns fewer than eight bytes it has splits no part of fixed size.
  lemma {:induction false} GenerousReadsAreWhole(frames: seq<Frame>, schedule: Schedule, s: Input)
    requires AllFit(frames) && forall call :: schedule(call) >= 8
    ensures AllWhole(frames, schedule, s)
    decreases |frames|
  {
    hide Read, LengthBytes;
    if frames != [] {
      LengthRoundTrip(|frames[0].payload|);
      GenerousReadsAreWhole(frames[1..], schedule, Read(schedule, s).1);
    }
  }

  // A concatenation of frames is read back as the list of frames.
  lemma {:induction false} StreamRoundTrip(frames: seq<Frame>, schedule: Schedule, s: Input, rest: seq<byte>)
    requires AllFit(frames) && AllWhole(frames, schedule, s) && s.bytes == WireAll(frames) + rest
    ensures ReadMany(schedule, s, |frames|).0 == Contents(frames)
    ensures ReadMany(schedule, s, |frames|).1.bytes == rest
  {
    hide Read, Whole, Wire;
    if frames != [] {
      HeadRead(frames, schedule, s, rest);
      StreamRoundTrip(frames[1..], schedule, Read(schedule, s).1, rest);
    }
  }

  // ------------------------------------------------------------------ the echo session

  // What a frame before the close deserves: a pong for a ping, an echo for decodable input, else nothing.
  function ReplyTo(decode: Decoder, f: Frame): seq<Frame> {
    if f.opcode % 16 == 9 then [Frame(10, None, f.payload)]
    else if f.opcode % 16 == 1 && decode(f.payload).Echo? then [Frame(1, None, decode(f.payload).payload)]
    else []
  }

  // Decoding it does not raise, and the reply fits a frame.
  ghost predicate Answerable(decode: Decoder, f: Frame) {
    (f.opcode % 16 == 1 ==> !decode(f.payload).Raises?) && forall reply <- ReplyTo(decode, f) :: Fits(reply)
  }

  function Replies(decode: Decoder, frames: seq<Frame>): seq<Frame> {
    if frames == [] then [] else ReplyTo(decode, frames[0]) + Replies(decode, frames[1..])
  }

  lemma SessionStep(decode: Decoder, schedule: Schedule, s: Input, f: Frame)
    requires s.bytes != [] && Read(schedule, s).0 == Ok((f.opcode % 16, f.payload)) && f.opcode % 16 != 8
    ensures var rest := Session(decode, schedule, Read(schedule, s).1);
            Session(decode, schedule, s) ==
              if !Answerable(decode, f) then (Aborted, [], Read(schedule, s).1)
              else (rest.0, ReplyTo(decode, f) + rest.1, rest.2)
  {
    hide Read;
    var rest := Session(decode, schedule, Read(schedule, s).1);
    assert [] + rest.1 == rest.1;
    var action := ActionOf(decode, f.opcode % 16, f.payload);
    assert ReplyTo(decode, f) == if action.Send? then [action.frame] else [];
  }

  // Up to the close frame every ping is answered by a pong with its payload, every decodable input is
  // echoed, everything else is ignored, in order; then the session closes. It closes exactly when no
  // frame before the close makes the handler raise.
  lemma {:induction false} EchoSession(decode: Decoder, schedule: Schedule, s: Input, frames: seq<Frame>,
                                       last: Frame, rest: seq<byte>)
    requires AllFit(frames + [last]) && AllWhole(frames + [last], schedule, s)
    requires s.bytes == WireAll(frames + [last]) + rest
    requires last.opcode % 16 == 8 && forall i | 0 <= i < |frames| :: frames[i].opcode % 16 != 8
    ensures Session(decode, schedule, s).0 ==
            if forall i | 0 <= i < |frames| :: Answerable(decode, frames[i]) then Closed else Aborted
    ensures Session(decode, schedule, s).0.Closed? ==>
              && Session(decode, schedule, s).1 == Replies(decode, frames) + [Frame(8, None, [])]
              && Session(decode, schedule, s).2.bytes == rest
    decreases |frames|
  {
    hide Read, Whole, Wire, Answerable, AllWhole;
    var all := frames + [last];
    HeadRead(all, schedule, s, rest);
    if frames == [] {
      assert all[1..] == [];
    } else {
      assert all[1..] == frames[1..] + [last];
      SessionStep(decode, schedule, s, frames[0]);
      EchoSession(decode, schedule, Read(schedule, s).1, frames[1..], last, rest);
    }
  }

  // Without a close frame the session never closes: it spins once the peer has gone, or it aborts.
  lemma {:induction false} NoCloseNeverCloses(decode: Decoder, schedule: Schedule, s: Input, frames: seq<Frame>)
    requires AllFit(frames) && AllWhole(frames, schedule, s) && s.bytes == WireAll(frames)
    requires forall i | 0 <= i < |frames| :: frames[i].opcode % 16 != 8
    ensures Session(decode, schedule, s).0 ==
            if forall i | 0 <= i < |frames| :: Answerable(decode, frames[i]) then Spinning else Aborted
    decreases |frames|
  {
    hide Read, Whole, Wire, Answerable, AllWhole;
    if frames != [] {
      assert s.bytes == WireAll(frames) + [];
      HeadRead(frames, schedule, s, []);
      SessionStep(decode, schedule, s, frames[0]);
      NoCloseNeverCloses(decode, schedule, Read(schedule, s).1, frames[1..]);
    }
  }
}
