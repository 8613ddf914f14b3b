/** Frames of the WebSocket protocol (sections 5.2 and 5.3 of RFC 6455) over a socket that returns what has
    arrived so far. */
module WebSocket {
  import opened Options

  type byte = x: int | 0 <= x < 256

  // Bitwise exclusive or of the lowest n bits.
  function XorBits(a: nat, b: nat, n: nat): nat {
    if n == 0 then 0 else (a + b) % 2 + 2 * XorBits(a / 2, b / 2, n - 1)
  }

  function Pow2(n: nat): nat {
    if n == 0 then 1 else 2 * Pow2(n - 1)
  }

  lemma {:induction false} XorTwice(a: nat, b: nat, n: nat)
    requires a < Pow2(n)
    ensures XorBits(a, b, n) < Pow2(n) && XorBits(XorBits(a, b, n), b, n) == a
  {
    if n > 0 {
      XorTwice(a / 2, b / 2, n - 1);
      XorBit(a, b, XorBits(a / 2, b / 2, n - 1));
    }
  }

  lemma XorBit(a: nat, b: nat, x: nat)
    ensures var bit := (a + b) % 2; (bit + 2 * x) / 2 == x && (bit + 2 * x + b) % 2 == a % 2
  {}

  lemma EightBits()
    ensures Pow2(8) == 256
  {}

  function Xor(a: byte, b: byte): byte {
    EightBits();
    XorTwice(a, b, 8);
    XorBits(a, b, 8)
  }

  // Fails, like an index out of range, when the key is too short for the payload.
  function Masked(payload: seq<byte>, key: seq<byte>): seq<byte>
    requires |key| == 4
  {
    seq(|payload|, i requires 0 <= i < |payload| => Xor(payload[i], key[i % 4]))
  }

  // Big-endian, most significant byte first.
  function Pack(value: nat, size: nat): seq<byte> {
    if size == 0 then [] else Pack(value / 256, size - 1) + [value % 256]
  }

  function Unpack(bytes: seq<byte>): nat {
    if bytes == [] then 0 else 256 * Unpack(bytes[..|bytes| - 1]) + bytes[|bytes| - 1]
  }

  function Pow256(n: nat): nat {
    if n == 0 then 1 else 256 * Pow256(n - 1)
  }

  // ------------------------------------------------------------------ the wire

  datatype Frame = Frame(opcode: nat, key: Option<seq<byte>>, payload: seq<byte>)

  predicate Keyed(f: Frame) {
    f.key.Some? ==> |f.key.value| == 4
  }

  const LIMIT := 0x1_0000_0000_0000_0000

  predicate Fits(f: Frame) {
    Keyed(f) && |f.payload| < LIMIT
  }

  function LengthCode(length: nat): nat {
    if length < 126 then length else if length < 65536 then 126 else 127
  }

  function LengthBytes(length: nat): seq<byte> {
    if length < 126 then [] else if length < 65536 then Pack(length, 2) else Pack(length, 8)
  }

  function Header(f: Frame): seq<byte> {
    [128 + f.opcode % 16, (if f.key.Some? then 128 else 0) + LengthCode(|f.payload|)]
  }

  function Body(f: Frame): seq<byte>
    requires Keyed(f)
  {
    if f.key.Some? then Masked(f.payload, f.key.value) else f.payload
  }

  function KeyBytes(f: Frame): seq<byte> {
    if f.key.Some? then f.key.value else []
  }

  function Wire(f: Frame): seq<byte>
    requires Keyed(f)
  {
    Header(f) + LengthBytes(|f.payload|) + KeyBytes(f) + Body(f)
  }

  // ------------------------------------------------------------------ reading

  // The k-th read returns at most Chunk(k) bytes, at least one when any is left.
  type Schedule = nat -> nat

  datatype Input = Input(bytes: seq<byte>, calls: nat)

  function Min(a: nat, b: nat): nat {
    if a < b then a else b
  }

  function Granted(schedule: Schedule, s: Input, n: nat): (size: nat)
    ensures size <= n && size <= |s.bytes| && (n > 0 && s.bytes != [] ==> size > 0)
  {
    var chunk := schedule(s.calls);
    Min(Min(n, |s.bytes|), if chunk == 0 then 1 else chunk)
  }

  function Taken(schedule: Schedule, s: Input, n: nat): seq<byte> {
    s.bytes[..Granted(schedule, s, n)]
  }

  function After(schedule: Schedule, s: Input, n: nat): Input {
    Input(s.bytes[Granted(schedule, s, n)..], s.calls + 1)
  }

  // Read on until the length is reached or nothing is left.
  function Gather(schedule: Schedule, s: Input, length: nat): (r: (seq<byte>, Input))
    ensures |r.0| <= length && |r.0| + |r.1.bytes| == |s.bytes|
    decreases length
  {
    if length == 0 then ([], s)
    else
      var chunk := Taken(schedule, s, length);
      if chunk == [] then ([], After(schedule, s, length))
      else
        var rest := Gather(schedule, After(schedule, s, length), length - |chunk|);
        (chunk + rest.0, rest.1)
  }

  // However the payload arrives, it is put together from the bytes next in line.
  lemma {:induction false} GatherIsPrefix(schedule: Schedule, s: Input, length: nat)
    ensures Gather(schedule, s, length).0 == s.bytes[..Min(length, |s.bytes|)]
    ensures Gather(schedule, s, length).1.bytes == s.bytes[Min(length, |s.bytes|)..]
    decreases length
  {
    hide Granted, Gather;
    var size, whole := Granted(schedule, s, length), Min(length, |s.bytes|);
    GatherStep(schedule, s, length);
    if length > 0 && size > 0 {
      GatherIsPrefix(schedule, After(schedule, s, length), length - size);
      TakeTwice(s.bytes, size, whole);
    }
  }

  lemma GatherStep(schedule: Schedule, s: Input, length: nat)
    ensures var size := Granted(schedule, s, length);
            if length == 0 then Gather(schedule, s, length) == ([], s)
            else if size == 0 then Gather(schedule, s, length) == ([], After(schedule, s, length)) && s.bytes == []
            else
              var rest := Gather(schedule, After(schedule, s, length), length - size);
              Gather(schedule, s, length) == (s.bytes[..size] + rest.0, rest.1)
  {}

  lemma TakeTwice(s: seq<byte>, a: nat, b: nat)
    requires a <= b <= |s|
    ensures s[..a] + s[a..][..b - a] == s[..b] && s[a..][b - a..] == s[b..]
  {}

  datatype Result<+T> = Ok(value: T) | Failed

  // The extended length: a short read cannot be unpacked.
  function ReadLength(schedule: Schedule, s: Input, code: nat): (r: (Result<nat>, Input))
    ensures |r.1.bytes| <= |s.bytes|
  {
    var size := if code == 126 then 2 else if code == 127 then 8 else 0;
    if size == 0 then (Ok(code), s)
    else
      var bytes := Taken(schedule, s, size);
      (if |bytes| == size then Ok(Unpack(bytes)) else Failed, After(schedule, s, size))
  }

  // A key that arrived short unmasks only what it covers; no key at all unmasks nothing.
  function Unmask(payload: seq<byte>, key: seq<byte>): Result<seq<byte>> {
    if key == [] then Ok(payload)
    else if |key| == 4 then Ok(Masked(payload, key))
    else if |payload| > |key| then Failed
    else Ok(seq(|payload|, i requires 0 <= i < |payload| => Xor(payload[i], key[i])))
  }

  function ReadBody(schedule: Schedule, s: Input, opcode: nat, masked: bool, length: nat)
    : (r: (Result<(nat, seq<byte>)>, Input))
    ensures |r.1.bytes| <= |s.bytes|
    ensures r.0.Ok? ==> r.0.value.0 == opcode && |r.0.value.1| <= length
  {
    var key := if masked then Taken(schedule, s, 4) else [];
    var (payload, s') := Gather(schedule, if masked then After(schedule, s, 4) else s, length);
    var plain := Unmask(payload, key);
    (if plain.Ok? then Ok((opcode, plain.value)) else Failed, s')
  }

  function ReadRest(schedule: Schedule, s: Input, opcode: nat, masked: bool, code: nat)
    : (r: (Result<(nat, seq<byte>)>, Input))
    ensures |r.1.bytes| <= |s.bytes| && (r.0.Ok? ==> r.0.value.0 == opcode)
  {
    var (length, s') := ReadLength(schedule, s, code);
    if length.Failed? then (Failed, s') else ReadBody(schedule, s', opcode, masked, length.value)
  }

  function Read(schedule: Schedule, s: Input): (r: (Result<(nat, seq<byte>)>, Input))
    ensures r.0.Ok? ==> r.0.value.0 < 16
    ensures s.bytes != [] ==> |r.1.bytes| < |s.bytes|
    ensures s.bytes == [] ==> r.0 == Ok((0, [])) && r.1.bytes == []
  {
    var header := Taken(schedule, s, 2);
    var s1 := After(schedule, s, 2);
    if |header| < 2 then (Ok((0, [])), s1)
    else ReadRest(schedule, s1, header[0] % 16, header[1] >= 128, header[1] % 128)
  }

  // ------------------------------------------------------------------ the echo session

  // What decoding a text payload leads to.
  datatype Reply = Echo(payload: seq<byte>) | Silent | Raises

  type Decoder = seq<byte> -> Reply

  datatype Action = Close | Send(frame: Frame) | Ignore | Abort

  function ActionOf(decode: Decoder, opcode: nat, payload: seq<byte>): (action: Action)
    ensures action.Send? ==> action.frame.key == None && action.frame.opcode < 16
  {
    if opcode == 8 then Close
    else if opcode == 9 then Send(Frame(10, None, payload))
    else if opcode != 1 then Ignore
    else
      match decode(payload)
      case Echo(text) => Send(Frame(1, None, text))
      case Silent => Ignore
      case Raises => Abort
  }

  // Spinning: the peer is gone without a close frame and the loop reads nothing for ever.
  datatype Outcome = Closed | Aborted | Spinning

  function Session(decode: Decoder, schedule: Schedule, s: Input): (Outcome, seq<Frame>, Input)
    decreases |s.bytes|
  {
    if s.bytes == [] then (Spinning, [], s)
    else
      var (got, s') := Read(schedule, s);
      if got.Failed? then (Aborted, [], s')
      else
        match ActionOf(decode, got.value.0, got.value.1)
        case Close => (Closed, [Frame(8, None, [])], s')
        case Abort => (Aborted, [], s')
        case Ignore => Session(decode, schedule, s')
        case Send(frame) =>
          if !Fits(frame) then (Aborted, [], s')
          else
            var rest := Session(decode, schedule, s');
            (rest.0, [frame] + rest.1, rest.2)
  }

  predicate AllKeyed(frames: seq<Frame>) {
    forall i | 0 <= i < |frames| :: Keyed(frames[i])
  }

  function WireAll(frames: seq<Frame>): seq<byte>
    requires AllKeyed(frames)
  {
    if frames == [] then [] else Wire(frames[0]) + WireAll(frames[1..])
  }
}
