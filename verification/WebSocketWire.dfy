/** The wire described bit by bit (sections 5.2 and 5.3 of RFC 6455), and the codec against that description. */
module WebSocketWire {
  import opened Options
  import opened WebSocket
  import opened WebSocketProofs

  // ------------------------------------------------------------------ bits

  // Bit i of x, the lowest one being bit 0.
  predicate Bit(x: nat, i: nat) {
    if i == 0 then x % 2 == 1 else Bit(x / 2, i - 1)
  }

  lemma {:induction false} XorBitsAt(a: nat, b: nat, n: nat, i: nat)
    requires i < n
    ensures Bit(XorBits(a, b, n), i) <==> Bit(a, i) != Bit(b, i)
  {
    var rest := XorBits(a / 2, b / 2, n - 1);
    assert XorBits(a, b, n) == (a + b) % 2 + 2 * rest;
    if i > 0 {
      XorBitsAt(a / 2, b / 2, n - 1, i - 1);
      assert XorBits(a, b, n) / 2 == rest;
    }
  }

  // Numbers below 2^n are told apart by their lowest n bits.
  lemma {:induction false} SameBits(a: nat, b: nat, n: nat)
    requires a < Pow2(n) && b < Pow2(n) && forall i | 0 <= i < n :: Bit(a, i) == Bit(b, i)
    ensures a == b
  {
    if n > 0 {
      assert Bit(a, 0) == Bit(b, 0);
      forall i | 0 <= i < n - 1
        ensures Bit(a / 2, i) == Bit(b / 2, i)
      {
        assert Bit(a, i + 1) == Bit(b, i + 1);
      }
      SameBits(a / 2, b / 2, n - 1);
    }
  }

  // x is the bitwise exclusive or of a and b.
  ghost predicate IsXor(x: byte, a: byte, b: byte) {
    forall i | 0 <= i < 8 :: Bit(x, i) <==> Bit(a, i) != Bit(b, i)
  }

  lemma XorExactly(x: byte, a: byte, b: byte)
    ensures IsXor(x, a, b) <==> x == Xor(a, b)
  {
    hide Bit, XorBits;
    EightBits();
    XorTwice(a, b, 8);
    forall i | 0 <= i < 8
      ensures Bit(Xor(a, b), i) <==> Bit(a, i) != Bit(b, i)
    {
      XorBitsAt(a, b, 8, i);
    }
    if IsXor(x, a, b) {
      SameBits(x, Xor(a, b), 8);
    }
  }

  // Byte j is combined with byte j mod 4 of the key.
  ghost predicate IsMasked(x: seq<byte>, payload: seq<byte>, key: seq<byte>)
    requires |key| == 4
  {
    |x| == |payload| && forall j | 0 <= j < |x| && j < |payload| :: IsXor(x[j], payload[j], key[j % 4])
  }

  lemma MaskedExactly(x: seq<byte>, payload: seq<byte>, key: seq<byte>)
    requires |key| == 4
    ensures IsMasked(x, payload, key) <==> x == Masked(payload, key)
  {
    hide IsXor, Xor;
    var masked := Masked(payload, key);
    forall j | 0 <= j < |x| && j < |payload|
      ensures IsXor(x[j], payload[j], key[j % 4]) <==> x[j] == masked[j]
    {
      XorExactly(x[j], payload[j], key[j % 4]);
    }
    if IsMasked(x, payload, key) {
      assert x == masked;
    }
  }

  // A key that covers the payload unmasks it, however short it arrived; no key at all leaves it as it is.
  lemma UnmaskExactly(payload: seq<byte>, key: seq<byte>)
    requires |key| <= 4
    ensures Unmask(payload, key).Ok? <==> key == [] || forall j | 0 <= j < |payload| :: j % 4 < |key|
    ensures Unmask(payload, key).Ok? ==>
              var plain := Unmask(payload, key).value;
              && |plain| == |payload|
              && forall j | 0 <= j < |payload| ::
                   if key == [] then plain[j] == payload[j]
                   else j % 4 < |key| && IsXor(plain[j], payload[j], key[j % 4])
  {
    hide IsXor, Xor;
    if key != [] && |payload| > |key| {
      assert |key| < 4 ==> |key| % 4 == |key|;
    }
    if key != [] && Unmask(payload, key).Ok? {
      var plain := Unmask(payload, key).value;
      forall j | 0 <= j < |payload|
        ensures j % 4 < |key| && IsXor(plain[j], payload[j], key[j % 4])
      {
        assert |key| < 4 ==> j % 4 == j;
        XorExactly(plain[j], payload[j], key[j % 4]);
      }
    }
  }

  // ------------------------------------------------------------------ lengths

  // Most significant byte first.
  function BigEndian(s: seq<byte>): nat {
    if s == [] then 0 else s[0] * Pow256(|s| - 1) + BigEndian(s[1..])
  }

  lemma {:induction false} BigEndianIsUnpack(s: seq<byte>)
    ensures BigEndian(s) == Unpack(s)
  {
    if |s| == 1 {
      assert s[1..] == [] && s[..0] == [];
      assert Pow256(0) == 1;
    } else if s != [] {
      var n := |s| - 1;
      var middle := s[1..n];
      BigEndianIsUnpack(s[1..]);
      BigEndianIsUnpack(s[..n]);
      BigEndianIsUnpack(middle);
      assert s[1..][..n - 1] == middle && s[..n][1..] == middle && s[1..][n - 1] == s[n];
      Shifted(s[0], Pow256(n - 1), Unpack(middle), s[n]);
    }
  }

  lemma Shifted(a: nat, p: nat, u: nat, last: nat)
    ensures a * (256 * p) + (256 * u + last) == 256 * (a * p + u) + last
  {}

  lemma {:induction false} PackOfUnpack(s: seq<byte>)
    ensures Pack(Unpack(s), |s|) == s
  {
    if s != [] {
      var n := |s| - 1;
      PackOfUnpack(s[..n]);
      assert Unpack(s) / 256 == Unpack(s[..n]) && Unpack(s) % 256 == s[n];
      assert s == s[..n] + [s[n]];
    }
  }

  // size bytes that say length.
  lemma LengthExactly(bytes: seq<byte>, length: nat, size: nat)
    requires length < Pow256(size) && |bytes| == size
    ensures BigEndian(bytes) == length <==> bytes == Pack(length, size)
  {
    BigEndianIsUnpack(bytes);
    PackOfUnpack(bytes);
    PackUnpack(length, size);
  }

  // ------------------------------------------------------------------ frames

  function LengthSize(length: nat): nat {
    if length < 126 then 0 else if length < 65536 then 2 else 8
  }

  function KeySize(f: Frame): nat {
    if f.key.Some? then 4 else 0
  }

  // The header: final, no reserved bits, the opcode; masked or not, and the length or its escape.
  predicate IsHeader(first: byte, second: byte, f: Frame) {
    && first / 128 == 1 && first / 16 % 8 == 0 && first % 16 == f.opcode % 16
    && (second / 128 == 1 <==> f.key.Some?)
    && second % 128 == (if LengthSize(|f.payload|) == 2 then 126 else if LengthSize(|f.payload|) == 8 then 127
                        else |f.payload|)
  }

  // Header, extended length, key, and payload, masked if there is a key.
  ghost predicate IsFrame(bytes: seq<byte>, f: Frame)
    requires Keyed(f)
  {
    var key := 2 + LengthSize(|f.payload|);
    var body := key + KeySize(f);
    && |bytes| == body + |f.payload|
    && IsHeader(bytes[0], bytes[1], f)
    && (key > 2 ==> BigEndian(bytes[2..key]) == |f.payload|)
    && (match f.key
        case Some(k) => bytes[key..body] == k && IsMasked(bytes[body..], f.payload, k)
        case None => bytes[body..] == f.payload)
  }

  lemma HeaderExactly(first: byte, second: byte, f: Frame)
    ensures IsHeader(first, second, f) <==> [first, second] == Header(f)
  {}

  lemma LengthBytesExactly(bytes: seq<byte>, length: nat)
    requires length < LIMIT && |bytes| == LengthSize(length)
    ensures (bytes != [] ==> BigEndian(bytes) == length) <==> bytes == LengthBytes(length)
  {
    Powers();
    if LengthSize(length) > 0 {
      LengthExactly(bytes, length, LengthSize(length));
      PackUnpack(length, LengthSize(length));
    }
  }

  lemma InParts(bytes: seq<byte>, a: nat, b: nat, c: nat)
    requires a <= b <= c <= |bytes|
    ensures bytes == bytes[..a] + bytes[a..b] + bytes[b..c] + bytes[c..]
  {}

  lemma PartsAre(h: seq<byte>, l: seq<byte>, k: seq<byte>, b: seq<byte>)
    ensures var s := h + l + k + b;
            && s[..|h|] == h && s[|h|..|h| + |l|] == l && s[|h| + |l|..|h| + |l| + |k|] == k
            && s[|h| + |l| + |k|..] == b
  {}

  // The wire of a frame is the one sequence of bytes so described.
  lemma WireExactly(bytes: seq<byte>, f: Frame)
    requires Fits(f)
    ensures IsFrame(bytes, f) <==> bytes == Wire(f)
  {
    hide Header, LengthBytes, IsHeader, BigEndian, IsMasked, Masked;
    var key := 2 + LengthSize(|f.payload|);
    var body := key + KeySize(f);
    assert |Header(f)| == 2 by {
      HeaderSize(f);
    }
    LengthBytesSize(|f.payload|);
    PartsAre(Header(f), LengthBytes(|f.payload|), KeyBytes(f), Body(f));
    BodySize(f);
    if |bytes| == body + |f.payload| {
      InParts(bytes, 2, key, body);
      HeaderExactly(bytes[0], bytes[1], f);
      assert bytes[..2] == [bytes[0], bytes[1]];
      LengthBytesExactly(bytes[2..key], |f.payload|);
      if f.key.Some? {
        MaskedExactly(bytes[body..], f.payload, f.key.value);
      } else {
        assert bytes[key..body] == [];
      }
    }
  }

  lemma LengthBytesSize(length: nat)
    requires length < LIMIT
    ensures |LengthBytes(length)| == LengthSize(length)
  {
    LengthRoundTrip(length);
  }

  lemma HeaderSize(f: Frame)
    ensures |Header(f)| == 2
  {}

  lemma BodySize(f: Frame)
    requires Keyed(f)
    ensures |Body(f)| == |f.payload| && |KeyBytes(f)| == KeySize(f)
  {}

  // Reading bytes that are a frame gives back its opcode and payload, and leaves what follows, exactly when no
  // read splits the parts of fixed size.
  lemma WireRoundTrip(bytes: seq<byte>, f: Frame, schedule: Schedule, s: Input, rest: seq<byte>)
    requires Fits(f) && IsFrame(bytes, f) && s.bytes == bytes + rest
    ensures var (got, s') := Read(schedule, s);
            (got == Ok((f.opcode % 16, f.payload)) && s'.bytes == rest) <==> Whole(f, schedule, s.calls)
  {
    hide Read, IsFrame, Wire, Whole;
    WireExactly(bytes, f);
    FrameRoundTrip(f, schedule, s, rest);
  }

  // The final flag and the reserved bits make no difference to the reader.
  lemma FlagsAreIgnored(schedule: Schedule, first: byte, first': byte, tail: seq<byte>, calls: nat)
    requires first % 16 == first' % 16
    ensures var (got, s) := Read(schedule, Input([first] + tail, calls));
            var (got', s') := Read(schedule, Input([first'] + tail, calls));
            got == got' && s == s'
  {
    hide ReadRest;
    var a, b := Input([first] + tail, calls), Input([first'] + tail, calls);
    assert Granted(schedule, a, 2) == Granted(schedule, b, 2);
    var n := Granted(schedule, a, 2);
    assert n >= 1 ==> a.bytes[n..] == tail[n - 1..] && b.bytes[n..] == tail[n - 1..];
  }
}
