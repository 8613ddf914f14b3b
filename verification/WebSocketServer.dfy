/** The socket, the frame reader and writer, and the echo loop. */
module WebSocketServer {
  import opened Options
  import opened WebSocket

  class Socket {
    const schedule: Schedule
    var incoming: seq<byte>
    var calls: nat
    var sent: seq<byte>

    constructor (incoming: seq<byte>, schedule: Schedule)
      ensures State() == Input(incoming, 0) && sent == [] && this.schedule == schedule
    {
      this.schedule := schedule;
      this.incoming, this.calls, this.sent := incoming, 0, [];
    }

    function State(): Input
      reads this
    {
      Input(incoming, calls)
    }

    method Recv(n: nat) returns (chunk: seq<byte>)
      modifies this
      ensures chunk == old(Taken(schedule, State(), n)) && State() == old(After(schedule, State(), n))
              && sent == old(sent)
    {
      var size := Granted(schedule, State(), n);
      chunk := incoming[..size];
      incoming, calls := incoming[size..], calls + 1;
    }

    method SendAll(data: seq<byte>)
      modifies this
      ensures sent == old(sent) + data && State() == old(State())
    {
      sent := sent + data;
    }
  }

  method ReadFrame(conn: Socket) returns (r: Result<(nat, seq<byte>)>)
    modifies conn
    ensures (r, conn.State()) == old(Read(conn.schedule, conn.State())) && conn.sent == old(conn.sent)
  {
    hide Granted, Gather, Unmask;
    var header := conn.Recv(2);
    if |header| < 2 {
      return Ok((0, []));
    }
    var opcode := header[0] % 16;
    var masked := header[1] >= 128;
    var length: nat := header[1] % 128;
    if length == 126 {
      var extended := conn.Recv(2);
      if |extended| != 2 {
        return Failed;
      }
      length := Unpack(extended);
    } else if length == 127 {
      var extended := conn.Recv(8);
      if |extended| != 8 {
        return Failed;
      }
      length := Unpack(extended);
    }
    var key := [];
    if masked {
      key := conn.Recv(4);
    }
    var payload := ReadPayload(conn, length);
    var plain := Unmask(payload, key);
    r := if plain.Ok? then Ok((opcode, plain.value)) else Failed;
  }

  method ReadPayload(conn: Socket, length: nat) returns (payload: seq<byte>)
    modifies conn
    ensures (payload, conn.State()) == old(Gather(conn.schedule, conn.State(), length)) && conn.sent == old(conn.sent)
  {
    hide Granted, Gather;
    payload := [];
    ghost var whole := Gather(conn.schedule, conn.State(), length);
    Assemble([], [], whole.0);
    while |payload| < length
      invariant |payload| <= length && conn.sent == old(conn.sent)
      invariant var rest := Gather(conn.schedule, conn.State(), length - |payload|); (payload + rest.0, rest.1) == whole
    {
      GatherStep(conn.schedule, conn.State(), length - |payload|);
      var chunk := conn.Recv(length - |payload|);
      if chunk == [] {
        break;
      }
      Assemble(payload, chunk, Gather(conn.schedule, conn.State(), length - |payload| - |chunk|).0);
      payload := payload + chunk;
    }
    GatherStep(conn.schedule, conn.State(), length - |payload|);
    Assemble(payload, [], []);
  }

  lemma Assemble(a: seq<byte>, b: seq<byte>, c: seq<byte>)
    ensures a + (b + c) == a + b + c && a + [] == a && [] + c == c
  {}

  method SendFrame(conn: Socket, opcode: nat, payload: seq<byte>) returns (ok: bool)
    modifies conn
    ensures ok <==> |payload| < LIMIT
    ensures conn.sent == old(conn.sent) + if ok then Wire(Frame(opcode, None, payload)) else []
    ensures conn.State() == old(conn.State())
  {
    hide Pack;
    var header := [128 + opcode % 16];
    var length := |payload|;
    if length < 126 {
      header := header + [length];
    } else if length < 65536 {
      header := header + [126];
      header := header + Pack(length, 2);
    } else {
      header := header + [127];
      if length >= LIMIT {
        return false;
      }
      header := header + Pack(length, 8);
    }
    WireOf(opcode, payload);
    conn.SendAll(header + payload);
    ok := true;
  }

  lemma WireOf(opcode: nat, payload: seq<byte>)
    ensures Wire(Frame(opcode, None, payload)) ==
            [128 + opcode % 16] + [LengthCode(|payload|)] + LengthBytes(|payload|) + payload
  {
    var f := Frame(opcode, None, payload);
    assert Header(f) == [128 + opcode % 16] + [LengthCode(|payload|)];
    assert Header(f) + LengthBytes(|payload|) + [] == Header(f) + LengthBytes(|payload|);
  }

  lemma {:induction false} WireAllAppend(frames: seq<Frame>, f: Frame)
    requires AllKeyed(frames) && Keyed(f)
    ensures AllKeyed(frames + [f]) && WireAll(frames + [f]) == WireAll(frames) + Wire(f)
  {
    hide Wire;
    if frames == [] {
      assert [f][1..] == [] && frames + [f] == [f];
    } else {
      WireAllAppend(frames[1..], f);
      assert (frames + [f])[1..] == frames[1..] + [f];
    }
  }

  // What remains of the session after one reply.
  lemma Reassociate(replies: seq<Frame>, f: Frame, rest: seq<Frame>)
    ensures replies + ([f] + rest) == replies + [f] + rest && replies + [] == replies
  {}

  method EchoLoop(conn: Socket, decode: Decoder) returns (outcome: Outcome)
    modifies conn
    ensures var (end, replies, s') := old(Session(decode, conn.schedule, conn.State()));
            && outcome == end && conn.State() == s'
            && AllKeyed(replies) && conn.sent == old(conn.sent) + WireAll(replies)
  {
    hide Read, Wire, WireAll;
    ghost var replies: seq<Frame> := [];
    ghost var whole := Session(decode, conn.schedule, conn.State());
    assert [] + whole.1 == whole.1;
    NothingSent();
    while conn.incoming != []
      invariant AllKeyed(replies) && conn.sent == old(conn.sent) + WireAll(replies)
      invariant var rest := Session(decode, conn.schedule, conn.State());
                (rest.0, replies + rest.1, rest.2) == whole
      decreases |conn.incoming|
    {
      ghost var now := conn.State();
      Reassociate(replies, Frame(8, None, []), []);
      Shrinks(conn.schedule, now);
      var got := ReadFrame(conn);
      if got.Failed? {
        return Aborted;
      }
      var (opcode, payload) := got.value;
      ghost var rest := Session(decode, conn.schedule, conn.State());
      if opcode == 8 {
        WireAllAppend(replies, Frame(8, None, []));
        var sent := SendFrame(conn, 8, []);
        return Closed;
      }
      if opcode == 9 {
        var sent := SendFrame(conn, 10, payload);
        if !sent {
          return Aborted;
        }
        WireAllAppend(replies, Frame(10, None, payload));
        Reassociate(replies, Frame(10, None, payload), rest.1);
        replies := replies + [Frame(10, None, payload)];
      } else if opcode == 1 {
        var reply := decode(payload);
        if reply.Raises? {
          return Aborted;
        }
        if reply.Echo? {
          var sent := SendFrame(conn, 1, reply.payload);
          if !sent {
            return Aborted;
          }
          WireAllAppend(replies, Frame(1, None, reply.payload));
          Reassociate(replies, Frame(1, None, reply.payload), rest.1);
          replies := replies + [Frame(1, None, reply.payload)];
        }
      }
    }
    Reassociate(replies, Frame(8, None, []), []);
    outcome := Spinning;
  }

  lemma NothingSent()
    ensures WireAll([]) == []
  {}

  lemma Shrinks(schedule: Schedule, s: Input)
    requires s.bytes != []
    ensures |Read(schedule, s).1.bytes| < |s.bytes|
  {}
}
