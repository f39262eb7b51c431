/** The demarcars as they are built: a ring, a scratch buffer, and a flush loop that extracts
    messages into the scratch buffer and hands them to the application. */
module Demarcar {
  import opened ByteCircularBuffer
  import opened Framing

  /** Parsing goes on from `g` as it would have from `f`. */
  ghost predicate SameParse(f: Flush, g: Flush) {
    var p, q := Parse(f.queue), Parse(g.queue);
    f.delivered + p.msgs == g.delivered + q.msgs && p.rest == q.rest && p.stop == q.stop
  }

  lemma RoundKeepsParse(f: Flush)
    requires At(f).Looping? && Header(f.queue) > 0
    ensures SameParse(f, Round(f)) && |Round(f).queue| < |f.queue|
  {
    hide Parse;
    ParseStep(f.queue);
    var h := Header(f.queue);
    var p := Parse(f.queue[h..]);
    assert f.delivered + ([f.queue[..h]] + p.msgs) == f.delivered + [f.queue[..h]] + p.msgs;
  }

  class VariableSizeDemarcar {
    const bcb: BCB
    const buffer: array<byte>
    /** What the application's callback has received. */
    var delivered: seq<seq<byte>>

    ghost predicate Valid()
      reads this, bcb
    {
      && bcb.Valid() && bcb.bufferSize as nat == DEFAULT_CBC_SIZE
      && buffer.Length == MAX_CLIENT_BUFFER_SIZE && buffer != bcb.buffer
    }

    ghost function State(o: Outcome): Conn
      reads this, bcb, bcb.buffer
      requires Valid()
    {
      Conn(bcb.Contents(), delivered, o)
    }

    constructor ()
      ensures Valid() && State(Running) == START
      ensures fresh(bcb) && fresh(bcb.buffer) && fresh(buffer)
    {
      bcb := new BCB(10240);
      buffer := new byte[MAX_CLIENT_BUFFER_SIZE](_ => 0);
      delivered := [];
    }

    /** The length field at the front of the ring, looked at but left there. */
    method PeekHeader() returns (msgSize: uint16)
      requires Valid() && bcb.currentSize as nat >= HDR_MSG_SIZE
      modifies bcb`rear, bcb`currentSize
      ensures Valid() && bcb.Contents() == old(bcb.Contents())
      ensures msgSize as nat == Header(bcb.Contents())
    {
      var hdr := new byte[2](_ => 0);
      var n := bcb.Read(hdr, 2, false);
      msgSize := hdr[0] as uint16 + 256 * hdr[1] as uint16;
      assert hdr[..][0] == bcb.Contents()[0] && hdr[..][1] == bcb.Contents()[1];
    }

    method IsBufferReadyToFlush() returns (ready: bool)
      requires Valid()
      modifies bcb`rear, bcb`currentSize
      ensures Valid() && bcb.Contents() == old(bcb.Contents())
      ensures ready <==> Ready(bcb.Contents())
    {
      if bcb.currentSize as nat <= HDR_MSG_SIZE {
        return false;
      }
      var msgSize := PeekHeader();
      return msgSize <= bcb.currentSize;
    }

    /** The body of the flush loop, whatever the length field is within the scratch buffer. */
    method FlushRound()
      requires Valid() && At(Flush(bcb.Contents(), delivered)).Looping?
      modifies bcb`rear, bcb`currentSize, buffer, this`delivered
      ensures Valid() && Flush(bcb.Contents(), delivered) == Round(old(Flush(bcb.Contents(), delivered)))
    {
      hide Ring;
      ghost var c := bcb.Contents();
      var msgSize := PeekHeader();
      var n := bcb.Read(buffer, msgSize, true);
      assert n == msgSize;
      assert buffer[..msgSize] == c[..msgSize];
      delivered := delivered + [buffer[..msgSize]];
    }

    /** The flush loop itself, watched for a number of rounds: for all the program does, a length
        field of 0 goes round like any other. */
    method FlushRounds(rounds: nat)
      requires Valid()
      modifies bcb`rear, bcb`currentSize, buffer, this`delivered
      ensures Valid() && Flush(bcb.Contents(), delivered) == Rounds(old(Flush(bcb.Contents(), delivered)), rounds)
    {
      hide Ring, Round;
      ghost var start := Flush(bcb.Contents(), delivered);
      var k := 0;
      var ready := IsBufferReadyToFlush();
      while ready && k < rounds
        invariant Valid() && k <= rounds && (ready <==> Ready(bcb.Contents()))
        invariant Rounds(start, rounds) == Rounds(Flush(bcb.Contents(), delivered), rounds - k)
      {
        var msgSize := PeekHeader();
        if msgSize as nat > MAX_CLIENT_BUFFER_SIZE {
          return;
        }
        FlushRound();
        ready := IsBufferReadyToFlush();
        k := k + 1;
      }
    }

    /** The flush.  A loop that `LivelockExactly` says never ends is not entered again but reported,
        and so is a message beyond the scratch buffer. */
    method ProcessClientMsg() returns (o: Outcome)
      requires Valid()
      modifies bcb`rear, bcb`currentSize, buffer, this`delivered
      ensures Valid()
      ensures var p := Parse(old(bcb.Contents()));
              State(o) == Conn(p.rest, old(delivered) + p.msgs, OutcomeOf(p.stop))
    {
      hide Parse, Ring, Round;
      ghost var start := Flush(bcb.Contents(), delivered);
      var ready := IsBufferReadyToFlush();
      while ready
        invariant Valid() && (ready <==> Ready(bcb.Contents()))
        invariant SameParse(start, Flush(bcb.Contents(), delivered))
        decreases |bcb.Contents()|
      {
        var msgSize := PeekHeader();
        if msgSize == 0 || msgSize as nat > MAX_CLIENT_BUFFER_SIZE {
          ParseStops(bcb.Contents());
          return if msgSize == 0 then Livelock else Overrun;
        }
        RoundKeepsParse(Flush(bcb.Contents(), delivered));
        FlushRound();
        ready := IsBufferReadyToFlush();
      }
      ParseStops(bcb.Contents());
      return Running;
    }

    /** What a socket hands over: stored whole or not at all, then flushed. */
    method ProcessMsg(msgRecvd: seq<byte>, msgSize: uint16) returns (o: Outcome)
      requires Valid() && msgSize as nat == |msgRecvd|
      modifies bcb, bcb.buffer, buffer, this`delivered
      ensures Valid()
      ensures State(o) == Feed(old(State(Running)), msgRecvd)
    {
      var n := bcb.Write(msgRecvd, msgSize);
      assert msgRecvd[..msgSize] == msgRecvd;
      if n == 0 {
        return WriteFailed;
      }
      var ready := IsBufferReadyToFlush();
      if !ready {
        ParseStops(bcb.Contents());
        assert delivered + [] == delivered;
        return Running;
      }
      o := ProcessClientMsg();
    }
  }

  class FixedSizeDemarcar {
    const bcb: BCB
    const buffer: array<byte>
    const msgFixedSize: uint16
    var delivered: seq<seq<byte>>

    ghost predicate Valid()
      reads this, bcb
    {
      && bcb.Valid() && bcb.bufferSize as nat == DEFAULT_CBC_SIZE
      && buffer.Length == MAX_CLIENT_BUFFER_SIZE && buffer != bcb.buffer
      && 0 < msgFixedSize as nat <= MAX_CLIENT_BUFFER_SIZE
    }

    ghost function State(o: Outcome): Conn
      reads this, bcb, bcb.buffer
      requires Valid()
    {
      Conn(bcb.Contents(), delivered, o)
    }

    /** The size divides and is extracted into the scratch buffer, so it must be neither 0 nor
        larger than that. */
    constructor (fixedSize: uint16)
      requires 0 < fixedSize as nat <= MAX_CLIENT_BUFFER_SIZE
      ensures Valid() && State(Running) == START && msgFixedSize == fixedSize
      ensures fresh(bcb) && fresh(bcb.buffer) && fresh(buffer)
    {
      bcb := new BCB(10240);
      buffer := new byte[MAX_CLIENT_BUFFER_SIZE](_ => 0);
      msgFixedSize := fixedSize;
      delivered := [];
    }

    predicate IsBufferReadyToFlush()
      requires msgFixedSize > 0
      reads bcb
    {
      bcb.currentSize / msgFixedSize > 0
    }

    lemma ReadyMeans()
      requires Valid()
      ensures IsBufferReadyToFlush() <==> |bcb.Contents()| >= msgFixedSize as nat
    {
      if bcb.currentSize >= msgFixedSize {
        assert bcb.currentSize / msgFixedSize >= 1;
      }
    }

    method ProcessClientMsg()
      requires Valid()
      modifies bcb`rear, bcb`currentSize, buffer, this`delivered
      ensures Valid()
      ensures var r := Cut(old(bcb.Contents()), msgFixedSize as nat);
              State(Running) == Conn(r.1, old(delivered) + r.0, Running)
    {
      ghost var n, q, got := msgFixedSize as nat, bcb.Contents(), delivered;
      ReadyMeans();
      while IsBufferReadyToFlush()
        invariant Valid() && (IsBufferReadyToFlush() <==> |bcb.Contents()| >= n)
        invariant got + Cut(q, n).0 == delivered + Cut(bcb.Contents(), n).0
        invariant Cut(q, n).1 == Cut(bcb.Contents(), n).1
        decreases |bcb.Contents()|
      {
        ghost var c := bcb.Contents();
        var bytesRead := bcb.Read(buffer, msgFixedSize, true);
        assert buffer[..bytesRead] == c[..n];
        assert delivered + Cut(c, n).0 == delivered + [c[..n]] + Cut(c[n..], n).0;
        delivered := delivered + [buffer[..bytesRead]];
        ReadyMeans();
      }
    }

    method ProcessMsg(msgRecvd: seq<byte>, msgSize: uint16) returns (o: Outcome)
      requires Valid() && msgSize as nat == |msgRecvd|
      modifies bcb, bcb.buffer, buffer, this`delivered
      ensures Valid()
      ensures State(o) == FeedFixed(old(State(Running)), msgFixedSize as nat, msgRecvd)
    {
      var n := bcb.Write(msgRecvd, msgSize);
      assert msgRecvd[..msgSize] == msgRecvd;
      if n == 0 {
        return WriteFailed;
      }
      ReadyMeans();
      if !IsBufferReadyToFlush() {
        assert delivered + [] == delivered;
        return Running;
      }
      ProcessClientMsg();
      return Running;
    }
  }
}
