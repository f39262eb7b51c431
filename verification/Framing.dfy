/** Message boundaries in a byte stream, independent of how the stream arrives. */
module Framing {
  import opened Arithmetic
  import opened ByteCircularBuffer
  import opened Sequences

  const HDR_MSG_SIZE: nat := 2
  const MAX_CLIENT_BUFFER_SIZE: nat := 1024
  const DEFAULT_CBC_SIZE: nat := 10240

  /** The length field as the host reads it, low byte first; it counts itself. */
  function Header(b: seq<byte>): nat
    requires |b| >= HDR_MSG_SIZE
  {
    b[0] as nat + 256 * b[1] as nat
  }

  /** Why a parse stops: more bytes are needed; a message of length 0, which the flush loop
      never gets past; a message longer than the scratch buffer it is extracted into. */
  datatype Stop = Waiting | ZeroLength | TooLong

  datatype Parsed = Parsed(msgs: seq<seq<byte>>, rest: seq<byte>, stop: Stop)

  predicate Ready(b: seq<byte>) {
    |b| > HDR_MSG_SIZE && Header(b) <= |b|
  }

  /** One greedy pass over all the bytes at once. */
  function Parse(b: seq<byte>): Parsed
    decreases |b|
  {
    if !Ready(b) then Parsed([], b, Waiting)
    else if Header(b) == 0 then Parsed([], b, ZeroLength)
    else if Header(b) > MAX_CLIENT_BUFFER_SIZE then Parsed([], b, TooLong)
    else
      var p := Parse(b[Header(b)..]);
      Parsed([b[..Header(b)]] + p.msgs, p.rest, p.stop)
  }

  // ---- a connection fed chunk by chunk

  datatype Outcome = Running | WriteFailed | Livelock | Overrun

  datatype Conn = Conn(queue: seq<byte>, delivered: seq<seq<byte>>, outcome: Outcome)

  const START := Conn([], [], Running)

  function OutcomeOf(s: Stop): Outcome {
    match s
    case Waiting => Running
    case ZeroLength => Livelock
    case TooLong => Overrun
  }

  /** `ProcessMsg`: the write is asserted to have stored something; then the buffer is flushed. */
  function Feed(c: Conn, chunk: seq<byte>): Conn {
    if c.outcome != Running then c
    else if chunk == [] || |c.queue| + |chunk| > DEFAULT_CBC_SIZE then c.(outcome := WriteFailed)
    else
      var p := Parse(c.queue + chunk);
      Conn(p.rest, c.delivered + p.msgs, OutcomeOf(p.stop))
  }

  function FeedAll(c: Conn, chunks: seq<seq<byte>>): Conn
    decreases |chunks|
  {
    if chunks == [] then c else FeedAll(Feed(c, chunks[0]), chunks[1..])
  }

  // ---- splitting the stream

  lemma ParseStops(b: seq<byte>)
    requires !Ready(b) || Header(b) == 0 || Header(b) > MAX_CLIENT_BUFFER_SIZE
    ensures Parse(b) == Parsed([], b, if !Ready(b) then Waiting else if Header(b) == 0 then ZeroLength else TooLong)
  {}

  lemma ParseStep(b: seq<byte>)
    requires Ready(b) && 0 < Header(b) <= MAX_CLIENT_BUFFER_SIZE
    ensures var p := Parse(b[Header(b)..]);
            Parse(b) == Parsed([b[..Header(b)]] + p.msgs, p.rest, p.stop)
  {}

  lemma {:induction false} ParseSplit(a: seq<byte>, b: seq<byte>)
    ensures var p := Parse(a);
            if p.stop == Waiting then
              var q := Parse(p.rest + b);
              Parse(a + b) == Parsed(p.msgs + q.msgs, q.rest, q.stop)
            else Parse(a + b) == Parsed(p.msgs, p.rest + b, p.stop)
    decreases |a|
  {
    hide Parse;
    if !Ready(a) {
      ParseStops(a);
      assert [] + Parse(a + b).msgs == Parse(a + b).msgs;
    } else {
      var h := Header(a);
      assert Ready(a + b) && Header(a + b) == h;
      if h == 0 || h > MAX_CLIENT_BUFFER_SIZE {
        ParseStops(a);
        ParseStops(a + b);
      } else {
        ParseStep(a);
        ParseStep(a + b);
        assert (a + b)[..h] == a[..h] && (a + b)[h..] == a[h..] + b;
        ParseSplit(a[h..], b);
        var r := Parse(a[h..]);
        var q := Parse(r.rest + b);
        assert [a[..h]] + (r.msgs + q.msgs) == ([a[..h]] + r.msgs) + q.msgs;
      }
    }
  }

  /** A message as the length field at its head says; of a message of one byte only half of the
      field is left. */
  predicate IsMessage(m: seq<byte>) {
    && 0 < |m| <= MAX_CLIENT_BUFFER_SIZE
    && m[0] as nat == |m| % 256 && (|m| >= HDR_MSG_SIZE ==> Header(m) == |m|)
  }

  lemma FirstMessage(b: seq<byte>)
    requires Ready(b) && 0 < Header(b) <= MAX_CLIENT_BUFFER_SIZE
    ensures IsMessage(b[..Header(b)])
  {}

  lemma FlattenFirst(m: seq<byte>, msgs: seq<seq<byte>>)
    ensures Flatten([m] + msgs) == m + Flatten(msgs)
  {
    assert ([m] + msgs)[1..] == msgs;
  }

  /** Nothing is lost or made up: the messages and the residue are the bytes parsed, and every
      message is as long as the length field it began with. */
  lemma {:induction false} ParseConserves(b: seq<byte>)
    ensures Flatten(Parse(b).msgs) + Parse(b).rest == b
    ensures forall m | m in Parse(b).msgs :: IsMessage(m)
    decreases |b|
  {
    hide Parse, IsMessage, Flatten;
    if Ready(b) && 0 < Header(b) <= MAX_CLIENT_BUFFER_SIZE {
      var h, p := Header(b), Parse(b[Header(b)..]);
      ParseStep(b);
      FirstMessage(b);
      ParseConserves(b[h..]);
      FlattenFirst(b[..h], p.msgs);
      assert b[..h] + (Flatten(p.msgs) + p.rest) == (b[..h] + Flatten(p.msgs)) + p.rest;
      assert b == b[..h] + b[h..];
    } else {
      ParseStops(b);
      FlattenNothing();
      assert [] + b == b;
    }
  }

  lemma FlattenNothing()
    ensures Flatten<byte>([]) == []
  {}

  /** What is left over cannot be parsed further. */
  lemma {:induction false} RestIsStuck(b: seq<byte>)
    ensures Parse(b).stop == Waiting ==> !Ready(Parse(b).rest)
    ensures Parse(b).stop == Waiting ==> Parse(Parse(b).rest) == Parsed([], Parse(b).rest, Waiting)
    decreases |b|
  {
    if Ready(b) && 0 < Header(b) <= MAX_CLIENT_BUFFER_SIZE {
      RestIsStuck(b[Header(b)..]);
    }
  }

  /** A run that has come through `done` and is waiting for `chunks`. */
  lemma {:induction false} FeedFrom(done: seq<byte>, chunks: seq<seq<byte>>)
    requires Parse(done).stop == Waiting
    ensures var r := FeedAll(Conn(Parse(done).rest, Parse(done).msgs, Running), chunks);
            var p := Parse(done + Flatten(chunks));
            r.outcome != WriteFailed ==>
              r.delivered == p.msgs && r.outcome == OutcomeOf(p.stop) && (r.outcome == Running ==> r.queue == p.rest)
    ensures var r := FeedAll(Conn(Parse(done).rest, Parse(done).msgs, Running), chunks);
            r.outcome == WriteFailed ==> r.delivered <= Parse(done + Flatten(chunks)).msgs
    decreases |chunks|
  {
    var p := Parse(done);
    var c := Conn(p.rest, p.msgs, Running);
    if chunks == [] {
      assert done + Flatten(chunks) == done;
    } else {
      var d, rest := done + chunks[0], Flatten(chunks[1..]);
      assert done + Flatten(chunks) == d + rest;
      ParseSplit(done, chunks[0]);
      var c1 := Feed(c, chunks[0]);
      if c1.outcome == Running {
        FeedFrom(d, chunks[1..]);
      } else if c1.outcome == WriteFailed {
        Halted(c1, chunks[1..]);
        ParseSplit(done, chunks[0] + rest);
        assert done + (chunks[0] + rest) == d + rest;
      } else {
        Halted(c1, chunks[1..]);
        ParseSplit(d, rest);
      }
    }
  }

  lemma {:induction false} Halted(c: Conn, chunks: seq<seq<byte>>)
    requires c.outcome != Running
    ensures FeedAll(c, chunks) == c
    decreases |chunks|
  {
    if chunks != [] {
      Halted(c, chunks[1..]);
    }
  }

  /** However the stream is cut into chunks, the messages, the residue and the way the run ends
      are those of one greedy parse of the whole stream; should a write have failed, what was
      delivered before is a beginning of it. */
  lemma ChunkingIndependence(chunks: seq<seq<byte>>)
    ensures var r, p := FeedAll(START, chunks), Parse(Flatten(chunks));
            if r.outcome == WriteFailed then r.delivered <= p.msgs
            else r.delivered == p.msgs && r.outcome == OutcomeOf(p.stop) && (r.outcome == Running ==> r.queue == p.rest)
  {
    FeedFrom([], chunks);
    assert [] + Flatten(chunks) == Flatten(chunks);
  }

  // ---- when a run is safe

  /** Every length field met is between 1 and the scratch size, the pending one included. */
  predicate Legal(b: seq<byte>) {
    var p := Parse(b);
    p.stop == Waiting && (|p.rest| > HDR_MSG_SIZE ==> Header(p.rest) <= MAX_CLIENT_BUFFER_SIZE)
  }

  lemma LegalPrefix(a: seq<byte>, b: seq<byte>)
    requires Legal(a + b)
    ensures Legal(a) && |Parse(a).rest| < MAX_CLIENT_BUFFER_SIZE
  {
    ParseSplit(a, b);
    RestIsStuck(a);
    var r := Parse(a).rest;
    if |r| > HDR_MSG_SIZE {
      assert Header(r + b) == Header(r);
    }
  }

  predicate ChunkSizes(chunks: seq<seq<byte>>) {
    forall i | 0 <= i < |chunks| :: 0 < |chunks[i]| <= MAX_CLIENT_BUFFER_SIZE
  }

  lemma {:induction false} SafeFrom(done: seq<byte>, chunks: seq<seq<byte>>)
    requires Legal(done + Flatten(chunks)) && ChunkSizes(chunks)
    ensures Legal(done) && FeedAll(Conn(Parse(done).rest, Parse(done).msgs, Running), chunks).outcome == Running
    decreases |chunks|
  {
    LegalPrefix(done, Flatten(chunks));
    if chunks != [] {
      assert done + Flatten(chunks) == (done + chunks[0]) + Flatten(chunks[1..]);
      ParseSplit(done, chunks[0]);
      SafeFrom(done + chunks[0], chunks[1..]);
    }
  }

  lemma ParseNothing()
    ensures Parse([]).rest == [] && Parse([]).msgs == []
  {}

  /** With legal length fields and chunks as the sockets deliver them, the write assertion never
      fails, no extraction overruns the scratch buffer, and every flush terminates. */
  lemma LegalRunsAreSafe(chunks: seq<seq<byte>>)
    requires Legal(Flatten(chunks)) && ChunkSizes(chunks)
    ensures FeedAll(START, chunks).outcome == Running
    ensures |FeedAll(START, chunks).queue| < MAX_CLIENT_BUFFER_SIZE
  {
    hide Parse, Legal, ChunkSizes, Flatten, FeedAll;
    assert [] + Flatten(chunks) == Flatten(chunks);
    ParseNothing();
    SafeFrom([], chunks);
    ChunkingIndependence(chunks);
    assert Flatten(chunks) + [] == Flatten(chunks);
    LegalPrefix(Flatten(chunks), []);
  }

  ghost predicate Fits(done: seq<byte>, chunks: seq<seq<byte>>) {
    forall k | 0 <= k < |chunks| ::
      chunks[k] != [] && |Parse(done + Flatten(chunks[..k])).rest| + |chunks[k]| <= DEFAULT_CBC_SIZE
  }

  /** Exactly when a run comes through: the stream has no length field that stops the parse, and
      no chunk finds the residue before it too long to be stored behind it. */
  lemma {:induction false} RunsExactlyWhen(done: seq<byte>, chunks: seq<seq<byte>>)
    requires Parse(done).stop == Waiting
    ensures FeedAll(Conn(Parse(done).rest, Parse(done).msgs, Running), chunks).outcome == Running
       <==> Parse(done + Flatten(chunks)).stop == Waiting && Fits(done, chunks)
    decreases |chunks|
  {
    hide Parse, Ready;
    FeedFrom(done, chunks);
    if chunks == [] {
      assert done + Flatten(chunks) == done;
    } else {
      var c1 := Feed(Conn(Parse(done).rest, Parse(done).msgs, Running), chunks[0]);
      ParseSplit(done, chunks[0]);
      assert done + Flatten(chunks) == (done + chunks[0]) + Flatten(chunks[1..]);
      assert chunks[..0] == [] && done + Flatten(chunks[..0]) == done;
      if c1.outcome == Running {
        RunsExactlyWhen(done + chunks[0], chunks[1..]);
        forall k | 0 <= k < |chunks| - 1
          ensures done + Flatten(chunks[..k + 1]) == (done + chunks[0]) + Flatten(chunks[1..][..k])
        {
          assert chunks[..k + 1][1..] == chunks[1..][..k];
        }
        FitsStep(done, chunks);
      } else {
        Halted(c1, chunks[1..]);
        if c1.outcome != WriteFailed {
          ParseSplit(done + chunks[0], Flatten(chunks[1..]));
        }
      }
    }
  }

  lemma FitsStep(done: seq<byte>, chunks: seq<seq<byte>>)
    requires chunks != [] && chunks[0] != [] && |Parse(done).rest| + |chunks[0]| <= DEFAULT_CBC_SIZE
    requires forall k | 0 <= k < |chunks| - 1 ::
        done + Flatten(chunks[..k + 1]) == (done + chunks[0]) + Flatten(chunks[1..][..k])
    ensures Fits(done, chunks) <==> Fits(done + chunks[0], chunks[1..])
  {
    assert chunks[..0] == [] && done + Flatten(chunks[..0]) == done;
    if Fits(done + chunks[0], chunks[1..]) {
      forall k | 0 <= k < |chunks|
        ensures chunks[k] != [] && |Parse(done + Flatten(chunks[..k])).rest| + |chunks[k]| <= DEFAULT_CBC_SIZE
      {
        if k > 0 {
          assert chunks[k] == chunks[1..][k - 1];
          assert done + Flatten(chunks[..(k - 1) + 1]) == (done + chunks[0]) + Flatten(chunks[1..][..k - 1]);
        }
      }
    }
    if Fits(done, chunks) {
      forall k | 0 <= k < |chunks[1..]|
        ensures chunks[1..][k] != []
        ensures |Parse((done + chunks[0]) + Flatten(chunks[1..][..k])).rest| + |chunks[1..][k]| <= DEFAULT_CBC_SIZE
      {
        assert chunks[k + 1] == chunks[1..][k];
      }
    }
  }

  // ---- what senders put on the wire

  /** A message on the wire: its length, header included, low byte first, and the payload. */
  function Frame(payload: seq<byte>): (f: seq<byte>)
    requires |payload| <= MAX_CLIENT_BUFFER_SIZE - HDR_MSG_SIZE
    ensures |f| == |payload| + HDR_MSG_SIZE && Header(f) == |f| && f[HDR_MSG_SIZE..] == payload
  {
    var n := |payload| + HDR_MSG_SIZE;
    [(n % 256) as byte, (n / 256) as byte] + payload
  }

  predicate Payloads(ps: seq<seq<byte>>) {
    forall i | 0 <= i < |ps| :: 0 < |ps[i]| <= MAX_CLIENT_BUFFER_SIZE - HDR_MSG_SIZE
  }

  function Frames(ps: seq<seq<byte>>): (r: seq<seq<byte>>)
    requires Payloads(ps)
    ensures |r| == |ps| && forall i | 0 <= i < |ps| :: r[i] == Frame(ps[i])
  {
    seq(|ps|, i requires 0 <= i < |ps| => Frame(ps[i]))
  }

  /** Any list of frames, followed by the beginning of another one, parses to exactly those
      frames, at once; the beginning waits. */
  lemma {:induction false} ParseFrames(ps: seq<seq<byte>>, tail: seq<byte>)
    requires Payloads(ps) && !Ready(tail)
    ensures Parse(Flatten(Frames(ps)) + tail) == Parsed(Frames(ps), tail, Waiting)
  {
    var b := Flatten(Frames(ps)) + tail;
    if ps == [] {
      assert b == tail;
    } else {
      var f := Frame(ps[0]);
      assert Frames(ps)[1..] == Frames(ps[1..]);
      assert b == f + (Flatten(Frames(ps[1..])) + tail);
      assert Header(b) == Header(f);
      assert b[..|f|] == f && b[|f|..] == Flatten(Frames(ps[1..])) + tail;
      ParseFrames(ps[1..], tail);
      assert Frames(ps) == [f] + Frames(ps[1..]);
    }
  }

  /** Serialise any messages, cut the bytes anywhere: exactly those messages come out, in order,
      and nothing stays behind. */
  lemma FramingRoundTrip(ps: seq<seq<byte>>, chunks: seq<seq<byte>>)
    requires Payloads(ps) && ChunkSizes(chunks) && Flatten(chunks) == Flatten(Frames(ps))
    ensures FeedAll(START, chunks) == Conn([], Frames(ps), Running)
    ensures var msgs := FeedAll(START, chunks).delivered;
            |msgs| == |ps| && forall i | 0 <= i < |ps| :: |msgs[i]| >= HDR_MSG_SIZE && msgs[i][HDR_MSG_SIZE..] == ps[i]
  {
    ParseFrames(ps, []);
    assert Flatten(Frames(ps)) + [] == Flatten(chunks);
    LegalRunsAreSafe(chunks);
    ChunkingIndependence(chunks);
  }

  /** The readiness test asks for more than the header, so a frame that is only a header is not
      delivered by itself: prompt delivery needs at least one byte of payload, and that is enough. */
  lemma PromptExactlyWithPayload(payload: seq<byte>)
    requires |payload| <= MAX_CLIENT_BUFFER_SIZE - HDR_MSG_SIZE
    ensures Parse(Frame(payload)) == Parsed([Frame(payload)], [], Waiting) <==> payload != []
  {
    if payload != [] {
      ParseFrames([payload], []);
      assert Flatten(Frames([payload])) + [] == Frame(payload) + Flatten(Frames([payload])[1..]);
      assert Frames([payload]) == [Frame(payload)];
    }
  }

  // ---- the flush loop, round by round

  /** The ring and what the application has received, at the head of the flush loop. */
  datatype Flush = Flush(queue: seq<byte>, delivered: seq<seq<byte>>)

  datatype Progress = Ended | Overran | Looping

  /** What the guard of the loop, and the extraction behind it, make of the queue. */
  function At(f: Flush): Progress {
    if !Ready(f.queue) then Ended
    else if Header(f.queue) > MAX_CLIENT_BUFFER_SIZE then Overran
    else Looping
  }

  /** One execution of the loop's body: as many bytes as the length field says are taken out of the
      ring and delivered. */
  function Round(f: Flush): Flush
    requires At(f).Looping?
  {
    Flush(f.queue[Header(f.queue)..], f.delivered + [f.queue[..Header(f.queue)]])
  }

  /** At most `n` executions. */
  function Rounds(f: Flush, n: nat): Flush
    decreases n
  {
    if n == 0 || !At(f).Looping? then f else Rounds(Round(f), n - 1)
  }

  lemma {:induction false} RoundsSplit(f: Flush, m: nat, n: nat)
    ensures Rounds(f, m + n) == Rounds(Rounds(f, m), n)
    decreases m
  {
    if m > 0 {
      if At(f).Looping? {
        RoundsSplit(Round(f), m - 1, n);
      }
    }
  }

  /** A length field of 0: every round delivers an empty message and leaves the ring as it was. */
  lemma {:induction false} ZeroHeaderTurns(f: Flush, n: nat)
    requires Ready(f.queue) && Header(f.queue) == 0
    ensures Rounds(f, n) == Flush(f.queue, f.delivered + seq(n, _ => []))
    decreases n
  {
    if n == 0 {
      assert f.delivered + seq(0, _ => []) == f.delivered;
    } else {
      var r := Round(f);
      assert r == Flush(f.queue, f.delivered + [[]]);
      ZeroHeaderTurns(r, n - 1);
      assert f.delivered + [[]] + seq(n - 1, _ => []) == f.delivered + seq(n, _ => []);
    }
  }

  /** As many rounds as the parse has messages deliver just these, and leave the residue. */
  lemma {:induction false} RoundsAreParse(f: Flush)
    ensures var p := Parse(f.queue);
            var r := Rounds(f, |p.msgs|);
            && r == Flush(p.rest, f.delivered + p.msgs)
            && (p.stop == Waiting ==> At(r) == Ended) && (p.stop == TooLong ==> At(r) == Overran)
            && (p.stop == ZeroLength ==> Ready(r.queue) && Header(r.queue) == 0)
    decreases |f.queue|
  {
    var b := f.queue;
    if Ready(b) && 0 < Header(b) <= MAX_CLIENT_BUFFER_SIZE {
      var p := Parse(b[Header(b)..]);
      RoundsAreParse(Round(f));
      assert f.delivered + [b[..Header(b)]] + p.msgs == f.delivered + ([b[..Header(b)]] + p.msgs);
    } else {
      assert f.delivered + [] == f.delivered;
    }
  }

  /** The flush loop never ends, exactly if the bytes it is given contain, behind whole messages, a
      length field of 0; on all others it comes to an end or to a message beyond the scratch buffer. */
  lemma LivelockExactly(f: Flush)
    ensures (forall n: nat :: At(Rounds(f, n)).Looping?) <==> Parse(f.queue).stop == ZeroLength
  {
    var m := |Parse(f.queue).msgs|;
    RoundsAreParse(f);
    if Parse(f.queue).stop == ZeroLength {
      forall n: nat ensures At(Rounds(f, n)).Looping? {
        if n <= m {
          RoundsSplit(f, n, m - n);
        } else {
          RoundsSplit(f, m, n - m);
          ZeroHeaderTurns(Rounds(f, m), n - m);
        }
      }
    } else {
      assert !At(Rounds(f, m)).Looping?;
    }
  }

  // ---- fixed-size messages

  /** All whole messages of `n` bytes, and the bytes left over. */
  function Cut(b: seq<byte>, n: nat): (r: (seq<seq<byte>>, seq<byte>))
    requires n > 0
    decreases |b|
  {
    if |b| < n then ([], b)
    else
      var r := Cut(b[n..], n);
      ([b[..n]] + r.0, r.1)
  }

  /** A connection with fixed-size messages: same write, another flush. */
  function FeedFixed(c: Conn, n: nat, chunk: seq<byte>): Conn
    requires n > 0
  {
    if c.outcome != Running then c
    else if chunk == [] || |c.queue| + |chunk| > DEFAULT_CBC_SIZE then c.(outcome := WriteFailed)
    else
      var r := Cut(c.queue + chunk, n);
      Conn(r.1, c.delivered + r.0, Running)
  }

  function FeedAllFixed(c: Conn, n: nat, chunks: seq<seq<byte>>): Conn
    requires n > 0
    decreases |chunks|
  {
    if chunks == [] then c else FeedAllFixed(FeedFixed(c, n, chunks[0]), n, chunks[1..])
  }

  lemma {:induction false} CutSplit(a: seq<byte>, b: seq<byte>, n: nat)
    requires n > 0
    ensures var r, q := Cut(a, n), Cut(Cut(a, n).1 + b, n);
            |r.1| < n && Cut(a + b, n) == (r.0 + q.0, q.1)
    decreases |a|
  {
    if |a| < n {
      assert [] + Cut(a + b, n).0 == Cut(a + b, n).0;
    } else {
      CutSplit(a[n..], b, n);
      assert (a + b)[..n] == a[..n] && (a + b)[n..] == a[n..] + b;
      var r, q := Cut(a[n..], n), Cut(Cut(a[n..], n).1 + b, n);
      assert [a[..n]] + (r.0 + q.0) == ([a[..n]] + r.0) + q.0;
    }
  }

  /** The bytes from `from` to `to`, where there are that many. */
  function Bytes(b: seq<byte>, from: nat, to: nat): seq<byte> {
    if from <= to <= |b| then b[from..to] else []
  }

  lemma {:induction false} CutCount(b: seq<byte>, n: nat)
    requires n > 0
    ensures var r := Cut(b, n);
            |r.0| * n + |r.1| == |b| && |r.1| < n && r.1 == b[|b| - |r.1|..]
    decreases |b|
  {
    if |b| >= n {
      CutCount(b[n..], n);
      var t := Cut(b[n..], n);
      assert (|t.0| + 1) * n == |t.0| * n + n;
    }
  }

  lemma {:induction false} CutNth(b: seq<byte>, n: nat, i: nat)
    requires n > 0 && i < |Cut(b, n).0|
    ensures 0 <= i * n && i * n + n <= |b| && Cut(b, n).0[i] == b[i * n..i * n + n]
    decreases i
  {
    if i > 0 {
      CutNth(b[n..], n, i - 1);
      assert (i - 1) * n == i * n - n;
    } else {
      assert i * n == 0;
    }
  }

  lemma {:induction false} FeedFixedFrom(done: seq<byte>, n: nat, chunks: seq<seq<byte>>)
    requires 0 < n <= MAX_CLIENT_BUFFER_SIZE && ChunkSizes(chunks)
    ensures FeedAllFixed(Conn(Cut(done, n).1, Cut(done, n).0, Running), n, chunks)
         == var r := Cut(done + Flatten(chunks), n); Conn(r.1, r.0, Running)
    decreases |chunks|
  {
    if chunks == [] {
      assert done + Flatten(chunks) == done;
    } else {
      assert done + Flatten(chunks) == (done + chunks[0]) + Flatten(chunks[1..]);
      CutSplit(done, chunks[0], n);
      FeedFixedFrom(done + chunks[0], n, chunks[1..]);
    }
  }

  /** After any run with T bytes received, T / n messages were delivered, the i-th one is bytes
      i * n to (i + 1) * n of the stream, and the last T % n bytes wait. */
  lemma FixedSizeDemarcation(n: nat, chunks: seq<seq<byte>>)
    requires 0 < n <= MAX_CLIENT_BUFFER_SIZE && ChunkSizes(chunks)
    ensures var r, all := FeedAllFixed(START, n, chunks), Flatten(chunks);
            && r.outcome == Running
            && |r.delivered| == |all| / n && |r.queue| == |all| % n
            && (forall i: nat | i < |r.delivered| ::
                  r.delivered[i] == Bytes(all, i * n, i * n + n) && |r.delivered[i]| == n)
            && r.queue == all[|all| - |r.queue|..]
  {
    var all := Flatten(chunks);
    FeedFixedFrom([], n, chunks);
    assert [] + all == all;
    CutCount(all, n);
    var r := Cut(all, n);
    DivMod(|all|, n, |r.0|, |r.1|);
    forall i: nat | i < |r.0| ensures r.0[i] == Bytes(all, i * n, i * n + n) && |r.0[i]| == n {
      CutNth(all, n, i);
    }
  }
}
