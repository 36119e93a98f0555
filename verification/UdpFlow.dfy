/**
 The framing of forwarded datagrams, each behind its 16-bit length. `Decode` is the
 reference reading of a whole byte stream, defined without any notion of chunks.
 */
module DatagramStream {
  import opened Bytes

  const MAX_DATAGRAM := 65535

  type Datagram = d: seq<Byte> | |d| <= MAX_DATAGRAM

  function Frame(d: Datagram): (f: seq<Byte>) {
    U16(|d|) + d
  }

  function FrameAll(ds: seq<Datagram>): (stream: seq<Byte>) {
    if ds == [] then [] else Frame(ds[0]) + FrameAll(ds[1..])
  }

  /** h is a proper beginning of a frame: nothing in it can be sent yet. */
  predicate Incomplete(h: seq<Byte>) {
    |h| < 2 || |h| < 2 + FromU16(h[0], h[1])
  }

  /** h is exactly one frame. */
  predicate Complete(h: seq<Byte>) {
    |h| >= 2 && |h| == 2 + FromU16(h[0], h[1])
  }

  datatype Decoded = Decoded(datagrams: seq<Datagram>, rest: seq<Byte>)

  function Decode(s: seq<Byte>): (d: Decoded)
    ensures Incomplete(d.rest)
    ensures FrameAll(d.datagrams) + d.rest == s
  {
    if Incomplete(s) then
      Decoded([], s)
    else
      var n := FromU16(s[0], s[1]);
      var tail := Decode(s[2 + n..]);
      SplitFrame(s);
      FrameAllPushFront(s[2..2 + n], tail.datagrams, tail.rest);
      Decoded([s[2..2 + n]] + tail.datagrams, tail.rest)
  }

  lemma SplitFrame(s: seq<Byte>)
    requires !Incomplete(s)
    ensures var n := FromU16(s[0], s[1]); s == Frame(s[2..2 + n]) + s[2 + n..]
  {
    FromU16Inverse(s[0], s[1]);
  }

  lemma FrameAllPushFront(d: Datagram, ds: seq<Datagram>, rest: seq<Byte>)
    ensures FrameAll([d] + ds) + rest == Frame(d) + (FrameAll(ds) + rest)
  {
    assert ([d] + ds)[1..] == ds;
  }

  lemma FrameShape(d: Datagram)
    ensures |Frame(d)| == 2 + |d| && Frame(d)[2..] == d
    ensures FromU16(Frame(d)[0], Frame(d)[1]) == |d|
  {
    U16Value(|d|);
  }

  lemma DecodeFrame(d: Datagram, tail: seq<Byte>)
    ensures Decode(Frame(d) + tail) == Decoded([d] + Decode(tail).datagrams, Decode(tail).rest)
  {
    hide U16, FromU16, Frame, FrameAll;
    var s := Frame(d) + tail;
    FrameShape(d);
    assert s[0] == Frame(d)[0] && s[1] == Frame(d)[1];
    assert s[2..2 + |d|] == d && s[2 + |d|..] == tail;
  }

  /** A stream has only one reading: whatever was framed is what is decoded. */
  lemma {:induction false} DecodeUnique(ds: seq<Datagram>, rest: seq<Byte>)
    requires Incomplete(rest)
    ensures Decode(FrameAll(ds) + rest) == Decoded(ds, rest)
  {
    if ds == [] {
      assert FrameAll(ds) + rest == rest;
    } else {
      var tail := FrameAll(ds[1..]) + rest;
      FrameAllPushFront(ds[0], ds[1..], rest);
      assert [ds[0]] + ds[1..] == ds;
      DecodeFrame(ds[0], tail);
      DecodeUnique(ds[1..], rest);
    }
  }

  lemma {:induction false} FrameAllAppend(ds: seq<Datagram>, es: seq<Datagram>)
    ensures FrameAll(ds + es) == FrameAll(ds) + FrameAll(es)
  {
    hide Frame;
    if ds == [] {
      assert ds + es == es;
    } else {
      FrameAllAppend(ds[1..], es);
      assert (ds + es)[1..] == ds[1..] + es;
      assert Frame(ds[0]) + (FrameAll(ds[1..]) + FrameAll(es)) == (Frame(ds[0]) + FrameAll(ds[1..])) + FrameAll(es);
    }
  }

  lemma FrameAllPush(ds: seq<Datagram>, d: Datagram)
    ensures FrameAll(ds + [d]) == FrameAll(ds) + Frame(d)
  {
    FrameAllAppend(ds, [d]);
    assert FrameAll([d]) == Frame(d) + FrameAll([]);
  }
}

/**
 One UDP flow dressed as a stream connection: `Read` yields queued datagrams framed, `Write`
 reassembles frames out of arbitrary chunks and sends each completed datagram to the source.
 */
module UdpFlows {
  import opened Bytes
  import opened DatagramStream

  const FLOW_QUEUE := 256

  datatype WriteError = NoError | ErrClosed | ErrSend

  datatype ReadResult = Data(n: nat) | Eof | WouldBlock

  /** What has gone out to the source so far, and the bytes held back for the next datagram. */
  datatype Wire = Wire(sent: seq<Datagram>, held: seq<Byte>) {
    function Stream(): seq<Byte> {
      FrameAll(sent) + held
    }

    predicate WellFormed() {
      Incomplete(held) || Complete(held)
    }
  }

  /**
   What one call of Write may do: it takes the first n bytes of p, neither losing nor repeating a
   byte of the stream; it stops early only on an error; on success no whole datagram is left
   behind; on a failed send the datagram that failed is left whole, to be tried again.
   */
  predicate Extends(before: Wire, taken: seq<Byte>, after: Wire) {
    before.sent <= after.sent && after.Stream() == before.Stream() + taken
  }

  predicate WriteAllowed(before: Wire, p: seq<Byte>, n: nat, err: WriteError, after: Wire) {
    && n <= |p|
    && after.WellFormed()
    && Extends(before, p[..n], after)
    && (err == NoError ==> n == |p|)
    && (err == NoError && p != [] ==> Incomplete(after.held))
    && (p == [] ==> err == NoError && after == before)
    && (err == ErrSend ==> Complete(after.held))
  }

  class UdpFlow {
    var queue: seq<Datagram>
    var closed: bool
    // What Read has not yet yielded of the frame it is in.
    var pending: seq<Byte>
    // The reassembly state for Write.
    const hdr: array<Byte>
    var hdrN: nat
    var body: seq<Byte>
    var want: nat
    // The socket towards the source: the fate of its k-th send is faults(k).
    const faults: nat -> bool
    var attempts: nat
    var sent: seq<Datagram>
    // History.
    ghost var arrived: seq<Datagram>
    ghost var accepted: seq<Datagram>
    ghost var yielded: seq<Byte>

    /** The bytes Write has taken but not yet sent, exactly as they arrived. */
    ghost function Held(): seq<Byte>
      reads this`hdrN, this`body, hdr
    {
      if hdrN <= hdr.Length then hdr[..hdrN] + body else body
    }

    ghost predicate WriteSideValid()
      reads this`hdrN, this`body, this`want, this`sent, hdr
    {
      && hdr.Length == 2
      && hdrN <= 2
      && (hdrN < 2 ==> body == [] && want == 0)
      && (hdrN == 2 ==> want == FromU16(hdr[0], hdr[1]) && |body| <= want)
      && OnWire().WellFormed()
    }

    ghost predicate ReadSideValid()
      reads this`queue, this`pending, this`arrived, this`accepted, this`yielded
    {
      && |queue| <= FLOW_QUEUE
      && IsSubsequence(accepted, arrived)
      && yielded + pending + FrameAll(queue) == FrameAll(accepted)
    }

    ghost predicate Valid()
      reads this, hdr
    {
      WriteSideValid() && ReadSideValid()
    }

    ghost function OnWire(): Wire
      reads this`hdrN, this`body, this`sent, hdr
    {
      Wire(sent, Held())
    }

    constructor (faults: nat -> bool)
      ensures Valid() && fresh(hdr)
      ensures OnWire() == Wire([], []) && queue == [] && !closed
      ensures arrived == [] && accepted == [] && yielded == [] && this.faults == faults
    {
      queue, closed, pending := [], false, [];
      hdr := new Byte[2](_ => 0);
      hdrN, body, want := 0, [], 0;
      this.faults, attempts, sent := faults, 0, [];
      arrived, accepted, yielded := [], [], [];
    }

    /** Queues a datagram unless the queue is full or the flow closed; when the flow is closed and
        there is room, either branch of the select may be taken. */
    method Deliver(payload: Datagram, takeQueue: bool)
      requires ReadSideValid()
      modifies this`arrived, this`accepted, this`queue
      ensures ReadSideValid()
      ensures arrived == old(arrived) + [payload]
      ensures accepted == if |old(queue)| < 256 && (!old(closed) || takeQueue)
                          then old(accepted) + [payload] else old(accepted)
      ensures queue == if |old(queue)| < 256 && (!old(closed) || takeQueue)
                       then old(queue) + [payload] else old(queue)
    {
      SubsequenceSkip(accepted, arrived, payload);
      if |queue| < FLOW_QUEUE && (!closed || takeQueue) {
        SubsequenceTake(accepted, arrived, payload);
        QueuePush(yielded + pending, queue, accepted, payload);
        queue, accepted := queue + [payload], accepted + [payload];
      }
      arrived := arrived + [payload];
    }

    method Close()
      modifies this`closed
      ensures closed
    {
      closed := true;
    }

    /** Fills p from the frame in progress, fetching the next queued datagram when there is none.
        The end is reported only once the flow is closed and everything queued has been yielded. */
    method Read(p: array<Byte>) returns (r: ReadResult)
      requires ReadSideValid() && p != hdr
      modifies this`queue, this`pending, this`yielded, p
      ensures ReadSideValid()
      ensures r.Data? ==>
                && r.n <= p.Length
                && yielded == old(yielded) + p[..r.n]
                && (p.Length > 0 ==> r.n > 0)
                && p[r.n..] == old(p[r.n..])
      ensures !r.Data? ==> p[..] == old(p[..]) && queue == old(queue) == [] && yielded == old(yielded)
      ensures r.Eof? ==> closed && yielded == FrameAll(accepted)
      ensures r.WouldBlock? ==> !closed && yielded == FrameAll(accepted)
    {
      while |pending| == 0
        invariant ReadSideValid()
        invariant yielded == old(yielded) && p[..] == old(p[..])
        invariant |pending| == 0 ==> queue == old(queue)
        decreases if |pending| == 0 then 1 else 0
      {
        if queue == [] {
          return if closed then Eof else WouldBlock;
        }
        var payload := queue[0];
        assert FrameAll(queue) == Frame(payload) + FrameAll(queue[1..]);
        assert yielded + pending + FrameAll(queue) == yielded + Frame(payload) + FrameAll(queue[1..]);
        pending, queue := U16(|payload|) + payload, queue[1..];
      }
      var n := if p.Length < |pending| then p.Length else |pending|;
      forall i | 0 <= i < n {
        p[i] := pending[i];
      }
      assert p[..n] == pending[..n];
      assert yielded + pending == (yielded + pending[..n]) + pending[n..];
      yielded, pending := yielded + pending[..n], pending[n..];
      return Data(n);
    }

    /** One datagram back to the source. */
    method Send(payload: Datagram) returns (ok: bool)
      modifies this`attempts, this`sent
      ensures ok == !faults(old(attempts)) && attempts == old(attempts) + 1
      ensures sent == if ok then old(sent) + [payload] else old(sent)
    {
      ok := !faults(attempts);
      attempts := attempts + 1;
      if ok {
        sent := sent + [payload];
      }
    }

    /** Reassembles datagrams out of p and sends each completed one. Another goroutine's Close
        becomes visible at the closeAt-th look at the done channel. */
    method Write(p: seq<Byte>, closeAt: nat) returns (n: nat, err: WriteError)
      requires WriteSideValid()
      modifies this`hdrN, this`body, this`want, this`attempts, this`sent, this`closed, hdr
      ensures WriteSideValid()
      ensures WriteAllowed(old(OnWire()), p, n, err, OnWire())
      ensures err == ErrClosed <==> closed && n < |p| && err != ErrSend
      ensures !old(closed) && closeAt > |p| ==> !closed
      ensures old(closed) && p != [] ==> err == ErrClosed && n == 0 && OnWire() == old(OnWire())
      ensures err == ErrSend ==> attempts > 0 && faults(attempts - 1)
    {
      hide *;
      var rest, looks := p, 0;
      n := 0;
      ghost var before := OnWire();
      ghost var now := before;
      HeldIsWellFormed();
      ProgressStarts(before, p);
      while |rest| > 0
        invariant WriteSideValid() && now == OnWire()
        invariant n <= |p| && rest == p[n..] && Progress(before, p, n, now)
        invariant looks <= n + if Complete(now.held) then 0 else 1
        invariant closed == old(closed) && (closed ==> n == 0 && now == before)
        decreases |rest|, Complete(now.held)
      {
        if closed || looks >= closeAt {
          closed := true;
          ProgressEnds(before, p, n, now);
          return n, ErrClosed;
        }
        looks := looks + 1;
        var k, ok := Advance(rest);
        ProgressTurn(before, p, n, now, k, ok, OnWire());
        n, rest, now := n + k, rest[k..], OnWire();
        if !ok {
          return n, ErrSend;
        }
      }
      ProgressEnds(before, p, n, now);
      return n, NoError;
    }

    lemma HeldIsWellFormed()
      requires WriteSideValid()
      ensures OnWire().WellFormed()
    {
    }

    /** One turn of the loop in Write. */
    method Advance(rest: seq<Byte>) returns (k: nat, ok: bool)
      requires WriteSideValid() && |rest| > 0
      modifies this`hdrN, this`body, this`want, this`attempts, this`sent, hdr
      ensures WriteSideValid() && k <= |rest|
      ensures Turn(old(OnWire()), rest[..k], ok, OnWire())
      ensures k == 0 ==> Complete(old(OnWire()).held)
      ensures ok ==> !Complete(OnWire().held)
      ensures !ok ==> attempts > 0 && faults(attempts - 1)
    {
      if hdrN < 2 {
        k, ok := FillHeader(rest);
      } else {
        k, ok := FillBody(rest);
      }
    }

    /** The branch that is still reading a length; a zero length is a whole datagram. */
    method FillHeader(rest: seq<Byte>) returns (k: nat, ok: bool)
      requires WriteSideValid() && hdrN < 2 && |rest| > 0
      modifies this`hdrN, this`body, this`want, this`attempts, this`sent, hdr
      ensures WriteSideValid() && 0 < k <= |rest|
      ensures Turn(old(OnWire()), rest[..k], ok, OnWire())
      ensures !ok ==> attempts > 0 && faults(attempts - 1)
    {
      hide FrameAll, Frame, U16, IsSubsequence;
      k, ok := if |rest| < 2 - hdrN then |rest| else 2 - hdrN, true;
      ghost var held := Held() + rest[..k];
      CopyHeader(rest, k);
      assert Held() == held;
      if hdrN == 2 {
        want, body := FromU16(hdr[0], hdr[1]), [];
        if want == 0 {
          ok := Send([]);
          if ok {
            hdrN := 0;
            assert held[2..] == [] && Held() == [];
          }
        }
      }
    }

    /** The branch that is filling a body; with the body already whole it only tries the send again. */
    method FillBody(rest: seq<Byte>) returns (k: nat, ok: bool)
      requires WriteSideValid() && hdrN == 2 && |rest| > 0
      modifies this`hdrN, this`body, this`want, this`attempts, this`sent
      ensures WriteSideValid() && k <= |rest|
      ensures Turn(old(OnWire()), rest[..k], ok, OnWire())
      ensures k == 0 ==> Complete(old(Held()))
      ensures !ok ==> attempts > 0 && faults(attempts - 1)
    {
      k, ok := if |rest| < want - |body| then |rest| else want - |body|, true;
      ghost var held := Held() + rest[..k];
      body := body + rest[..k];
      assert Held() == held;
      if |body| == want {
        assert held[2..] == body;
        ok := Send(body);
        if ok {
          hdrN, want, body := 0, 0, [];
          assert Held() == [];
        }
      }
    }

    /** copy(f.hdr[f.hdrN:], rest) for the k bytes that fit. */
    method CopyHeader(rest: seq<Byte>, k: nat)
      requires WriteSideValid() && hdrN + k <= 2 && k <= |rest|
      modifies this`hdrN, hdr
      ensures hdrN == old(hdrN) + k
      ensures hdr[..hdrN] == old(hdr[..hdrN]) + rest[..k]
    {
      ghost var start := hdr[..hdrN];
      forall i | 0 <= i < k {
        hdr[hdrN + i] := rest[i];
      }
      hdrN := hdrN + k;
      assert hdr[..hdrN] == start + rest[..k];
    }
  }

  lemma QueuePush(out: seq<Byte>, queue: seq<Datagram>, accepted: seq<Datagram>, d: Datagram)
    requires out + FrameAll(queue) == FrameAll(accepted)
    ensures out + FrameAll(queue + [d]) == FrameAll(accepted + [d])
  {
    hide *;
    FrameAllPush(queue, d);
    FrameAllPush(accepted, d);
    assert out + (FrameAll(queue) + Frame(d)) == (out + FrameAll(queue)) + Frame(d);
  }

  lemma ProgressStarts(w: Wire, p: seq<Byte>)
    ensures Progress(w, p, 0, w)
  {
  }

  /** A turn of Write's loop that took `taken`: it only holds the bytes back, or they complete a
      frame whose datagram is sent, or they complete one whose send fails and which stays held. */
  predicate Turn(before: Wire, taken: seq<Byte>, ok: bool, after: Wire) {
    var held := before.held + taken;
    if Complete(held) && ok then
      after == Wire(before.sent + [held[2..]], [])
    else
      after == Wire(before.sent, held) && (if ok then Incomplete(held) else Complete(held))
  }

  predicate Progress(before: Wire, p: seq<Byte>, n: nat, now: Wire)
    requires n <= |p|
  {
    && Extends(before, p[..n], now)
    && ((n == 0 && now == before) || (p != [] && Incomplete(now.held)))
  }

  lemma TurnExtends(before: Wire, taken: seq<Byte>, ok: bool, after: Wire)
    requires Turn(before, taken, ok, after)
    ensures Extends(before, taken, after)
  {
    var held := before.held + taken;
    if Complete(held) && ok {
      FromU16Inverse(held[0], held[1]);
      assert Frame(held[2..]) == held;
      FrameAllPush(before.sent, held[2..]);
    }
    assert FrameAll(before.sent) + held == before.Stream() + taken;
  }

  lemma ProgressEnds(before: Wire, p: seq<Byte>, n: nat, now: Wire)
    requires n <= |p| && before.WellFormed() && Progress(before, p, n, now)
    ensures n < |p| ==> WriteAllowed(before, p, n, ErrClosed, now)
    ensures n == |p| ==> WriteAllowed(before, p, n, NoError, now)
  {
  }

  lemma ProgressTurn(before: Wire, p: seq<Byte>, n: nat, was: Wire, k: nat, ok: bool, now: Wire)
    requires n + k <= |p| && n < |p|
    requires Progress(before, p, n, was) && Turn(was, p[n..][..k], ok, now)
    ensures p[n..][k..] == p[n + k..]
    ensures Extends(before, p[..n + k], now)
    ensures if ok then Progress(before, p, n + k, now) else WriteAllowed(before, p, n + k, ErrSend, now)
  {
    TurnExtends(was, p[n..][..k], ok, now);
    ExtendsChain(before, p[..n], was, p[n..][..k], now);
    assert p[..n] + p[n..][..k] == p[..n + k];
  }

  lemma ExtendsChain(a: Wire, x: seq<Byte>, b: Wire, y: seq<Byte>, c: Wire)
    requires Extends(a, x, b) && Extends(b, y, c)
    ensures Extends(a, x + y, c)
  {
    assert (a.Stream() + x) + y == a.Stream() + (x + y);
  }

  // Whole runs of Write, whatever the chunks and whatever failed on the way.

  datatype Call = Call(p: seq<Byte>, n: nat, err: WriteError, after: Wire) {
    function Took(): seq<Byte> {
      if n <= |p| then p[..n] else p
    }
  }

  function End(start: Wire, calls: seq<Call>): Wire {
    if calls == [] then start else calls[|calls| - 1].after
  }

  predicate WriteRun(start: Wire, calls: seq<Call>) {
    calls == [] ||
    (var c := calls[|calls| - 1];
     && WriteRun(start, calls[..|calls| - 1])
     && WriteAllowed(End(start, calls[..|calls| - 1]), c.p, c.n, c.err, c.after))
  }

  /** All the bytes the calls of a run took, in order. */
  function Taken(calls: seq<Call>): seq<Byte>
  {
    if calls == [] then [] else Taken(calls[..|calls| - 1]) + calls[|calls| - 1].Took()
  }

  /** No byte is lost or repeated, even across failed sends and their retries. */
  lemma {:induction false} RunConserves(start: Wire, calls: seq<Call>)
    requires WriteRun(start, calls)
    ensures Extends(start, Taken(calls), End(start, calls))
    ensures start.WellFormed() ==> End(start, calls).WellFormed()
  {
    if calls == [] {
      assert start.Stream() + [] == start.Stream();
    } else {
      var c := calls[|calls| - 1];
      var front := calls[..|calls| - 1];
      RunConserves(start, front);
      ExtendsChain(start, Taken(front), End(start, front), c.p[..c.n], c.after);
    }
  }

  /** However a stream is cut into calls of Write, and whichever sends failed before, once a call
      succeeds the datagrams sent are the decoding of the whole stream and the rest is held. */
  lemma {:induction false} ChunkIndependence(calls: seq<Call>)
    requires WriteRun(Wire([], []), calls) && calls != []
    requires calls[|calls| - 1].err == NoError && calls[|calls| - 1].p != []
    ensures Decode(Taken(calls)) == Decoded(End(Wire([], []), calls).sent, End(Wire([], []), calls).held)
  {
    var start := Wire([], []);
    RunConserves(start, calls);
    assert start.Stream() + Taken(calls) == Taken(calls);
    var w := End(start, calls);
    DecodeUnique(w.sent, w.held);
  }

  /** Two runs over the same bytes that both end in success leave the same state. */
  lemma {:induction false} ChunkingIsInvisible(one: seq<Call>, two: seq<Call>)
    requires WriteRun(Wire([], []), one) && one != [] && one[|one| - 1].err == NoError && one[|one| - 1].p != []
    requires WriteRun(Wire([], []), two) && two != [] && two[|two| - 1].err == NoError && two[|two| - 1].p != []
    requires Taken(one) == Taken(two)
    ensures End(Wire([], []), one) == End(Wire([], []), two)
  {
    ChunkIndependence(one);
    ChunkIndependence(two);
  }

  /** What Read yields for the accepted datagrams, fed back through Write in any chunks, sends
      exactly those datagrams in order and leaves nothing behind. */
  lemma RoundTrip(accepted: seq<Datagram>, calls: seq<Call>)
    requires WriteRun(Wire([], []), calls) && calls != []
    requires calls[|calls| - 1].err == NoError && calls[|calls| - 1].p != []
    requires Taken(calls) == FrameAll(accepted)
    ensures End(Wire([], []), calls) == Wire(accepted, [])
  {
    ChunkIndependence(calls);
    DecodeUnique(accepted, []);
    assert FrameAll(accepted) + [] == FrameAll(accepted);
  }

  /** After a failed send the next nonempty Write deals with the datagram that failed first: it
      either sends that datagram before any other, or takes no byte at all. */
  lemma RetryComesFirst(before: Wire, p: seq<Byte>, n: nat, err: WriteError, after: Wire)
    requires WriteAllowed(before, p, n, err, after) && Complete(before.held)
    ensures after.sent == before.sent ==> n == 0 && after.held == before.held
    ensures after.sent != before.sent ==> after.sent[|before.sent|] == before.held[2..]
  {
    var sentNow := after.sent[|before.sent|..];
    assert after.sent == before.sent + sentNow;
    FrameAllAppend(before.sent, sentNow);
    var x := before.held + p[..n];
    assert FrameAll(before.sent) + (FrameAll(sentNow) + after.held) == after.Stream();
    assert FrameAll(before.sent) + x == before.Stream() + p[..n];
    PrefixCancels(FrameAll(before.sent), FrameAll(sentNow) + after.held, x);
    if sentNow == [] {
      assert after.held == x;
    } else {
      FrameShape(sentNow[0]);
      var tail := FrameAll(sentNow[1..]) + after.held;
      FrameAllPushFront(sentNow[0], sentNow[1..], after.held);
      assert [sentNow[0]] + sentNow[1..] == sentNow;
      assert x == Frame(sentNow[0]) + tail;
      assert x[0] == before.held[0] == Frame(sentNow[0])[0] && x[1] == before.held[1] == Frame(sentNow[0])[1];
      assert x[2..|before.held|] == before.held[2..];
      assert x[2..2 + |sentNow[0]|] == sentNow[0];
    }
  }

  lemma PrefixCancels(a: seq<Byte>, x: seq<Byte>, y: seq<Byte>)
    requires a + x == a + y
    ensures x == y
  {
    assert (a + x)[|a|..] == x && (a + y)[|a|..] == y;
  }
}
