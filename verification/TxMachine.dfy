/**
 Sending by reference as a state machine over whole runs: the application's memory, the writer's calls,
 and lwIP, which reads the memory whenever it transmits a queued piece, until the piece is acknowledged.
 */
module TxMachine {
  import opened Wrappers
  import opened Sequences
  import opened Lwip
  import opened SendPlan
  import opened TcpWriting
  import SendRuns

  /** The contents of the application's arrays. */
  type Memory = map<array<byte>, seq<byte>>

  /** A call of the writer: its data as it was then, how much of it was queued, and the result. */
  datatype Call = Call(data: seq<byte>, queued: nat, result: nat)

  /** A retransmission of the k-th piece. */
  datatype Again = Again(k: nat, bytes: seq<byte>)

  /**
   Of the queued pieces the first `sent` have been transmitted and the first `acked` acknowledged. `wire` is
   what was transmitted for the first time, in order, and `resent` what was transmitted again. For the record,
   `promised` is what each piece held when it was queued, and `calls` lists the calls.
   */
  datatype Tx = Tx(mem: Memory, queue: seq<Chunk>, space: nat, sent: nat, acked: nat,
                   wire: seq<byte>, resent: seq<Again>, promised: seq<seq<byte>>, calls: seq<Call>)

  datatype Event =
    | Write(data: array<byte>, base: nat, size: nat, outcomes: seq<int>)
    | Store(data: array<byte>, i: nat, v: byte)
    | Transmit
    | Retransmit(k: nat)
    | Acknowledge(n: nat)

  predicate Inside(mem: Memory, c: Chunk) {
    c.src in mem && c.start + c.len <= |mem[c.src]|
  }

  /** What a piece holds now. */
  function Held(mem: Memory, c: Chunk): seq<byte> {
    if Inside(mem, c) then mem[c.src][c.start..c.start + c.len] else []
  }

  function Stored(cells: seq<byte>, i: nat, v: byte): seq<byte>
    requires i < |cells|
  {
    cells[i := v]
  }

  function HeldBy(mem: Memory, q: seq<Chunk>): (r: seq<seq<byte>>)
    ensures |r| == |q| && forall k | 0 <= k < |q| :: r[k] == Held(mem, q[k])
  {
    seq(|q|, k requires 0 <= k < |q| => Held(mem, q[k]))
  }

  function Length(q: seq<Chunk>): nat {
    if q == [] then 0 else q[0].len + Length(q[1..])
  }

  /** An event that is not possible in a state leaves it as it is. */
  ghost function Step(s: Tx, e: Event): Tx {
    match e
    case Write(data, base, size, outcomes) =>
      if data !in s.mem || |s.mem[data]| < base + size then s
      else
        var pieces := Queued(size, s.space, outcomes);
        QueuedTotal(size, s.space, outcomes);
        var more := Refs(data, base, pieces);
        s.(queue := s.queue + more, space := s.space - Total(pieces), promised := s.promised + HeldBy(s.mem, more),
           calls := s.calls + [Call(s.mem[data][base..base + size], Total(pieces), Returned(size, s.space, outcomes))])
    case Store(data, i, v) =>
      if data !in s.mem || |s.mem[data]| <= i then s else s.(mem := s.mem[data := Stored(s.mem[data], i, v)])
    case Transmit =>
      if s.sent >= |s.queue| then s
      else s.(wire := s.wire + Held(s.mem, s.queue[s.sent]), sent := s.sent + 1)
    case Retransmit(k) =>
      if !(s.acked <= k < s.sent <= |s.queue|) then s
      else s.(resent := s.resent + [Again(k, Held(s.mem, s.queue[k]))])
    case Acknowledge(n) =>
      if !(s.acked + n <= s.sent <= |s.queue|) then s
      else s.(acked := s.acked + n, space := s.space + Length(s.queue[s.acked..s.acked + n]))
  }

  ghost function Run(s: Tx, es: seq<Event>): Tx
    decreases |es|
  {
    if es == [] then s else Run(Step(s, es[0]), es[1..])
  }

  /** Nothing sent yet, with any memory and any free space. */
  predicate Initial(s: Tx) {
    s == Tx(s.mem, [], s.space, 0, 0, [], [], [], [])
  }

  // ---------------------------------------------------------------- stores that matter

  /** The store changes a cell of a piece that is not acknowledged. */
  ghost predicate Disturbs(s: Tx, e: Event) {
    && e.Store? && e.data in s.mem && e.i < |s.mem[e.data]| && e.v != s.mem[e.data][e.i]
    && exists k | s.acked <= k < |s.queue| :: Covers(s.queue[k], e.data, e.i)
  }

  predicate Covers(c: Chunk, a: array<byte>, i: nat) {
    c.src == a && c.start <= i < c.start + c.len
  }

  ghost predicate Undisturbed(s: Tx, es: seq<Event>)
    decreases |es|
  {
    es == [] || (!Disturbs(s, es[0]) && Undisturbed(Step(s, es[0]), es[1..]))
  }

  // ---------------------------------------------------------------- the stream that the calls promise

  /** A call queues a prefix of its data, all of it exactly when it succeeds. */
  predicate CallOk(c: Call) {
    c.queued <= |c.data| && c.result in {0, |c.data|} && (c.result == |c.data| <==> c.queued == |c.data|)
  }

  function StreamOf(calls: seq<Call>): seq<byte>
    requires forall c | c in calls :: CallOk(c)
  {
    if calls == [] then []
    else
      var last := calls[|calls| - 1];
      assert last in calls && CallOk(last);
      StreamOf(calls[..|calls| - 1]) + last.data[..last.queued]
  }

  function DataOf(calls: seq<Call>): seq<byte> {
    if calls == [] then [] else DataOf(calls[..|calls| - 1]) + calls[|calls| - 1].data
  }

  lemma {:induction false} StreamWhenAccepted(calls: seq<Call>)
    requires forall c | c in calls :: CallOk(c) && c.result == |c.data|
    ensures StreamOf(calls) == DataOf(calls)
    decreases |calls|
  {
    if calls != [] {
      StreamWhenAccepted(calls[..|calls| - 1]);
      assert calls[|calls| - 1] in calls;
    }
  }

  lemma StreamSnoc(calls: seq<Call>, c: Call)
    requires CallOk(c) && forall d | d in calls :: CallOk(d)
    ensures forall d | d in calls + [c] :: CallOk(d)
    ensures StreamOf(calls + [c]) == StreamOf(calls) + c.data[..c.queued]
  {
    assert (calls + [c])[..|calls|] == calls;
  }

  /** Pieces that tile some cells hold the contents of those cells. */
  lemma {:induction false} TilesHold(mem: Memory, q: seq<Chunk>, data: array<byte>, from: nat, to: nat)
    requires data in mem && Tiles(q, data, from, to) && to <= |mem[data]|
    ensures from <= to && Flatten(HeldBy(mem, q)) == mem[data][from..to]
    ensures forall c | c in q :: Inside(mem, c)
    decreases |q|
  {
    hide Flatten, HeldBy;
    if q == [] {
      assert Flatten(HeldBy(mem, q)) == [] by { HeldNothing(mem); }
    } else {
      var mid := from + q[0].len;
      TilesHold(mem, q[1..], data, mid, to);
      HeldCons(mem, q);
      Slices(mem[data], from, mid, to);
      assert forall c | c in q :: c == q[0] || c in q[1..];
    }
  }

  lemma HeldNothing(mem: Memory)
    ensures Flatten(HeldBy(mem, [])) == []
  {
  }

  lemma HeldCons(mem: Memory, q: seq<Chunk>)
    requires q != []
    ensures Flatten(HeldBy(mem, q)) == Held(mem, q[0]) + Flatten(HeldBy(mem, q[1..]))
  {
    assert HeldBy(mem, q)[1..] == HeldBy(mem, q[1..]);
  }

  lemma Slices(s: seq<byte>, a: nat, b: nat, c: nat)
    requires a <= b <= c <= |s|
    ensures s[a..c] == s[a..b] + s[b..c]
  {
  }

  /** The pieces of one call hold a prefix of its data. */
  lemma CallHolds(mem: Memory, data: array<byte>, base: nat, size: nat, space: nat, outcomes: seq<int>)
    requires data in mem && base + size <= |mem[data]|
    ensures var more := Refs(data, base, Queued(size, space, outcomes));
            var call := Call(mem[data][base..base + size], Total(Queued(size, space, outcomes)),
                             Returned(size, space, outcomes));
            && CallOk(call) && Flatten(HeldBy(mem, more)) == call.data[..call.queued]
            && forall c | c in more :: Inside(mem, c)
  {
    hide Queued, Total, Refs, Tiles, HeldBy, Flatten, Inside;
    var pieces := Queued(size, space, outcomes);
    QueuedTotal(size, space, outcomes);
    QueuedContiguous(size, space, outcomes);
    RefsTile(data, base, pieces, 0);
    TilesHold(mem, Refs(data, base, pieces), data, base, base + Total(pieces));
    assert mem[data][base..base + size][..Total(pieces)] == mem[data][base..base + Total(pieces)];
  }

  // ---------------------------------------------------------------- what every step keeps

  /** Everything transmitted so far is what was promised. */
  ghost predicate Honest(s: Tx) {
    && s.sent <= |s.promised| && s.wire == Flatten(s.promised[..s.sent])
    && forall r | r in s.resent :: r.k < s.sent && r.bytes == s.promised[r.k]
  }

  predicate Sized(queue: seq<Chunk>, promised: seq<seq<byte>>) {
    |queue| == |promised| && forall k | 0 <= k < |queue| :: |promised[k]| == queue[k].len
  }

  ghost predicate Recorded(s: Tx) {
    && s.acked <= s.sent <= |s.queue| == |s.promised|
    && (forall c | c in s.queue :: Inside(s.mem, c))
    && Sized(s.queue, s.promised)
    && (forall c | c in s.calls :: CallOk(c))
    && Flatten(s.promised) == StreamOf(s.calls)
  }

  /** The pieces that may still be transmitted hold what was promised. */
  ghost predicate Kept(s: Tx)
    requires Recorded(s)
  {
    forall k | s.acked <= k < |s.queue| :: Held(s.mem, s.queue[k]) == s.promised[k]
  }

  lemma WriteRecorded(s: Tx, e: Event)
    requires Recorded(s) && e.Write? && e.data in s.mem && e.base + e.size <= |s.mem[e.data]|
    ensures Recorded(Step(s, e))
  {
    hide Queued, Total, Refs, Returned, Flatten, CallOk, Inside;
    CallHolds(s.mem, e.data, e.base, e.size, s.space, e.outcomes);
    var pieces := Queued(e.size, s.space, e.outcomes);
    var more := Refs(e.data, e.base, pieces);
    var call := Call(s.mem[e.data][e.base..e.base + e.size], Total(pieces), Returned(e.size, s.space, e.outcomes));
    StreamSnoc(s.calls, call);
    FlattenConcat(s.promised, HeldBy(s.mem, more));
    SizedWrite(s.mem, s.queue, s.promised, more);
  }

  lemma SizedWrite(mem: Memory, queue: seq<Chunk>, promised: seq<seq<byte>>, more: seq<Chunk>)
    requires Sized(queue, promised) && forall c | c in more :: Inside(mem, c)
    ensures Sized(queue + more, promised + HeldBy(mem, more))
  {
    assert forall k | 0 <= k < |more| :: more[k] in more;
  }

  lemma StepRecorded(s: Tx, e: Event)
    requires Recorded(s)
    ensures Recorded(Step(s, e))
  {
    hide Queued, Total, Refs, Returned, Flatten, CallOk, StreamOf, Sized;
    match e
    case Write(data, base, size, outcomes) =>
      if data in s.mem && base + size <= |s.mem[data]| { WriteRecorded(s, e); }
    case Store(data, i, v) =>
    case Transmit =>
    case Retransmit(k) =>
    case Acknowledge(n) =>
  }

  lemma StepKept(s: Tx, e: Event)
    requires Recorded(s) && Kept(s) && !Disturbs(s, e)
    ensures Recorded(Step(s, e)) && Kept(Step(s, e))
  {
    hide Queued, Total, Refs, Returned, Flatten, StreamOf, Sized, CallOk, Held;
    StepRecorded(s, e);
    if e.Store? && e.data in s.mem && e.i < |s.mem[e.data]| {
      forall k | s.acked <= k < |s.queue|
        ensures Held(Step(s, e).mem, s.queue[k]) == s.promised[k]
      {
        assert s.queue[k] in s.queue;
        StoreHolds(s.mem, s.queue[k], e.data, e.i, e.v);
      }
    }
  }

  /** Storing into a cell changes a slice exactly when the cell is in it and the value differs. */
  lemma SliceUpdate(s: seq<byte>, i: nat, v: byte, lo: nat, hi: nat)
    requires i < |s| && lo <= hi <= |s|
    ensures s[i := v][lo..hi] == s[lo..hi] <==> !(lo <= i < hi) || v == s[i]
  {
    if lo <= i < hi && v != s[i] {
      assert s[i := v][lo..hi][i - lo] != s[lo..hi][i - lo];
    } else if lo <= i < hi {
      assert s[i := v] == s;
    } else {
      assert s[i := v][lo..hi] == s[lo..hi];
    }
  }

  /** A store changes what a piece holds exactly when the cell is one of its own and the value is new. */
  lemma StoreHolds(mem: Memory, c: Chunk, data: array<byte>, i: nat, v: byte)
    requires data in mem && i < |mem[data]| && Inside(mem, c)
    ensures Held(mem[data := Stored(mem[data], i, v)], c) == Held(mem, c) <==> !Covers(c, data, i) || v == mem[data][i]
  {
    if c.src == data {
      SliceUpdate(mem[data], i, v, c.start, c.start + c.len);
    }
  }

  lemma FlattenOne(bytes: seq<byte>)
    ensures Flatten([bytes]) == bytes
  {
  }

  lemma StepHonest(s: Tx, e: Event)
    requires Recorded(s) && Kept(s) && Honest(s)
    ensures Honest(Step(s, e))
  {
    hide Queued, Total, Refs, Returned, StreamOf, Held;
    match e
    case Write(data, base, size, outcomes) =>
      assert Step(s, e).promised[..s.sent] == s.promised[..s.sent];
    case Store(data, i, v) =>
    case Transmit =>
      if s.sent < |s.queue| {
        FlattenConcat(s.promised[..s.sent], [s.promised[s.sent]]);
        FlattenOne(s.promised[s.sent]);
        assert s.promised[..s.sent] + [s.promised[s.sent]] == s.promised[..s.sent + 1];
      }
    case Retransmit(k) =>
    case Acknowledge(n) =>
  }

  lemma {:induction false} RunKeeps(s: Tx, es: seq<Event>)
    requires Recorded(s) && Kept(s) && Honest(s) && Undisturbed(s, es)
    ensures Recorded(Run(s, es)) && Kept(Run(s, es)) && Honest(Run(s, es))
    decreases |es|
  {
    if es != [] {
      StepKept(s, es[0]);
      StepHonest(s, es[0]);
      RunKeeps(Step(s, es[0]), es[1..]);
    }
  }

  /** The bytes are those that were transmitted for the k-th piece the first time. */
  predicate Repeats(s: Tx, r: Again) {
    && r.k < |s.queue| && Length(s.queue[..r.k]) + s.queue[r.k].len <= |s.wire|
    && r.bytes == s.wire[Length(s.queue[..r.k])..Length(s.queue[..r.k]) + s.queue[r.k].len]
  }

  lemma {:induction false} PromisedLength(queue: seq<Chunk>, promised: seq<seq<byte>>)
    requires Sized(queue, promised)
    ensures |Flatten(promised)| == Length(queue)
    decreases |queue|
  {
    if queue != [] { PromisedLength(queue[1..], promised[1..]); }
  }

  lemma PieceInStream(s: Tx, r: Again)
    requires Recorded(s) && Honest(s) && r in s.resent
    ensures Repeats(s, r)
  {
    var first, piece, rest := s.promised[..r.k], s.promised[r.k], s.promised[r.k + 1..s.sent];
    assert s.promised[..s.sent] == first + ([piece] + rest);
    FlattenConcat(first, [piece] + rest);
    assert ([piece] + rest)[1..] == rest;
    PromisedLength(s.queue[..r.k], first);
  }

  /**
   Zero-copy sending is faithful over every run in which no store changes a cell of an unacknowledged piece. What
   is transmitted is, in order, the data the calls were given at the time of the call: a prefix of the stream that
   the calls queued, and all of it once every piece has been transmitted. If all calls succeeded that stream is
   all their data. Every retransmission repeats the bytes transmitted at its place before.
   */
  lemma Faithful(s0: Tx, es: seq<Event>)
    requires Initial(s0) && Undisturbed(s0, es)
    ensures var s := Run(s0, es);
            && (forall c | c in s.calls :: CallOk(c))
            && s.wire <= StreamOf(s.calls)
            && (s.sent == |s.queue| ==> s.wire == StreamOf(s.calls))
            && ((forall c | c in s.calls :: c.result == |c.data|) ==> s.wire <= DataOf(s.calls))
            && forall r | r in s.resent :: Repeats(s, r)
  {
    hide Disturbs, Repeats;
    RunKeeps(s0, es);
    var s := Run(s0, es);
    assert s.promised == s.promised[..s.sent] + s.promised[s.sent..];
    FlattenConcat(s.promised[..s.sent], s.promised[s.sent..]);
    assert s.sent == |s.queue| ==> s.promised[..s.sent] == s.promised;
    if forall c | c in s.calls :: c.result == |c.data| { StreamWhenAccepted(s.calls); }
    forall r | r in s.resent
      ensures Repeats(s, r)
    {
      PieceInStream(s, r);
    }
  }

  // ---------------------------------------------------------------- the send buffer

  lemma {:induction false} LengthConcat(a: seq<Chunk>, b: seq<Chunk>)
    ensures Length(a + b) == Length(a) + Length(b)
  {
    if a == [] {
      assert a + b == b;
    } else {
      LengthConcat(a[1..], b);
      assert (a + b)[1..] == a[1..] + b;
    }
  }

  lemma {:induction false} LengthOfRefs(data: array<byte>, base: nat, pieces: seq<Piece>)
    ensures Length(Refs(data, base, pieces)) == Total(pieces)
    decreases |pieces|
  {
    if pieces != [] {
      LengthOfRefs(data, base, pieces[1..]);
      assert Refs(data, base, pieces)[1..] == Refs(data, base, pieces[1..]);
    }
  }

  /** The free space and the bytes queued and not acknowledged. */
  ghost function Buffer(s: Tx): nat
    requires s.acked <= |s.queue|
  {
    s.space + Length(s.queue[s.acked..])
  }

  lemma StepBuffer(s: Tx, e: Event)
    requires s.acked <= s.sent <= |s.queue|
    ensures var s' := Step(s, e); s'.acked <= s'.sent <= |s'.queue| && Buffer(s') == Buffer(s)
  {
    hide Queued, Total, Returned, Refs, Length, HeldBy;
    match e
    case Write(data, base, size, outcomes) =>
      if data in s.mem && base + size <= |s.mem[data]| {
        var more := Refs(data, base, Queued(size, s.space, outcomes));
        QueuedTotal(size, s.space, outcomes);
        LengthOfRefs(data, base, Queued(size, s.space, outcomes));
        LengthConcat(s.queue[s.acked..], more);
        assert (s.queue + more)[s.acked..] == s.queue[s.acked..] + more;
      }
    case Store(data, i, v) =>
    case Transmit =>
    case Retransmit(k) =>
    case Acknowledge(n) =>
      if s.acked + n <= s.sent {
        LengthConcat(s.queue[s.acked..s.acked + n], s.queue[s.acked + n..]);
        assert s.queue[s.acked..] == s.queue[s.acked..s.acked + n] + s.queue[s.acked + n..];
      }
  }

  /**
   Conservation of the send buffer over every run: the free space and the bytes in flight make up the space at the
   start, so that acknowledging everything gives all of it back.
   */
  lemma {:induction false} SpaceConserved(s: Tx, es: seq<Event>)
    requires s.acked <= s.sent <= |s.queue|
    ensures var s' := Run(s, es); s'.acked <= s'.sent <= |s'.queue| && Buffer(s') == Buffer(s)
    decreases |es|
  {
    if es != [] {
      StepBuffer(s, es[0]);
      SpaceConserved(Step(s, es[0]), es[1..]);
    }
  }

  // ---------------------------------------------------------------- a sender that heeds the advice

  /** The bytes that the calls reported as queued. */
  function Done(calls: seq<Call>): nat {
    if calls == [] then 0 else Done(calls[..|calls| - 1]) + calls[|calls| - 1].result
  }

  /**
   The sender offers the next bytes of one array, at most as many as the writer advises, and stores only into
   the part that has been queued. Whatever else happens is free.
   */
  ghost predicate Heeds(s: Tx, e: Event, data: array<byte>) {
    match e
    case Write(d, base, size, _) =>
      && d == data && data in s.mem && base == Done(s.calls) <= |s.mem[data]|
      && size <= Advice(|s.mem[data]| - base, s.space)
    case Store(d, i, _) => d == data ==> i < Done(s.calls)
    case _ => true
  }

  ghost predicate Advised(s: Tx, es: seq<Event>, data: array<byte>)
    decreases |es|
  {
    es == [] || (Heeds(s, es[0], data) && Advised(Step(s, es[0]), es[1..], data))
  }

  /** The calls have queued the beginning of `orig`, and its rest is still in the array. */
  ghost predicate OnTrack(s: Tx, data: array<byte>, orig: seq<byte>)
    requires Recorded(s)
  {
    && data in s.mem && Done(s.calls) <= |orig| == |s.mem[data]|
    && s.mem[data][Done(s.calls)..] == orig[Done(s.calls)..]
    && StreamOf(s.calls) == orig[..Done(s.calls)]
  }

  lemma StepOnTrack(s: Tx, e: Event, data: array<byte>, orig: seq<byte>)
    requires Recorded(s) && OnTrack(s, data, orig) && Heeds(s, e, data)
    ensures Recorded(Step(s, e)) && OnTrack(Step(s, e), data, orig)
  {
    hide Recorded, Queued, Returned, Refs, Total, HeldBy;
    StepRecorded(s, e);
    match e
    case Write(_, base, size, outcomes) => WriteOnTrack(s, base, size, outcomes, data, orig);
    case Store(d, i, v) =>
      if d == data {
        var done := Done(s.calls);
        assert Stored(s.mem[data], i, v)[done..] == s.mem[data][done..];
      }
    case Transmit =>
    case Retransmit(_) =>
    case Acknowledge(_) =>
  }

  lemma WriteOnTrack(s: Tx, base: nat, size: nat, outcomes: seq<int>, data: array<byte>, orig: seq<byte>)
    requires Recorded(s) && OnTrack(s, data, orig) && Heeds(s, Write(data, base, size, outcomes), data)
    requires Recorded(Step(s, Write(data, base, size, outcomes)))
    ensures OnTrack(Step(s, Write(data, base, size, outcomes)), data, orig)
  {
    hide Queued, Returned, Refs, Total, HeldBy, Flatten, StreamOf, Done, Recorded;
    var n := Returned(size, s.space, outcomes);
    SendRuns.SingleIsAtomic(size, s.space, outcomes);
    CallHolds(s.mem, data, base, size, s.space, outcomes);
    var call := Call(s.mem[data][base..base + size], n, n);
    AllOk(s);
    StreamSnoc(s.calls, call);
    DoneSnoc(s.calls, call);
    Onward(s.mem[data], orig, base, size, n);
  }

  lemma AllOk(s: Tx)
    requires Recorded(s)
    ensures forall c | c in s.calls :: CallOk(c)
  {
  }

  lemma DoneSnoc(calls: seq<Call>, c: Call)
    ensures Done(calls + [c]) == Done(calls) + c.result
  {
    assert (calls + [c])[..|calls|] == calls;
  }

  lemma Onward(cells: seq<byte>, orig: seq<byte>, base: nat, size: nat, n: nat)
    requires n <= size && base + size <= |cells| == |orig| && cells[base..] == orig[base..]
    ensures orig[..base] + cells[base..base + size][..n] == orig[..base + n]
    ensures cells[base + n..] == orig[base + n..]
  {
    assert cells[base..base + size][..n] == cells[base..][..n] == orig[base..][..n] == orig[base..base + n];
    Slices(orig, 0, base, base + n);
    assert orig[0..base] == orig[..base] && orig[0..base + n] == orig[..base + n];
    assert cells[base..][n..] == orig[base..][n..];
  }

  lemma {:induction false} RunOnTrack(s: Tx, es: seq<Event>, data: array<byte>, orig: seq<byte>)
    requires Recorded(s) && OnTrack(s, data, orig) && Advised(s, es, data)
    ensures Recorded(Run(s, es)) && OnTrack(Run(s, es), data, orig)
    decreases |es|
  {
    hide OnTrack, Recorded;
    if es != [] {
      StepOnTrack(s, es[0], data, orig);
      RunOnTrack(Step(s, es[0]), es[1..], data, orig);
    }
  }

  /**
   A sender that never offers more than the writer advises and goes on from where the results say, down to the wire:
   what is transmitted for the first time is a prefix of its array as it was at the start, as long as the sum of the
   results and complete once every piece has been transmitted, and retransmissions repeat it. It may reuse the part
   of the array that has been acknowledged.
   */
  lemma AdvisedFaithful(s0: Tx, es: seq<Event>, data: array<byte>)
    requires Initial(s0) && data in s0.mem && Advised(s0, es, data) && Undisturbed(s0, es)
    ensures var s := Run(s0, es);
            && Done(s.calls) <= |s0.mem[data]|
            && s.wire <= s0.mem[data][..Done(s.calls)]
            && (s.sent == |s.queue| ==> s.wire == s0.mem[data][..Done(s.calls)])
            && forall r | r in s.resent :: Repeats(s, r)
  {
    hide Advised, Undisturbed, Repeats;
    RunOnTrack(s0, es, data, s0.mem[data]);
    Faithful(s0, es);
  }

  // ---------------------------------------------------------------- the condition is exact

  predicate NoStores(es: seq<Event>) {
    forall e | e in es :: !e.Store?
  }

  lemma {:induction false} NoStoresUndisturbed(s: Tx, es: seq<Event>)
    requires NoStores(es)
    ensures Undisturbed(s, es)
    decreases |es|
  {
    if es != [] {
      assert es[0] in es;
      NoStoresUndisturbed(Step(s, es[0]), es[1..]);
    }
  }

  function Transmits(n: nat): (es: seq<Event>)
    ensures NoStores(es)
  {
    if n == 0 then [] else [Transmit] + Transmits(n - 1)
  }

  /** Transmit until the k-th piece is out, then retransmit it. */
  lemma {:induction false} ShowPiece(s: Tx, n: nat, k: nat)
    requires Recorded(s) && s.acked <= k < s.sent + n <= |s.queue|
    ensures var s' := Run(s, Transmits(n) + [Retransmit(k)]);
            s'.promised == s.promised && Again(k, Held(s.mem, s.queue[k])) in s'.resent
    decreases n
  {
    var es := Transmits(n) + [Retransmit(k)];
    if n == 0 {
      assert es == [Retransmit(k)] && es[1..] == [];
      assert Run(s, es) == Run(Step(s, Retransmit(k)), []);
    } else {
      StepRecorded(s, Transmit);
      assert es[0] == Transmit && es[1..] == Transmits(n - 1) + [Retransmit(k)];
      ShowPiece(Step(s, Transmit), n - 1, k);
    }
  }

  /**
   The condition is exact: after a store, some run without further stores transmits bytes that were not promised
   if and only if the store changed a cell of an unacknowledged piece.
   */
  lemma DisturbanceShows(s: Tx, e: Event)
    requires Recorded(s) && Kept(s) && Honest(s) && e.Store?
    ensures Disturbs(s, e) <==> exists es | NoStores(es) :: !Honest(Run(Step(s, e), es))
  {
    hide Honest, Kept, Recorded, Disturbs;
    if Disturbs(s, e) {
      var es := Shown(s, e);
      assert !Honest(Run(Step(s, e), es));
    } else {
      StepKept(s, e);
      StepHonest(s, e);
      forall es | NoStores(es)
        ensures Honest(Run(Step(s, e), es))
      {
        NoStoresUndisturbed(Step(s, e), es);
        RunKeeps(Step(s, e), es);
      }
    }
  }

  lemma Shown(s: Tx, e: Event) returns (es: seq<Event>)
    requires Recorded(s) && Kept(s) && Disturbs(s, e)
    ensures NoStores(es) && !Honest(Run(Step(s, e), es))
  {
    var k :| s.acked <= k < |s.queue| && Covers(s.queue[k], e.data, e.i);
    assert s.queue[k] in s.queue;
    StoreHolds(s.mem, s.queue[k], e.data, e.i, e.v);
    StepRecorded(s, e);
    var n := if k < s.sent then 0 else k + 1 - s.sent;
    ShowPiece(Step(s, e), n, k);
    es := Transmits(n) + [Retransmit(k)];
  }
}
