/**
 The receive buffer as a state machine over whole runs: lwIP's receive callback, the application's
 reads and resets, in any order.
 */
module RxMachine {
  import opened Wrappers
  import opened Sequences
  import opened ByteQueue
  import opened Lwip

  const U16_MAX: nat := 0xFFFF

  datatype Notice = DataNotice | FinNotice

  /**
   `armed` says that a PCB is known for acknowledgements, `acks` lists the arguments of tcp_recved,
   and the counters record bytes taken over, thrown away by a reset, and freed on an lwIP error.
   */
  datatype Rx = Rx(cur: Cursor, armed: bool, acks: seq<nat>, notices: seq<Notice>,
                   received: nat, discarded: nat, dropped: nat)

  /** `Callback([], err)` is a null chain; with ERR_OK that is how lwIP reports a FIN. */
  datatype Event =
    | Callback(segs: seq<seq<byte>>, err: int)
    | Consume(n: nat)
    | Reset

  /** tcp_recved takes 16 bits: the pieces in which `n` bytes are acknowledged. */
  function Pieces(n: nat): (r: seq<nat>) {
    if n == 0 then [] else [Min(n, U16_MAX)] + Pieces(n - Min(n, U16_MAX))
  }

  function Step(s: Rx, e: Event): Rx
    requires Wf(s.cur)
  {
    match e
    case Callback(segs, err) =>
      var s1 := s.(armed := true);
      if err != ERR_OK then s1.(dropped := s.dropped + |Flatten(segs)|)
      else if segs == [] then s1.(notices := s.notices + [FinNotice])
      else s1.(cur := Cursor(s.cur.segs + segs, s.cur.offset), notices := s.notices + [DataNotice],
               received := s.received + |Flatten(segs)|)
    case Consume(n) =>
      AdvanceDrops(s.cur, n);
      var consumed := |Unread(s.cur)| - |Unread(Advance(s.cur, n))|;
      s.(cur := Advance(s.cur, n), acks := s.acks + if s.armed then Pieces(consumed) else [])
    case Reset =>
      if s.cur.segs == [] then s
      else s.(cur := Cursor([], 0), armed := false, discarded := s.discarded + |Unread(s.cur)|)
  }

  lemma StepWf(s: Rx, e: Event)
    requires Wf(s.cur)
    ensures Wf(Step(s, e).cur)
  {
    match e
    case Callback(segs, err) => UnreadAppend(s.cur, segs);
    case Consume(n) => AdvanceDrops(s.cur, n);
    case Reset =>
  }

  function Run(s: Rx, es: seq<Event>): (r: Rx)
    requires Wf(s.cur)
    ensures Wf(r.cur)
    decreases |es|
  {
    StepWf(s, if es == [] then Reset else es[0]);
    if es == [] then s else Run(Step(s, es[0]), es[1..])
  }

  lemma RunNothing(s: Rx)
    requires Wf(s.cur)
    ensures Run(s, []) == s
  {
  }

  lemma RunOne(s: Rx, e: Event, es: seq<Event>)
    requires Wf(s.cur)
    ensures Wf(Step(s, e).cur) && Run(s, [e] + es) == Run(Step(s, e), es)
  {
    StepWf(s, e);
    assert ([e] + es)[1..] == es;
  }

  lemma {:induction false} RunConcat(s: Rx, a: seq<Event>, b: seq<Event>)
    requires Wf(s.cur)
    ensures Run(s, a + b) == Run(Run(s, a), b)
    decreases |a|
  {
    hide Step;
    if a == [] {
      assert a + b == b;
    } else {
      StepWf(s, a[0]);
      RunConcat(Step(s, a[0]), a[1..], b);
      assert (a + b)[1..] == a[1..] + b && (a + b)[0] == a[0];
    }
  }

  /** A buffer constructed on `segs`; the library itself always starts from the empty chain. */
  function Init(segs: seq<seq<byte>>): Rx {
    Rx(Cursor(segs, 0), false, [], [], 0, 0, 0)
  }

  // ---------------------------------------------------------------- acknowledgements

  /** Numbers that fit 16 bits, none of them 0, and their sum. */
  ghost predicate Cuts(ps: seq<nat>, n: nat) {
    Sum(ps) == n && forall i | 0 <= i < |ps| :: 0 < ps[i] <= 0xFFFF
  }

  /** All but the last are as large as 16 bits allow. */
  ghost predicate FullCuts(ps: seq<nat>, n: nat) {
    Cuts(ps, n) && forall i | 0 <= i < |ps| - 1 :: ps[i] == 0xFFFF
  }

  lemma {:induction false} PiecesSum(n: nat)
    ensures FullCuts(Pieces(n), n)
  {
    if n != 0 {
      var rest := n - Min(n, U16_MAX);
      PiecesSum(rest);
      if rest == 0 { assert Pieces(rest) == []; }
    }
  }

  lemma {:induction false} CutsBound(ps: seq<nat>, n: nat)
    requires Cuts(ps, n)
    ensures n <= 0xFFFF * |ps|
    decreases |ps|
  {
    if ps != [] { CutsBound(ps[1..], n - ps[0]); }
  }

  lemma {:induction false} FullCutsLength(ps: seq<nat>, n: nat)
    requires FullCuts(ps, n)
    ensures 0xFFFF * (|ps| - 1) < n || ps == []
    decreases |ps|
  {
    if |ps| > 1 {
      FullCutsLength(ps[1..], n - ps[0]);
    } else if |ps| == 1 {
      assert ps[1..] == [];
    }
  }

  /** No way of reporting `n` bytes in 16-bit portions takes fewer calls. */
  lemma FullCutsFewest(ps: seq<nat>, qs: seq<nat>, n: nat)
    requires FullCuts(ps, n) && Cuts(qs, n)
    ensures |ps| <= |qs|
  {
    FullCutsLength(ps, n);
    CutsBound(qs, n);
  }

  lemma PiecesExist(n: nat)
    ensures Pieces(n) == [] <==> n == 0
  {
  }

  /** Acknowledgements are only ever added. */
  lemma StepAcksGrow(s: Rx, e: Event)
    requires Wf(s.cur)
    ensures s.acks <= Step(s, e).acks
  {
  }

  /**
   A reset leaves nothing to acknowledge, even where it leaves the PCB pointer: until lwIP delivers again,
   no run of reads and resets calls tcp_recved.
   */
  lemma {:induction false} QuietAfterReset(s: Rx, es: seq<Event>)
    requires Wf(s.cur) && Unread(s.cur) == [] && forall e | e in es :: !e.Callback?
    ensures Run(s, es).acks == s.acks && Unread(Run(s, es).cur) == []
    decreases |es|
  {
    if es != [] {
      assert es[0] in es;
      StepWf(s, es[0]);
      if es[0].Consume? { AdvanceDrops(s.cur, es[0].n); }
      QuietAfterReset(Step(s, es[0]), es[1..]);
    }
  }

  /** The state after consuming, from the cursor reached and the number of bytes removed. */
  lemma Consumed(s: Rx, n: nat, cur: Cursor, consumed: nat)
    requires Wf(s.cur) && cur == Advance(s.cur, n) && consumed == Min(n, |Unread(s.cur)|)
    ensures Wf(cur)
    ensures Step(s, Consume(n)) ==
            s.(cur := cur, acks := if s.armed && consumed > 0 then s.acks + Pieces(consumed) else s.acks)
  {
    AdvanceDrops(s.cur, n);
    assert s.acks + [] == s.acks;
  }

  lemma NothingConsumed(s: Rx, n: nat)
    requires Wf(s.cur) && (n == 0 || s.cur.segs == [])
    ensures Step(s, Consume(n)) == s
  {
    assert s.acks + [] == s.acks;
  }

  // ---------------------------------------------------------------- what the application is told

  /** Deliveries of data: chains that lwIP hands over without an error. */
  function DataArrivals(es: seq<Event>): nat {
    if es == [] then 0
    else (if es[0].Callback? && es[0].err == ERR_OK && es[0].segs != [] then 1 else 0) + DataArrivals(es[1..])
  }

  /** FINs: the null chain without an error. */
  function Fins(es: seq<Event>): nat {
    if es == [] then 0
    else (if es[0].Callback? && es[0].err == ERR_OK && es[0].segs == [] then 1 else 0) + Fins(es[1..])
  }

  function Count(notices: seq<Notice>, x: Notice): nat {
    if notices == [] then 0 else Count(notices[..|notices| - 1], x) + if notices[|notices| - 1] == x then 1 else 0
  }

  lemma StepNotices(s: Rx, e: Event)
    requires Wf(s.cur)
    ensures Step(s, e).notices ==
            s.notices + if !e.Callback? || e.err != ERR_OK then []
                        else if e.segs == [] then [FinNotice] else [DataNotice]
  {
  }

  lemma CountOne(notices: seq<Notice>, more: seq<Notice>, x: Notice)
    requires |more| <= 1
    ensures Count(notices + more, x) == Count(notices, x) + if more == [x] then 1 else 0
  {
    if more == [] {
      assert notices + more == notices;
    } else {
      assert (notices + more)[..|notices|] == notices;
    }
  }

  /** Over every run, the application is told of each delivery of data and of each FIN once, and of nothing else. */
  lemma {:induction false} RunNotices(s: Rx, es: seq<Event>)
    requires Wf(s.cur)
    ensures s.notices <= Run(s, es).notices
    ensures Count(Run(s, es).notices, DataNotice) == Count(s.notices, DataNotice) + DataArrivals(es)
    ensures Count(Run(s, es).notices, FinNotice) == Count(s.notices, FinNotice) + Fins(es)
    decreases |es|
  {
    if es != [] {
      var s1 := Step(s, es[0]);
      StepWf(s, es[0]);
      StepNotices(s, es[0]);
      var more := s1.notices[|s.notices|..];
      assert s1.notices == s.notices + more;
      CountOne(s.notices, more, DataNotice);
      CountOne(s.notices, more, FinNotice);
      RunNotices(s1, es[1..]);
    }
  }

  lemma {:induction false} RequestsTellNothing(s: Rx, es: seq<Event>)
    requires Wf(s.cur) && forall e | e in es :: !e.Callback?
    ensures Run(s, es).notices == s.notices
    decreases |es|
  {
    if es != [] {
      assert es[0] in es;
      StepWf(s, es[0]);
      RequestsTellNothing(Step(s, es[0]), es[1..]);
    }
  }

  // ---------------------------------------------------------------- refinement of a byte queue

  /** The specification: a plain FIFO of bytes. */
  function QueueStep(q: seq<byte>, e: Event): seq<byte> {
    match e
    case Callback(segs, err) => if err != ERR_OK then q else q + Flatten(segs)
    case Consume(n) => q[Min(n, |q|)..]
    case Reset => []
  }

  function QueueRun(q: seq<byte>, es: seq<Event>): seq<byte>
    decreases |es|
  {
    if es == [] then q else QueueRun(QueueStep(q, es[0]), es[1..])
  }

  lemma QueueOne(q: seq<byte>, e: Event)
    ensures QueueRun(q, [e]) == QueueStep(q, e)
  {
    assert [e][1..] == [];
  }

  lemma StepRefines(s: Rx, e: Event)
    requires Wf(s.cur)
    ensures Wf(Step(s, e).cur) && Unread(Step(s, e).cur) == QueueStep(Unread(s.cur), e)
  {
    StepWf(s, e);
    match e
    case Callback(segs, err) =>
      UnreadAppend(s.cur, segs);
      if segs == [] { assert Unread(s.cur) + Flatten(segs) == Unread(s.cur); }
    case Consume(n) => AdvanceDrops(s.cur, n);
    case Reset =>
  }

  /** Over every run, the segments and the offset are a byte queue. */
  lemma {:induction false} RunRefines(s: Rx, es: seq<Event>)
    requires Wf(s.cur)
    ensures Unread(Run(s, es).cur) == QueueRun(Unread(s.cur), es)
    decreases |es|
  {
    if es != [] {
      StepRefines(s, es[0]);
      RunRefines(Step(s, es[0]), es[1..]);
    }
  }

  // ---------------------------------------------------------------- conservation

  /** Unread bytes always have a PCB to be acknowledged to. */
  predicate Armed(s: Rx) {
    Wf(s.cur) && (Unread(s.cur) != [] ==> s.armed)
  }

  /** What has been taken over and not yet been acknowledged, kept, or thrown away. */
  function Missing(s: Rx): int
    requires Wf(s.cur)
  {
    s.received - Sum(s.acks) - |Unread(s.cur)| - s.discarded
  }

  lemma StepConserves(s: Rx, e: Event)
    requires Armed(s)
    ensures Armed(Step(s, e)) && Missing(Step(s, e)) == Missing(s)
  {
    StepRefines(s, e);
    if e.Consume? { ConsumeAcks(s, e.n); }
  }

  /** Consuming acknowledges exactly the bytes that leave the queue. */
  lemma ConsumeAcks(s: Rx, n: nat)
    requires Armed(s)
    ensures Wf(Step(s, Consume(n)).cur)
    ensures Sum(Step(s, Consume(n)).acks) - Sum(s.acks) == |Unread(s.cur)| - |Unread(Step(s, Consume(n)).cur)|
  {
    AdvanceDrops(s.cur, n);
    var consumed := |Unread(s.cur)| - |Unread(Advance(s.cur, n))|;
    PiecesSum(consumed);
    SumConcat(s.acks, if s.armed then Pieces(consumed) else []);
  }

  /**
   Every byte taken over is acknowledged once, still queued, or was discarded by a reset, and none is
   counted twice, over every run from an empty buffer.
   */
  lemma {:induction false} RunConserves(s: Rx, es: seq<Event>)
    requires Armed(s)
    ensures Armed(Run(s, es)) && Missing(Run(s, es)) == Missing(s)
    decreases |es|
  {
    if es != [] {
      StepConserves(s, es[0]);
      RunConserves(Step(s, es[0]), es[1..]);
    }
  }

  /**
   A buffer constructed on a chain that already carries bytes knows no PCB, so it can lose
   acknowledgements; conservation holds in every run exactly when the initial chain has no bytes.
   */
  lemma ConservedIff(segs: seq<seq<byte>>)
    ensures Wf(Init(segs).cur)
    ensures (forall es: seq<Event> :: Missing(Run(Init(segs), es)) == Missing(Init(segs))) <==> Flatten(segs) == []
  {
    UnreadAtStart(segs);
    if Flatten(segs) == [] {
      forall es: seq<Event>
        ensures Missing(Run(Init(segs), es)) == Missing(Init(segs))
      {
        RunConserves(Init(segs), es);
      }
    } else {
      var s := Init(segs);
      StepRefines(s, Consume(1));
      assert Run(s, [Consume(1)]) == Run(Step(s, Consume(1)), []);
      assert s.acks + [] == [];
      assert Missing(Run(s, [Consume(1)])) == Missing(s) + 1;
    }
  }

  /** How many calls of tcp_recved a run makes that starts with the queue `q`. */
  function AckCalls(q: seq<byte>, es: seq<Event>): nat
    decreases |es|
  {
    if es == [] then 0
    else (if es[0].Consume? then |Pieces(Min(es[0].n, |q|))| else 0) + AckCalls(QueueStep(q, es[0]), es[1..])
  }

  lemma StepAckCalls(s: Rx, e: Event)
    requires Armed(s)
    ensures Wf(Step(s, e).cur)
    ensures |Step(s, e).acks| == |s.acks| + if e.Consume? then |Pieces(Min(e.n, |Unread(s.cur)|))| else 0
  {
    StepWf(s, e);
    if e.Consume? { AdvanceDrops(s.cur, e.n); }
  }

  lemma {:induction false} RunAckCalls(s: Rx, es: seq<Event>)
    requires Armed(s)
    ensures |Run(s, es).acks| == |s.acks| + AckCalls(Unread(s.cur), es)
    decreases |es|
  {
    if es != [] {
      StepAckCalls(s, es[0]);
      StepConserves(s, es[0]);
      StepRefines(s, es[0]);
      RunAckCalls(Step(s, es[0]), es[1..]);
    }
  }

  /** A single read is acknowledged exactly if it asks for bytes and there are some. */
  lemma ReadAckCalls(q: seq<byte>, n: nat)
    ensures AckCalls(q, [Consume(n)]) == |Pieces(Min(n, |q|))|
    ensures AckCalls(q, [Consume(n)]) > 0 <==> n > 0 && q != []
  {
    PiecesExist(Min(n, |q|));
    assert [Consume(n)][1..] == [];
  }

  // ---------------------------------------------------------------- the receive window

  /** tcp_recved: reopen the window, clamped at its maximum. */
  function Reopen(max: nat, wnd: nat, acks: seq<nat>): nat
    decreases |acks|
  {
    if acks == [] then wnd else Reopen(max, Min(max, wnd + acks[0]), acks[1..])
  }

  lemma {:induction false} ReopenUnclamped(max: nat, wnd: nat, acks: seq<nat>)
    requires wnd + Sum(acks) <= max
    ensures Reopen(max, wnd, acks) == wnd + Sum(acks)
    decreases |acks|
  {
    if acks != [] { ReopenUnclamped(max, wnd + acks[0], acks[1..]); }
  }

  /** A connection whose peer never sends beyond the window: lwIP closes it by what it hands over. */
  datatype Conn = Conn(rx: Rx, wnd: nat)

  predicate Enabled(c: Conn, e: Event) {
    e.Callback? ==> |Flatten(e.segs)| <= c.wnd
  }

  function ConnStep(max: nat, c: Conn, e: Event): Conn
    requires Wf(c.rx.cur) && Enabled(c, e)
  {
    var rx := Step(c.rx, e);
    if e.Callback? then Conn(rx, c.wnd - |Flatten(e.segs)|)
    else if e.Consume? then Conn(rx, Reopen(max, c.wnd, rx.acks[|c.rx.acks|..]))
    else Conn(rx, c.wnd)
  }

  /** `c'` is reached from `c` by the events `es`, the peer staying inside the window throughout. */
  ghost predicate Reaches(max: nat, c: Conn, es: seq<Event>, c': Conn)
    requires Wf(c.rx.cur)
    decreases |es|
  {
    if es == [] then c' == c
    else Enabled(c, es[0]) && (StepWf(c.rx, es[0]); Reaches(max, ConnStep(max, c, es[0]), es[1..], c'))
  }

  predicate Balanced(max: nat, c: Conn) {
    Armed(c.rx) && c.wnd + |Unread(c.rx.cur)| + c.rx.discarded + c.rx.dropped == max
  }

  lemma ConnStepBalanced(max: nat, c: Conn, e: Event)
    requires Balanced(max, c) && Enabled(c, e)
    ensures Balanced(max, ConnStep(max, c, e))
  {
    StepConserves(c.rx, e);
    StepRefines(c.rx, e);
    if e.Consume? {
      var rx := Step(c.rx, e);
      var more := rx.acks[|c.rx.acks|..];
      assert rx.acks == c.rx.acks + more;
      SumConcat(c.rx.acks, more);
      ReopenUnclamped(max, c.wnd, more);
    }
  }

  /**
   In every reachable state the window, the unread bytes and the bytes lost to resets and lwIP errors
   add up to the maximum: the clamp of tcp_recved is never needed.
   */
  lemma {:induction false} WindowBalanced(max: nat, c: Conn, es: seq<Event>, c': Conn)
    requires Balanced(max, c) && Reaches(max, c, es, c')
    ensures Balanced(max, c')
    decreases |es|
  {
    if es != [] {
      ConnStepBalanced(max, c, es[0]);
      WindowBalanced(max, ConnStep(max, c, es[0]), es[1..], c');
    }
  }

  predicate Lossless(e: Event) {
    e.Consume? || (e.Callback? && e.err == ERR_OK)
  }

  lemma {:induction false} LosslessKeepsAll(max: nat, c: Conn, es: seq<Event>, c': Conn)
    requires Wf(c.rx.cur) && Reaches(max, c, es, c')
    requires forall e | e in es :: Lossless(e)
    ensures c'.rx.discarded == c.rx.discarded && c'.rx.dropped == c.rx.dropped
    decreases |es|
  {
    if es != [] {
      StepWf(c.rx, es[0]);
      assert Lossless(es[0]);
      LosslessKeepsAll(max, ConnStep(max, c, es[0]), es[1..], c');
    }
  }

  /**
   Without resets and errors the window and the unread bytes add up to the maximum, so the buffer
   never holds more than a window, and the window is fully open exactly when all bytes are read.
   */
  lemma WindowAndUnread(max: nat, es: seq<Event>, c': Conn)
    requires Reaches(max, Conn(Init([]), max), es, c')
    requires forall e | e in es :: Lossless(e)
    ensures Wf(c'.rx.cur) && c'.wnd + |Unread(c'.rx.cur)| == max
    ensures c'.wnd == max <==> Unread(c'.rx.cur) == []
  {
    WindowBalanced(max, Conn(Init([]), max), es, c');
    LosslessKeepsAll(max, Conn(Init([]), max), es, c');
  }

  // ---------------------------------------------------------------- FIN

  /** Equal up to what a FIN touches: the PCB pointer of an empty buffer and the notifications. */
  predicate Alike(a: Rx, b: Rx) {
    && Armed(a) && Armed(b)
    && a.(armed := b.armed, notices := b.notices) == b
  }

  lemma StepAlike(a: Rx, b: Rx, e: Event)
    requires Alike(a, b)
    ensures Wf(a.cur) && Wf(b.cur) && Alike(Step(a, e), Step(b, e))
  {
    hide Unread, Advance, Flatten, Missing, Sum;
    StepConserves(a, e);
    StepConserves(b, e);
    if e.Consume? {
      ConsumeAlike(a, b, e.n);
    }
  }

  lemma ConsumeAlike(a: Rx, b: Rx, n: nat)
    requires Alike(a, b)
    ensures Step(a, Consume(n)).acks == Step(b, Consume(n)).acks
  {
    AdvanceDrops(a.cur, n);
    Consumed(a, n, Advance(a.cur, n), Min(n, |Unread(a.cur)|));
    Consumed(b, n, Advance(b.cur, n), Min(n, |Unread(b.cur)|));
  }

  lemma {:induction false} RunAlike(a: Rx, b: Rx, es: seq<Event>)
    requires Alike(a, b)
    ensures Wf(a.cur) && Wf(b.cur) && Alike(Run(a, es), Run(b, es))
    decreases |es|
  {
    if es != [] {
      StepAlike(a, b, es[0]);
      RunAlike(Step(a, es[0]), Step(b, es[0]), es[1..]);
    }
  }

  /** A FIN, wherever it comes in a run, costs no unread byte and no acknowledgement, then or later. */
  lemma FinTransparent(s: Rx, es: seq<Event>)
    requires Armed(s)
    ensures var s' := Step(s, Callback([], ERR_OK));
            Wf(s'.cur) && Alike(Run(s, es), Run(s', es))
  {
    var s' := Step(s, Callback([], ERR_OK));
    assert Alike(s, s');
    RunAlike(s, s', es);
  }
}
