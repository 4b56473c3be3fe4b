/** What the receive buffer's methods guarantee together, and whole runs of a buffer on the heap. */
module RxRuns {
  import opened Wrappers
  import opened Sequences
  import opened RefGraph
  import opened PbufMemory
  import opened ByteQueue
  import opened RxMachine
  import opened RxBuffer
  import opened Lwip

  // ---------------------------------------------------------------- both paths, and repeated requests

  /** What FastPath, SlowPath and PeekConsume promise about a request of `n` bytes. */
  ghost predicate Took(m: Cells, chain: seq<Pbuf>, offset: nat, n: nat, m': Cells, chain': seq<Pbuf>, offset': nat) {
    && Sound(m) && Sound(m') && Wf(At(chain, offset))
    && Moved(m, m', chain, chain') && Suffix(chain', chain)
    && At(chain', offset') == Advance(At(chain, offset), n)
  }

  /** Exact counts and reachability leave no freedom: a move of a reference has one outcome. */
  lemma MovedDetermined(m: Cells, m1: Cells, m2: Cells, from: seq<Pbuf>, to: seq<Pbuf>)
    requires Sound(m) && Sound(m1) && Sound(m2) && Moved(m, m1, from, to) && Moved(m, m2, from, to)
    ensures m1 == m2
  {
    MovedLeaves(m, m1, from, to);
    MovedLeaves(m, m2, from, to);
    SameCounts(m1, m2);
  }

  lemma SameCounts(m1: Cells, m2: Cells)
    requires Sound(m1) && Sound(m2) && m1.next.Keys == m2.next.Keys && m1.holders == m2.holders && m1.rank == m2.rank
    requires forall p | p in m1.next :: m1.next[p] == m2.next[p]
    ensures m1 == m2
  {
    assert m1.next == m2.next;
    forall p | p in m1.next
      ensures m1.ref[p] == m2.ref[p]
    {
      assert Counted(m1.next, m1.ref, m1.holders, p) && Counted(m2.next, m2.ref, m2.holders, p);
    }
    assert m1.ref == m2.ref;
  }

  /**
   The fast path refines the slow path: a request has one outcome, in the chain, the offset, the
   reference counts and the cells released, whichever path serves it.
   */
  lemma PathsAgree(m: Cells, chain: seq<Pbuf>, offset: nat, n: nat,
                   m1: Cells, chain1: seq<Pbuf>, offset1: nat, m2: Cells, chain2: seq<Pbuf>, offset2: nat)
    requires Took(m, chain, offset, n, m1, chain1, offset1) && Took(m, chain, offset, n, m2, chain2, offset2)
    ensures m1 == m2 && chain1 == chain2 && offset1 == offset2
  {
    assert |Segs(chain1)| == |Segs(chain2)|;
    MovedDetermined(m, m1, m2, chain, chain1);
  }

  /** Requests compose, cell by cell: `a` bytes then `b` bytes end where `a + b` bytes end. */
  lemma RequestsCompose(m: Cells, chain: seq<Pbuf>, offset: nat, a: nat, b: nat,
                        m1: Cells, chain1: seq<Pbuf>, offset1: nat, m2: Cells, chain2: seq<Pbuf>, offset2: nat)
    requires Took(m, chain, offset, a, m1, chain1, offset1) && Took(m1, chain1, offset1, b, m2, chain2, offset2)
    ensures Took(m, chain, offset, a + b, m2, chain2, offset2)
  {
    AdvanceComposes(At(chain, offset), a, b);
    MovedTwice(m, m1, m2, chain, chain1, chain2);
    assert chain2 == chain[|chain| - |chain2|..];
  }

  /** ... and acknowledge the same number of bytes in total. */
  lemma AcksCompose(s: Rx, a: nat, b: nat)
    requires Armed(s)
    ensures Armed(Step(s, Consume(a)))
    ensures var twice := Step(Step(s, Consume(a)), Consume(b));
            var once := Step(s, Consume(a + b));
            twice.cur == once.cur && Sum(twice.acks) == Sum(once.acks)
  {
    hide Advance, Missing, Unread;
    StepConserves(s, Consume(a));
    AdvanceComposes(s.cur, a, b);
    ConsumeAcks(s, a);
    ConsumeAcks(Step(s, Consume(a)), b);
    ConsumeAcks(s, a + b);
  }

  // ---------------------------------------------------------------- non-empty segments and draining

  predicate NonEmpty(segs: seq<seq<byte>>) {
    forall i | 0 <= i < |segs| :: segs[i] != []
  }

  /** If lwIP only delivers non-empty segments, an available count of zero means an empty queue. */
  lemma {:induction false} RunNonEmpty(s: Rx, es: seq<Event>)
    requires Wf(s.cur) && NonEmpty(s.cur.segs)
    requires forall e | e in es && e.Callback? :: NonEmpty(e.segs)
    ensures NonEmpty(Run(s, es).cur.segs)
    ensures var c := Run(s, es).cur; c.segs != [] ==> c.offset < |c.segs[0]|
    decreases |es|
  {
    if es != [] {
      StepWf(s, es[0]);
      assert es[0] in es;
      if es[0].Consume? { AdvanceSuffix(s.cur, es[0].n); }
      RunNonEmpty(Step(s, es[0]), es[1..]);
    }
  }

  /** The number of segments before the first empty one. */
  function Readable(segs: seq<seq<byte>>): (k: nat)
    ensures k <= |segs| && NonEmpty(segs[..k])
    ensures k < |segs| ==> segs[k] == []
  {
    if segs == [] || segs[0] == [] then 0
    else
      var k := 1 + Readable(segs[1..]);
      assert forall i | 0 < i < k :: segs[i] == segs[1..][i - 1];
      k
  }

  /** `out` was read in `rounds` rounds between the states `s0` and `s`. */
  ghost predicate Drained(s0: Rx, s: Rx, out: seq<byte>, rounds: nat) {
    && Wf(s0.cur) && Wf(s.cur)
    && out + Unread(s.cur) == Unread(s0.cur)
    && rounds <= |s0.cur.segs| && s.cur.segs == s0.cur.segs[rounds..]
    && rounds + Readable(s.cur.segs) == Readable(s0.cur.segs)
    && (Armed(s0) ==> Armed(s) && Sum(s.acks) == Sum(s0.acks) + |out|)
  }

  lemma DrainRound(s0: Rx, s: Rx, out: seq<byte>, rounds: nat, piece: seq<byte>)
    requires Drained(s0, s, out, rounds)
    requires piece <= Unread(s.cur) && s.cur.segs != [] && 0 < |piece| == |s.cur.segs[0]| - s.cur.offset
    ensures Drained(s0, Step(s, Consume(|piece|)), out + piece, rounds + 1)
    ensures |Step(s, Consume(|piece|)).cur.segs| < |s.cur.segs|
  {
    hide Unread, Sum, Missing, Pieces;
    var n := |piece|;
    var s' := Step(s, Consume(n));
    StepRefines(s, Consume(n));
    AdvanceOver(s.cur, n);
    assert s'.cur == Cursor(s.cur.segs[1..], 0);
    Regroup(out, piece, Unread(s.cur));
    if Armed(s0) { ConsumeAcks(s, n); StepConserves(s, Consume(n)); }
  }

  lemma Regroup(out: seq<byte>, piece: seq<byte>, q: seq<byte>)
    requires piece <= q
    ensures out + piece + q[|piece|..] == out + q
  {
    assert piece + q[|piece|..] == q;
    Associative(out, piece, q[|piece|..]);
  }

  lemma DrainEnds(s0: Rx, s: Rx, out: seq<byte>, rounds: nat)
    requires Drained(s0, s, out, rounds) && (s.cur.segs == [] || s.cur.segs[0] == [])
    ensures rounds == Readable(s0.cur.segs) && s.cur.offset == 0
    ensures out == Unread(s0.cur) <==> Flatten(s0.cur.segs[rounds..]) == []
  {
    UnreadAtStart(s.cur.segs);
    assert |out| + |Unread(s.cur)| == |Unread(s0.cur)|;
    if Unread(s.cur) == [] { assert out + [] == out; }
  }

  lemma DrainStarts(s: Rx)
    requires Wf(s.cur)
    ensures Drained(s, s, [], 0)
  {
    assert [] + Unread(s.cur) == Unread(s.cur);
  }

  /**
   The documented way to read: take what is available, consume it, repeat until nothing is available.
   It takes one round per segment and stops at the first empty segment; so it yields the whole queue
   exactly when no byte lies behind an empty segment, and it acknowledges exactly what it yields.
   */
  method Drain(b: IoRxBuffer) returns (out: seq<byte>, rounds: nat)
    requires b.Valid()
    modifies b`head, b`offset, b`chain, b.pool, b.pool.mem.next.Keys, b.conn`recved, b.conn`misused
    ensures b.Valid() && Drained(old(b.View()), b.View(), out, rounds)
    ensures rounds == Readable(Segs(old(b.chain))) && b.offset == 0
    ensures out == Unread(old(b.View()).cur) <==> Flatten(Segs(old(b.chain))[rounds..]) == []
  {
    hide Owns, Moved, Suffix, Step, Drained, Unread, Readable, Flatten, PbufPool.Valid;
    out, rounds := [], 0;
    ghost var s0, m0, chain0 := b.View(), b.pool.mem, b.chain;
    MovedNowhere(m0, chain0);
    DrainStarts(s0);
    var n := b.PeekAvailable();
    while n > 0
      invariant b.Valid() && Moved(m0, b.pool.mem, chain0, b.chain)
      invariant Drained(s0, b.View(), out, rounds)
      invariant n == if b.chain == [] then 0 else |b.chain[0].payload| - b.offset
      decreases |b.chain|
    {
      ghost var m1, chain1 := b.pool.mem, b.chain;
      MovedKeys(m0, m1, chain0, chain1);
      var piece := b.PeekBuffer();
      DrainRound(s0, b.View(), out, rounds, piece);
      b.PeekConsume(n);
      MovedTwice(m0, m1, b.pool.mem, chain0, chain1, b.chain);
      out, rounds := out + piece, rounds + 1;
      n := b.PeekAvailable();
    }
    DrainEnds(s0, b.View(), out, rounds);
  }

  // ---------------------------------------------------------------- whole runs on the heap

  /** A fresh chain carrying `segs`, its first cell held once from outside. */
  method Alloc(pool: PbufPool, segs: seq<seq<byte>>) returns (p: Pbuf?, ghost ts: seq<Pbuf>)
    requires pool.Valid()
    modifies pool
    ensures pool.Valid() && IsChain(pool.mem.next, ts) && Ptr(p) == First(ts) && Segs(ts) == segs
    ensures pool.mem.holders == old(pool.mem.holders) + Token(First(ts))
    ensures SubLinks(old(pool.mem.next), pool.mem.next)
    ensures forall c | c in ts :: c !in old(pool.mem.next)
    ensures fresh(pool.mem.next.Keys - old(pool.mem.next.Keys))
    decreases |segs|
  {
    hide PbufPool.Valid, IsChain, SubLinks, Fresh, Sound;
    if segs == [] {
      p, ts := null, [];
      NothingAllocated(pool.mem);
      return;
    }
    ghost var m0 := pool.mem;
    p, ts := Alloc(pool, segs[1..]);
    ghost var m1 := pool.mem;
    AllocHolds(m0, m1, ts);
    var c := pool.Push(segs[0], p, ts);
    PushKeeps(m0, m1, pool.mem, c, ts);
    p, ts := c, [c] + ts;
    assert Segs(ts) == [segs[0]] + Segs(ts[1..]);
  }

  lemma NothingAllocated(m: Cells)
    ensures IsChain(m.next, []) && SubLinks(m.next, m.next) && m.holders + Token(First([])) == m.holders
  {
  }

  lemma AllocHolds(m0: Cells, m1: Cells, ts: seq<Pbuf>)
    requires m1.holders == m0.holders + Token(First(ts))
    ensures ts != [] ==> ts[0] in m1.holders
  {
  }

  lemma PushKeeps(m0: Cells, m: Cells, m': Cells, p: Pbuf, ts: seq<Pbuf>)
    requires SubLinks(m0.next, m.next) && m.holders == m0.holders + Token(First(ts))
    requires p !in m.next && (ts != [] ==> ts[0] in m.rank) && m' == Fresh(m, p, First(ts))
    ensures SubLinks(m0.next, m'.next) && m'.next.Keys == m.next.Keys + {p} && p !in m0.next
    ensures m'.holders == m0.holders + multiset{p}
  {
  }

  /** Besides the buffer's own reference, exactly `held` are held: by the application, say. */
  ghost predicate Shares(b: IoRxBuffer, held: seq<Pbuf>)
    reads b, b.pool
  {
    b.pool.mem.holders == multiset(held) + Token(First(b.chain))
  }

  /** A freshly allocated chain may be delivered: it shares nothing with what is queued already. */
  lemma FreshSeparate(m: Cells, m': Cells, chain: seq<Pbuf>, ts: seq<Pbuf>, others: multiset<Pbuf>)
    requires Owns(m, chain) && IsChain(m'.next, ts) && SubLinks(m.next, m'.next)
    requires m'.holders == others + Token(First(chain)) + Token(First(ts))
    requires forall c | c in ts :: c !in m.next
    ensures Separate(m', chain, ts) && Owns(m', chain)
  {
    ChainInSuper(m.next, m'.next, chain);
    FreshHolders(m'.holders, chain, ts, [], others);
    if chain != [] && ts != [] {
      LastLive(m.next, chain);
      assert ts[|ts| - 1] in ts;
    }
  }

  lemma FreshHolders(holders: multiset<Pbuf>, chain: seq<Pbuf>, ts: seq<Pbuf>, chain': seq<Pbuf>,
                     others: multiset<Pbuf>)
    requires holders == others + Token(First(chain)) + Token(First(ts))
    ensures Token(First(chain)) + Token(First(ts)) <= holders
    ensures chain != [] ==> chain[0] in holders
    ensures ts != [] ==> ts[0] in holders
    ensures Delivered(holders, chain, ts, chain') == others + Token(First(chain'))
  {
  }

  lemma SharesMoved(m: Cells, m': Cells, from: seq<Pbuf>, to: seq<Pbuf>, others: multiset<Pbuf>)
    requires Moved(m, m', from, to) && m.holders == others + Token(First(from))
    ensures m'.holders == others + Token(First(to)) && m'.next.Keys <= m.next.Keys
  {
  }

  /**
   What happens to a buffer on the heap. lwIP delivers a chain, to one of whose cells somebody else may
   hold a reference, and the application's handler runs; the application makes a request; somebody
   takes a reference to the k-th queued cell, or gives back the k-th reference held.
   */
  datatype Action =
    | Arrive(segs: seq<seq<byte>>, err: int, handler: seq<Event>, shared: Option<nat>)
    | Ask(request: Event)
    | TakeRef(k: nat)
    | GiveRef(k: nat)

  predicate Possible(a: Action) {
    (a.Arrive? ==> forall e | e in a.handler :: !e.Callback?) && (a.Ask? ==> !a.request.Callback?)
  }

  /** The events of an action; the references of others are none of the buffer's business. */
  function EventsOf(a: Action): seq<Event> {
    match a
    case Arrive(segs, err, handler, _) => [Callback(segs, err)] + if err == ERR_OK then handler else []
    case Ask(request) => [request]
    case TakeRef(_) => []
    case GiveRef(_) => []
  }

  function AllEvents(actions: seq<Action>): seq<Event> {
    if actions == [] then [] else EventsOf(actions[0]) + AllEvents(actions[1..])
  }

  /** The k-th cell of a chain, if it is that long. */
  method Nth(pool: PbufPool, h: Pbuf?, k: nat, ghost hs: seq<Pbuf>) returns (p: Pbuf?)
    requires pool.Valid() && IsChain(pool.mem.next, hs) && Ptr(h) == First(hs)
    ensures Ptr(p) == if k < |hs| then Some(hs[k]) else None
    ensures p != null ==> p in pool.mem.next
  {
    hide Sound;
    p := h;
    var i := 0;
    assert hs != [] ==> pool.Agrees(hs[0]) && pool.mem.next[hs[0]] == Succ(hs, 0);
    while i < k && p != null
      invariant i <= k && Ptr(p) == if i < |hs| then Some(hs[i]) else None
      invariant p != null ==> pool.Agrees(p) && pool.mem.next[p] == Succ(hs, i)
      decreases k - i
    {
      p := p.next;
      i := i + 1;
      assert p != null ==> pool.Agrees(p) && pool.mem.next[p] == Succ(hs, i);
    }
  }

  /** Somebody takes a reference to the k-th cell of a chain, if it is that long. */
  method Share(pool: PbufPool, h: Pbuf?, k: nat, ghost hs: seq<Pbuf>) returns (more: seq<Pbuf>)
    requires pool.Valid() && IsChain(pool.mem.next, hs) && Ptr(h) == First(hs)
    modifies pool, pool.mem.next.Keys`ref
    ensures pool.Valid() && pool.mem.next == old(pool.mem.next)
    ensures pool.mem.holders == old(pool.mem.holders) + multiset(more)
  {
    hide Sound, PbufPool.Mirrors, IsChain;
    more := [];
    var p := Nth(pool, h, k, hs);
    if p != null {
      pool.Ref(p);
      more := [p];
    }
  }

  /** One action on the heap: lwIP allocates what it delivers. */
  method Apply(b: IoRxBuffer, conn: Pcb, a: Action, held: seq<Pbuf>) returns (held': seq<Pbuf>)
    requires b.Valid() && Shares(b, held) && b.conn == conn && Possible(a)
    modifies b, b.pool, b.pool.mem.next.Keys, conn`recved, conn`misused
    ensures b.Valid() && Shares(b, held') && b.View() == Run(old(b.View()), EventsOf(a))
    ensures fresh(b.pool.mem.next.Keys - old(b.pool.mem.next.Keys))
  {
    hide Owns, Moved, Suffix, Step, PbufPool.Valid;
    ghost var m, chain := b.pool.mem, b.chain;
    match a {
      case Arrive(segs, err, handler, shared) =>
        held' := Deliver(b, conn, segs, err, handler, shared, held);
      case Ask(request) =>
        b.Handle([request]);
        SharesMoved(m, b.pool.mem, chain, b.chain, multiset(held));
        held' := held;
      case TakeRef(k) =>
        ChainOf(m, chain);
        var more := Share(b.pool, b.head, k, b.chain);
        b.NotCells();
        StillOwned(m, b.pool.mem, chain, multiset(more));
        held' := held + more;
      case GiveRef(k) =>
        held' := held;
        if k < |held| {
          held' := GiveBack(b, k, held);
        }
    }
  }

  lemma StillOwned(m: Cells, m': Cells, chain: seq<Pbuf>, more: multiset<Pbuf>)
    requires Owns(m, chain) && m'.next == m.next && m'.holders == m.holders + more
    ensures Owns(m', chain)
  {
  }

  lemma ChainOf(m: Cells, chain: seq<Pbuf>)
    requires Owns(m, chain)
    ensures IsChain(m.next, chain)
  {
  }

  /** Somebody gives a reference back; the queued chain stays. */
  method GiveBack(b: IoRxBuffer, k: nat, held: seq<Pbuf>) returns (held': seq<Pbuf>)
    requires b.Valid() && Shares(b, held) && k < |held|
    modifies b.pool, b.pool.mem.next.Keys`ref
    ensures b.Valid() && Shares(b, held') && b.View() == old(b.View())
    ensures b.pool.mem.next.Keys <= old(b.pool.mem.next.Keys)
  {
    hide Owns, Moved, PbufPool.Mirrors, Sound;
    ghost var m := b.pool.mem;
    held' := held[..k] + held[k + 1..];
    Without(held, k);
    var _ := b.pool.Free(held[k]);
    ChainKept(m, b.pool.mem, held[k], multiset(held'), b.chain);
    b.NotCells();
  }

  lemma Without(held: seq<Pbuf>, k: nat)
    requires k < |held|
    ensures multiset(held) == multiset(held[..k] + held[k + 1..]) + multiset{held[k]}
  {
    assert held == held[..k] + [held[k]] + held[k + 1..];
  }

  lemma ChainKept(m: Cells, m': Cells, p: Pbuf, others: multiset<Pbuf>, chain: seq<Pbuf>)
    requires Sound(m) && Sound(m') && Owns(m, chain) && m.holders == others + multiset{p} + Token(First(chain))
    requires m'.rank == m.rank && SubLinks(m'.next, m.next) && m'.holders == m.holders - multiset{p}
    ensures Owns(m', chain) && m'.holders == others + Token(First(chain)) && m'.next.Keys <= m.next.Keys
  {
    MovedAway(m, m', [p]);
    OthersUndisturbed(m, m', [p], [], chain);
  }

  method Deliver(b: IoRxBuffer, conn: Pcb, segs: seq<seq<byte>>, err: int, handler: seq<Event>, shared: Option<nat>,
                 held: seq<Pbuf>)
    returns (held': seq<Pbuf>)
    requires b.Valid() && Shares(b, held) && b.conn == conn && forall e | e in handler :: !e.Callback?
    modifies b, b.pool, b.pool.mem.next.Keys, conn`recved, conn`misused
    ensures b.Valid() && Shares(b, held')
    ensures b.View() == Run(old(b.View()), [Callback(segs, err)] + if err == ERR_OK then handler else [])
    ensures fresh(b.pool.mem.next.Keys - old(b.pool.mem.next.Keys))
  {
    hide Owns, Separate, Delivered, Step, PbufPool.Valid, IsChain, SubLinks, Run;
    ghost var s, m, chain := b.View(), b.pool.mem, b.chain;
    var p, ts := Alloc(b.pool, segs);
    var more := [];
    if shared.Some? {
      more := Share(b.pool, p, shared.value, ts);
    }
    b.NotCells();
    held' := held + more;
    ghost var m1 := b.pool.mem;
    FreshSeparate(m, m1, chain, ts, multiset(held'));
    RunOne(s, Callback(segs, err), if err == ERR_OK then handler else []);
    var _ := b.ReceiveCallback(conn, p, err, handler, ts);
    FreshHolders(m1.holders, chain, ts, b.chain, multiset(held'));
  }

  /**
   Every run, on the heap, and whoever else takes and drops references: the buffer's state is the machine's,
   its references are all accounted for, and every cell that is live is reachable from the head or from
   another holder. If there is none, the chain is all that is live: every cell ever handed in has been
   released once by the cascade or is still queued.
   */
  method Play(b: IoRxBuffer, conn: Pcb, actions: seq<Action>, held: seq<Pbuf>) returns (held': seq<Pbuf>)
    requires b.Valid() && Shares(b, held) && b.conn == conn && forall a | a in actions :: Possible(a)
    modifies b, b.pool, b.pool.mem.next.Keys, conn`recved, conn`misused
    ensures b.Valid() && Shares(b, held') && b.View() == Run(old(b.View()), AllEvents(actions))
    ensures Accounted(b.pool.mem, b.chain, multiset(held')) && b.pool.allocs == b.pool.frees + |b.pool.mem.next.Keys|
    ensures fresh(b.pool.mem.next.Keys - old(b.pool.mem.next.Keys))
    decreases |actions|
  {
    hide Owns, Shares, Step, IoRxBuffer.View, Accounted;
    held' := held;
    if actions == [] {
      AllAccounted(b, held);
    } else {
      assert actions[0] in actions;
      ViewWf(b);
      RunConcat(b.View(), EventsOf(actions[0]), AllEvents(actions[1..]));
      held' := Apply(b, conn, actions[0], held);
      held' := Play(b, conn, actions[1..], held');
    }
  }

  lemma ViewWf(b: IoRxBuffer)
    requires b.Valid()
    ensures Wf(b.View().cur)
  {
  }

  /** Each live cell is in the chain or reachable from one of the other holders. */
  ghost predicate Accounted(m: Cells, chain: seq<Pbuf>, others: multiset<Pbuf>) {
    && Sound(m)
    && (forall p | p in m.next :: p in chain || exists h | h in others :: RefGraph.Reaches(m.next, m.rank, h, p))
    && (others == multiset{} ==> m.next.Keys == set c | c in chain)
  }

  lemma AllAccounted(b: IoRxBuffer, held: seq<Pbuf>)
    requires b.Valid() && Shares(b, held)
    ensures Accounted(b.pool.mem, b.chain, multiset(held))
  {
    var m := b.pool.mem;
    WalkOfChain(m.next, m.rank, b.chain);
    forall p | p in m.next && p !in b.chain
      ensures exists h | h in multiset(held) :: RefGraph.Reaches(m.next, m.rank, h, p)
    {
      var h := HolderOf(m.next, m.ref, m.holders, m.rank, p);
      assert h in multiset(held);
    }
    if multiset(held) == multiset{} {
      SoleOwner(m, b.chain);
    }
  }

  /** A run from the state the library starts in: an empty buffer for a new connection. */
  method PlayFromStart(actions: seq<Action>) returns (b: IoRxBuffer, held: seq<Pbuf>)
    requires forall a | a in actions :: Possible(a)
    ensures fresh(b) && b.Valid() && b.View() == Run(Init([]), AllEvents(actions))
    ensures held == [] ==> b.pool.mem.next.Keys == set c | c in b.chain
    ensures Accounted(b.pool.mem, b.chain, multiset(held))
    ensures b.pool.allocs == b.pool.frees + |b.pool.mem.next.Keys|
  {
    var pool := new PbufPool();
    var conn := new Pcb(0);
    b := new IoRxBuffer(pool, conn, null, []);
    held := Play(b, conn, actions, []);
  }
}
