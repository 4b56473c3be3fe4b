/** The receive buffer: a pbuf chain with a read cursor, updated in place. */
module RxBuffer {
  import opened Wrappers
  import opened Sequences
  import opened RefGraph
  import opened PbufMemory
  import opened ByteQueue
  import opened RxMachine
  import opened Lwip

  type Cells = Memory<Pbuf>

  // ---------------------------------------------------------------- the chain and its references

  /** The buffer holds one reference to the first cell of `chain`. */
  ghost predicate Owns(m: Cells, chain: seq<Pbuf>) {
    IsChain(m.next, chain) && (chain != [] ==> chain[0] in m.holders)
  }

  /** `m'` is `m` after the buffer's reference moved from the first cell of `from` to that of `to`. */
  ghost predicate Moved(m: Cells, m': Cells, from: seq<Pbuf>, to: seq<Pbuf>) {
    && m'.rank == m.rank
    && SubLinks(m'.next, m.next)
    && m'.holders == m.holders - Token(First(from)) + Token(First(to))
  }

  lemma MovedNowhere(m: Cells, chain: seq<Pbuf>)
    requires Owns(m, chain)
    ensures Moved(m, m, chain, chain)
  {
  }

  lemma MovedEmpty(m: Cells)
    ensures Owns(m, []) && Moved(m, m, [], [])
  {
  }

  lemma MovedTwice(m: Cells, m': Cells, m'': Cells, a: seq<Pbuf>, b: seq<Pbuf>, c: seq<Pbuf>)
    requires Moved(m, m', a, b) && Moved(m', m'', b, c)
    ensures Moved(m, m'', a, c)
  {
    SubLinksTransitive(m''.next, m'.next, m.next);
    assert m.holders - Token(First(a)) + Token(First(b)) - Token(First(b)) == m.holders - Token(First(a));
  }

  lemma MovedKeys(m: Cells, m': Cells, a: seq<Pbuf>, b: seq<Pbuf>)
    requires Moved(m, m', a, b)
    ensures m'.next.Keys <= m.next.Keys
  {
  }

  /**
   Moving the buffer's reference never leaks and never frees too much: the cells left are exactly
   those that the holders after the move reach in the memory before it.
   */
  lemma MovedLeaves(m: Cells, m': Cells, from: seq<Pbuf>, to: seq<Pbuf>)
    requires Sound(m) && Sound(m') && Moved(m, m', from, to)
    ensures m'.next.Keys == Reach(m.next, m.rank, m'.holders)
  {
    SurvivorsAreReachable(m'.next, m'.ref, m'.holders, m.next, m.rank);
  }

  /** With the buffer as the only holder, the live cells are exactly the cells of its chain. */
  lemma SoleOwner(m: Cells, chain: seq<Pbuf>)
    requires Sound(m) && Owns(m, chain) && m.holders == Token(First(chain))
    ensures m.next.Keys == set c | c in chain
  {
    WalkOfChain(m.next, m.rank, chain);
    forall p | p in m.next
      ensures p in chain
    {
      var h := HolderOf(m.next, m.ref, m.holders, m.rank, p);
      assert Some(h) == First(chain);
    }
    ChainLive(m, chain);
  }

  lemma ChainLive(m: Cells, chain: seq<Pbuf>)
    requires Sound(m) && IsChain(m.next, chain)
    ensures forall i | 0 <= i < |chain| :: chain[i] in m.next && chain[i] in m.ref
    ensures |chain| > 1 ==> chain[0] != chain[1] && m.next[chain[0]] == Some(chain[1])
    ensures |chain| == 1 ==> m.next[chain[0]] == None
  {
    if |chain| > 0 { assert m.next[chain[0]] == Succ(chain, 0); }
    if |chain| > 1 { ChainDistinct(m.next, m.rank, chain, 0, 1); }
  }

  /** `m1` is the memory once the successor of the head, if any, is also held from outside. */
  ghost predicate SuccessorHeld(m: Cells, m1: Cells, chain: seq<Pbuf>)
    requires chain != []
  {
    if |chain| > 1 then chain[1] in m.ref && m1 == Held(m, chain[1]) else m1 == m
  }

  lemma HandedOver(m: Cells, m1: Cells, m': Cells, chain: seq<Pbuf>)
    requires Sound(m) && Sound(m1) && Sound(m') && Owns(m, chain) && chain != [] && SuccessorHeld(m, m1, chain)
    requires m'.rank == m1.rank && SubLinks(m'.next, m1.next)
    requires m'.holders == m1.holders - multiset{chain[0]}
    ensures Owns(m', chain[1..]) && Moved(m, m', chain, chain[1..])
    ensures chain[0] in m.ref
    ensures m'.next.Keys == if m.ref[chain[0]] == 1 then m.next.Keys - {chain[0]} else m.next.Keys
  {
    ChainLive(m, chain);
    HandOverFreesAtMostHead(m1.next, m1.ref, m1.holders, m1.rank, chain[0], m'.next, m'.ref);
    ChainTail(m.next, chain);
    ChainInSub(m'.next, m.next, m.rank, chain[1..]);
  }

  lemma HeadIsLive(m: Cells, chain: seq<Pbuf>)
    requires Sound(m) && Owns(m, chain) && chain != []
    ensures chain[0] in m.next && chain[0] in m.ref && m.next[chain[0]] == First(chain[1..])
    ensures |chain| > 1 ==> chain[1] in m.next && chain[1] in m.ref && chain[0] != chain[1]
  {
    ChainLive(m, chain);
  }

  /** Both the buffer's chain and the chain being delivered are held, and they do not share a tail. */
  ghost predicate Separate(m: Cells, chain: seq<Pbuf>, ts: seq<Pbuf>) {
    && Owns(m, chain) && Owns(m, ts)
    && Token(First(chain)) + Token(First(ts)) <= m.holders
    && (chain != [] && ts != [] ==> chain[|chain| - 1] != ts[|ts| - 1])
  }

  /** The outside references after a delivery: both chains' references became that of the new chain. */
  ghost function Delivered(holders: multiset<Pbuf>, chain: seq<Pbuf>, ts: seq<Pbuf>, chain': seq<Pbuf>): multiset<Pbuf>
  {
    holders - Token(First(chain)) - Token(First(ts)) + Token(First(chain'))
  }

  lemma DeliveredHeld(m: Cells, chain: seq<Pbuf>, ts: seq<Pbuf>)
    requires Separate(m, chain, ts)
    ensures ts != [] ==> ts[0] in m.holders
    ensures chain != [] ==> IsChain(m.next, chain)
    ensures IsChain(m.next, ts)
    ensures chain != [] && ts != [] ==> chain[|chain| - 1] != ts[|ts| - 1]
  {
  }

  lemma DeliveredNothing(m: Cells, chain: seq<Pbuf>)
    requires Owns(m, chain)
    ensures Delivered(m.holders, chain, [], chain) == m.holders
  {
  }

  /** Freeing a rejected chain leaves the buffer's own chain alone. */
  lemma ChainSurvives(m: Cells, m': Cells, chain: seq<Pbuf>, ts: seq<Pbuf>)
    requires Sound(m) && Sound(m') && Separate(m, chain, ts) && ts != []
    requires m'.rank == m.rank && SubLinks(m'.next, m.next) && m'.holders == m.holders - multiset{ts[0]}
    ensures Owns(m', chain) && m'.holders == Delivered(m.holders, chain, ts, chain)
  {
    if chain != [] {
      assert m.holders[chain[0]] >= (Token(First(chain)) + Token(First(ts)))[chain[0]];
      assert chain[0] in m'.holders;
      ChainInSub(m'.next, m.next, m.rank, chain);
    }
  }

  /** Appending a delivered chain keeps the buffer's reference and spends the delivered one. */
  lemma ChainAppended(m: Cells, m': Cells, chain: seq<Pbuf>, ts: seq<Pbuf>)
    requires Sound(m) && Separate(m, chain, ts) && chain != [] && ts != [] && ts[0] in m.next
    requires m' == Appended(m, chain[|chain| - 1], ts[0]) && IsChain(m'.next, chain + ts)
    ensures Owns(m', chain + ts) && m'.holders == Delivered(m.holders, chain, ts, chain + ts)
    ensures m'.next.Keys <= m.next.Keys
  {
    hide Sound, IsChain, AppendRank, Token, First, LastsDiffer;
    AppendedTokens(m.holders, chain, ts);
    LastLive(m.next, chain);
  }

  lemma AppendedTokens(holders: multiset<Pbuf>, chain: seq<Pbuf>, ts: seq<Pbuf>)
    requires Token(First(chain)) + Token(First(ts)) <= holders && chain != [] && ts != []
    ensures chain[0] in holders - multiset{ts[0]} && (chain + ts)[0] == chain[0]
    ensures Delivered(holders, chain, ts, chain + ts) == holders - multiset{ts[0]}
  {
    assert holders[chain[0]] >= (Token(First(chain)) + Token(First(ts)))[chain[0]];
  }

  lemma ChainTaken(m: Cells, ts: seq<Pbuf>)
    requires Separate(m, [], ts) && ts != []
    ensures [] + ts == ts && Owns(m, ts) && m.holders == Delivered(m.holders, [], ts, [] + ts)
  {
  }

  /**
   Connections share lwIP's memory without disturbing each other: whatever one buffer consumes or
   resets, a chain that someone else holds stays whole, even where the chains share cells.
   */
  lemma OthersUndisturbed(m: Cells, m': Cells, from: seq<Pbuf>, to: seq<Pbuf>, other: seq<Pbuf>)
    requires Sound(m) && Sound(m') && Moved(m, m', from, to)
    requires Owns(m, other) && Token(First(from)) + Token(First(other)) <= m.holders
    ensures Owns(m', other)
  {
    if other != [] {
      assert m.holders[other[0]] >= (Token(First(from)) + Token(First(other)))[other[0]];
      assert other[0] in m'.holders;
      ChainInSub(m'.next, m.next, m.rank, other);
    }
  }

  /** Two chains do not end in the same cell, so that they share none. */
  ghost predicate LastsDiffer(a: seq<Pbuf>, b: seq<Pbuf>) {
    a != [] && b != [] ==> a[|a| - 1] != b[|b| - 1]
  }

  /** Somebody else's chain, beside the buffer's and the one being delivered. */
  ghost predicate Aside(m: Cells, chain: seq<Pbuf>, ts: seq<Pbuf>, older other: seq<Pbuf>) {
    && Owns(m, other) && LastsDiffer(other, chain)
    && Token(First(chain)) + Token(First(ts)) + Token(First(other)) <= m.holders
  }

  /** A delivery leaves the chains of others whole. */
  ghost predicate OthersKept(m: Cells, m': Cells, chain: seq<Pbuf>, ts: seq<Pbuf>) {
    forall other | Aside(m, chain, ts, other) :: Owns(m', other)
  }

  lemma DiscardKeeps(m: Cells, m': Cells, chain: seq<Pbuf>, ts: seq<Pbuf>)
    requires Sound(m) && Sound(m') && ts != []
    requires m'.rank == m.rank && SubLinks(m'.next, m.next) && m'.holders == m.holders - multiset{ts[0]}
    ensures OthersKept(m, m', chain, ts)
  {
    forall other | Aside(m, chain, ts, other)
      ensures Owns(m', other)
    {
      if other != [] {
        assert m.holders[other[0]] >= (Token(First(chain)) + Token(First(ts)) + Token(First(other)))[other[0]];
        assert other[0] in m'.holders;
        ChainInSub(m'.next, m.next, m.rank, other);
      }
    }
  }

  lemma AppendKeeps(m: Cells, m': Cells, chain: seq<Pbuf>, ts: seq<Pbuf>)
    requires Sound(m) && IsChain(m.next, chain) && chain != [] && ts != [] && ts[0] in m.next
    requires m' == Appended(m, chain[|chain| - 1], ts[0])
    ensures OthersKept(m, m', chain, ts)
  {
    var last := chain[|chain| - 1];
    LastLive(m.next, chain);
    forall other | Aside(m, chain, ts, other)
      ensures Owns(m', other)
    {
      forall i | 0 <= i < |other|
        ensures other[i] in m'.next && m'.next[other[i]] == Succ(other, i)
      {
        assert m.next[other[i]] == Succ(other, i);
      }
      if other != [] {
        assert m.holders[other[0]] >= (Token(First(chain)) + Token(First(ts)) + Token(First(other)))[other[0]];
        assert other[0] in m'.holders;
      }
    }
  }

  lemma KeptThenMoved(m: Cells, m1: Cells, m2: Cells, chain: seq<Pbuf>, ts: seq<Pbuf>,
                      chain1: seq<Pbuf>, chain2: seq<Pbuf>)
    requires Sound(m1) && Sound(m2) && OthersKept(m, m1, chain, ts)
    requires m1.holders == Delivered(m.holders, chain, ts, chain1) && Moved(m1, m2, chain1, chain2)
    ensures OthersKept(m, m2, chain, ts)
  {
    forall other | Aside(m, chain, ts, other)
      ensures Owns(m2, other)
    {
      OthersUndisturbed(m1, m2, chain1, chain2, other);
    }
  }

  lemma NothingMoved(m: Cells, chain: seq<Pbuf>, ts: seq<Pbuf>)
    ensures OthersKept(m, m, chain, ts)
  {
  }

  // ---------------------------------------------------------------- the cursor of a chain

  /** The cursor of a chain read up to `offset` bytes into its first cell. */
  ghost function At(chain: seq<Pbuf>, offset: nat): Cursor {
    Cursor(Segs(chain), offset)
  }

  ghost predicate Suffix(s: seq<Pbuf>, t: seq<Pbuf>) {
    |s| <= |t| && s == t[|t| - |s|..]
  }

  lemma AtTail(chain: seq<Pbuf>, offset: nat)
    requires chain != []
    ensures At(chain[1..], 0) == Cursor(At(chain, offset).segs[1..], 0)
  {
  }

  lemma SuffixTail(s: seq<Pbuf>, t: seq<Pbuf>)
    requires Suffix(s, t) && s != []
    ensures Suffix(s[1..], t)
  {
  }

  lemma AtConcat(a: seq<Pbuf>, b: seq<Pbuf>, offset: nat)
    ensures At(a + b, offset) == Cursor(Segs(a) + Segs(b), offset)
  {
    assert Segs(a + b) == Segs(a) + Segs(b);
  }

  /** The PCB is followed exactly when something is acknowledged. */
  function Reported(p: PcbView, before: seq<nat>, after: seq<nat>): PcbView {
    if |before| < |after| then Used(p) else p
  }

  // ---------------------------------------------------------------- the buffer object

  class IoRxBuffer {
    const pool: PbufPool
    /** The one PCB whose callbacks are bound to this buffer. */
    ghost const conn: Pcb
    var pcb: Pcb?
    var head: Pbuf?
    var offset: nat
    /** The notifications given to the application, oldest first. */
    var notices: seq<Notice>
    ghost var chain: seq<Pbuf>
    ghost var received: nat
    ghost var discarded: nat
    ghost var dropped: nat

    /** The buffer owns the chain at `head`. */
    ghost predicate Linked()
      reads this, pool, pool.mem.next.Keys
    {
      && pool.Valid()
      && Ptr(head) == First(chain)
      && Owns(pool.mem, chain)
      && (pcb == null || pcb == conn)
    }

    ghost predicate Valid()
      reads this, pool, pool.mem.next.Keys
    {
      Linked() && Wf(At(chain, offset))
    }

    ghost function View(): Rx
      reads this, conn
    {
      Rx(At(chain, offset), pcb != null, conn.recved, notices, received, discarded, dropped)
    }

    /** The unread bytes. */
    ghost function Queue(): seq<byte>
      reads this
    {
      if Wf(At(chain, offset)) then Unread(At(chain, offset)) else []
    }

    /** Unread bytes have a PCB to be acknowledged to. */
    ghost predicate Knows()
      reads this
    {
      Queue() != [] ==> pcb != null
    }

    lemma QueueMeans()
      requires Valid()
      ensures Wf(View().cur) && Queue() == Unread(View().cur) && (Knows() <==> Armed(View()))
    {
    }

    lemma PoolValid()
      requires Valid()
      ensures pool.Valid()
    {
    }

    lemma NothingQueued()
      ensures chain == [] ==> Queue() == []
    {
    }

    lemma NotCells()
      ensures forall q | q in pool.mem.next :: q as object != this && q as object != conn
    {
    }

    /** Take over a chain, with the reference to its first cell. */
    constructor (pool: PbufPool, ghost conn: Pcb, p: Pbuf?, ghost ts: seq<Pbuf>)
      requires pool.Valid() && Owns(pool.mem, ts) && Ptr(p) == First(ts)
      ensures Valid() && this.pool == pool && this.conn == conn && chain == ts
      ensures pcb == null && head == p && offset == 0 && notices == []
      ensures View() == Init(Segs(ts)).(acks := conn.recved)
    {
      this.pool, this.conn := pool, conn;
      pcb, head, offset, notices := null, p, 0, [];
      chain, received, discarded, dropped := ts, 0, 0, 0;
    }

    /**
     The next byte, or 0 without a chain. The cursor is not checked: behind an empty head segment it reads
     `beyond`, whatever lies there, so that the result is the next byte exactly when there is no such segment.
     */
    function Peek(beyond: byte): (b: byte)
      requires Valid()
      reads this, pool, pool.mem.next.Keys, conn
      ensures chain == [] ==> b == 0
      ensures chain != [] && chain[0].payload != [] ==> Unread(View().cur) != [] && b == Unread(View().cur)[0]
      ensures chain != [] && chain[0].payload == [] ==> b == beyond
    {
      if head == null then 0 else if offset < |head.payload| then head.payload[offset] else beyond
    }

    /** The bytes left in the head segment: zero exactly when there is none or it is empty. */
    function PeekAvailable(): (n: nat)
      requires Valid()
      reads this, pool, pool.mem.next.Keys, conn
      ensures n == if chain == [] then 0 else |chain[0].payload| - offset
      ensures n <= |Unread(View().cur)|
      ensures n == 0 <==> chain == [] || chain[0].payload == []
    {
      if head == null then 0 else |head.payload| - offset
    }

    /** The bytes at the cursor, up to the end of the head segment: a prefix of the queue. */
    function PeekBuffer(): (r: seq<byte>)
      requires Valid()
      reads this, pool, pool.mem.next.Keys, conn
      ensures r <= Unread(View().cur)
      ensures |r| == if chain == [] then 0 else |chain[0].payload| - offset
    {
      if head == null then [] else head.payload[offset..]
    }

    /** Acknowledge consumed bytes to lwIP in 16-bit pieces. */
    method ToAck(consumed: nat)
      requires pcb != null
      modifies pcb`recved, pcb`misused
      ensures pcb.recved == old(pcb.recved) + Pieces(consumed)
      ensures FullCuts(pcb.recved[|old(pcb.recved)|..], consumed)
      ensures forall qs | Cuts(qs, consumed) :: |pcb.recved| <= |old(pcb.recved)| + |qs|
      ensures pcb.View() == if consumed > 0 then Used(old(pcb.View())) else old(pcb.View())
    {
      var toAck := consumed;
      ghost var start := pcb.recved;
      assert start + [] == start;
      while toAck != 0
        invariant 0 <= toAck <= consumed && pcb.recved + Pieces(toAck) == start + Pieces(consumed)
        invariant pcb.View() == if toAck < consumed then Used(old(pcb.View())) else old(pcb.View())
      {
        var chunk := Min(toAck, U16_MAX);
        assert pcb.recved + Pieces(toAck) == pcb.recved + [chunk] + Pieces(toAck - chunk);
        pcb.TcpRecved(chunk);
        toAck := toAck - chunk;
      }
      assert pcb.recved + [] == pcb.recved;
      PiecesSum(consumed);
      assert pcb.recved[|start|..] == Pieces(consumed);
      forall qs | Cuts(qs, consumed)
        ensures |pcb.recved| <= |start| + |qs|
      {
        FullCutsFewest(Pieces(consumed), qs, consumed);
      }
    }

    /**
     Release the head segment and move on: reference the successor, then free the old head. Of all
     live cells only the old head can go, and it goes exactly when this was its last reference.
     */
    method FreeHead()
      requires Linked() && head != null
      modifies this`head, this`offset, this`chain, pool, pool.mem.next.Keys
      ensures Valid() && chain == old(chain)[1..] && offset == 0
      ensures Moved(old(pool.mem), pool.mem, old(chain), chain)
      ensures old(head) in old(pool.mem.ref)
      ensures pool.mem.next.Keys == if old(pool.mem.ref[head]) == 1 then old(pool.mem.next.Keys) - {old(head)}
                                    else old(pool.mem.next.Keys)
    {
      hide Moved, Sound, Owns, PbufPool.Mirrors;
      HeadIsLive(pool.mem, chain);
      pool.FieldsOf(head);
      var first: Pbuf := head;
      head := head.next;
      offset := 0;
      KeepNextFreeOld(pool, first, head, chain);
      chain := chain[1..];
    }

    /** Consumption inside one segment, releasing it when it is exactly exhausted. */
    method FastPath(remaining: nat) returns (consumed: nat)
      requires Valid() && head != null && 0 < remaining <= |head.payload| - offset
      modifies this`head, this`offset, this`chain, pool, pool.mem.next.Keys
      ensures Valid() && At(chain, offset) == Advance(old(At(chain, offset)), remaining)
      ensures consumed == remaining == Min(remaining, |Unread(old(At(chain, offset)))|)
      ensures Moved(old(pool.mem), pool.mem, old(chain), chain) && Suffix(chain, old(chain))
    {
      hide Owns, Moved, Sound, PbufPool.Mirrors;
      ghost var start := At(chain, offset);
      offset := offset + remaining;
      consumed := remaining;
      if offset == |head.payload| {
        AdvanceOver(start, remaining);
        AtTail(chain, 0);
        FreeHead();
      } else {
        AdvanceInside(start, remaining);
        MovedNowhere(pool.mem, chain);
      }
    }

    /** Consumption across segments: release whole segments until the request is met or the chain ends. */
    method SlowPath(n: nat) returns (consumed: nat)
      requires Valid()
      modifies this`head, this`offset, this`chain, pool, pool.mem.next.Keys
      ensures Valid() && At(chain, offset) == Advance(old(At(chain, offset)), n)
      ensures consumed == Min(n, |Unread(old(At(chain, offset)))|)
      ensures Moved(old(pool.mem), pool.mem, old(chain), chain) && Suffix(chain, old(chain))
    {
      hide Owns, Moved, Sound, PbufPool.Valid, Advance, Unread;
      ghost var m0, chain0 := pool.mem, chain;
      ghost var start := At(chain, offset);
      ghost var goal := Advance(start, n);
      MovedNowhere(m0, chain0);
      consumed := 0;
      var remaining: nat := n;
      while remaining > 0 && head != null
        invariant Valid() && Moved(m0, pool.mem, chain0, chain) && Suffix(chain, chain0)
        invariant Advance(At(chain, offset), remaining) == goal
        invariant consumed + remaining == n
        invariant |Unread(At(chain, offset))| + consumed == |Unread(start)|
        decreases |chain|
      {
        ghost var m1, chain1 := pool.mem, chain;
        var available := |head.payload| - offset;
        if remaining < available {
          Skip(remaining);
          consumed := consumed + remaining;
          return;
        }
        SuffixTail(chain, chain0);
        MovedKeys(m0, m1, chain0, chain1);
        Exhaust(remaining);
        consumed := consumed + available;
        remaining := remaining - available;
        MovedTwice(m0, m1, pool.mem, chain0, chain1, chain);
      }
      AdvanceNothing(At(chain, offset), remaining);
    }

    /** The last round of the slow path: part of the head segment is consumed. */
    method Skip(n: nat)
      requires Valid() && head != null && 0 < n < |head.payload| - offset
      modifies this`offset
      ensures Valid() && At(chain, offset) == Advance(old(At(chain, offset)), n)
      ensures |Unread(At(chain, offset))| + n == |Unread(old(At(chain, offset)))|
    {
      hide Owns, PbufPool.Valid;
      AdvanceInside(At(chain, offset), n);
      NotCells();
      offset := offset + n;
    }

    /** One round of the slow path: the rest of the head segment is consumed and the segment released. */
    method Exhaust(ghost remaining: nat)
      requires Valid() && head != null && 0 < remaining && |head.payload| - offset <= remaining
      modifies this`head, this`offset, this`chain, pool, pool.mem.next.Keys
      ensures var available := |old(head).payload| - old(offset);
              && Valid() && chain == old(chain)[1..]
              && Advance(At(chain, offset), remaining - available) == Advance(old(At(chain, offset)), remaining)
              && |Unread(At(chain, offset))| + available == |Unread(old(At(chain, offset)))|
      ensures Moved(old(pool.mem), pool.mem, old(chain), chain)
    {
      hide Owns, Moved, Sound, PbufPool.Mirrors;
      AdvanceOver(At(chain, offset), remaining);
      AtTail(chain, offset);
      FreeHead();
    }

    /** Consume `n` bytes by the fast or the slow path and acknowledge what was removed. */
    method PeekConsume(n: nat)
      requires Valid()
      modifies this`head, this`offset, this`chain, pool, pool.mem.next.Keys, conn`recved, conn`misused
      ensures Valid() && View() == Step(old(View()), Consume(n))
      ensures old(conn.recved) <= conn.recved
      ensures if pcb == null then conn.recved == old(conn.recved)
              else FullCuts(conn.recved[|old(conn.recved)|..], Min(n, |old(Queue())|))
      ensures Moved(old(pool.mem), pool.mem, old(chain), chain) && Suffix(chain, old(chain))
      ensures conn.View() == Reported(old(conn.View()), old(conn.recved), conn.recved)
    {
      hide Owns, Moved, Sound, PbufPool.Mirrors, Advance, Step, Unread, FullCuts, Pieces, Queue;
      QueueMeans();
      ghost var before := View();
      if n == 0 || head == null {
        MovedNowhere(pool.mem, chain);
        NothingConsumed(before, n);
        NothingQueued();
        PiecesSum(0);
        PiecesExist(0);
        assert conn.recved[|conn.recved|..] == [];
        return;
      }
      var available := |head.payload| - offset;
      var consumed := 0;
      if n <= available {
        consumed := FastPath(n);
      } else {
        consumed := SlowPath(n);
      }
      Consumed(before, n, At(chain, offset), consumed);
      PiecesExist(consumed);
      PiecesSum(consumed);
      assert conn.recved[|conn.recved|..] == [];
      if pcb != null && consumed > 0 {
        NotCells();
        ToAck(consumed);
      }
    }

    /** Release whatever is queued. Without a chain nothing changes, not even the PCB pointer. */
    method Reset()
      requires Valid()
      modifies this`head, this`offset, this`pcb, this`chain, this`discarded, pool, pool.mem.next.Keys
      ensures Valid() && View() == Step(old(View()), Event.Reset) && chain == [] && head == null
      ensures if old(head) == null then pcb == old(pcb) && offset == old(offset) else pcb == null && offset == 0
      ensures Moved(old(pool.mem), pool.mem, old(chain), [])
      ensures old(chain) == [] ==> pool.mem == old(pool.mem)
    {
      hide Owns, Moved, PbufPool.Valid, Unread;
      if head == null {
        MovedNowhere(pool.mem, chain);
      } else {
        ghost var m := pool.mem;
        FirstHeld(m, chain);
        var _ := pool.Free(head);
        MovedAway(m, pool.mem, chain);
        Forget();
      }
    }

    /** The fields of an empty, detached buffer. */
    method Forget()
      requires pool.Valid() && Wf(At(chain, offset)) && chain != []
      modifies this`head, this`offset, this`pcb, this`chain, this`discarded
      ensures pool.Valid() && head == null && pcb == null && chain == [] && offset == 0
      ensures View() == Step(old(View()), Event.Reset)
    {
      hide PbufPool.Valid, Unread;
      NotCells();
      discarded := discarded + |Unread(At(chain, offset))|;
      head, offset, pcb, chain := null, 0, null, [];
    }

    /**
     lwIP's receive callback: an error frees the chain, a null chain is a FIN, and data is appended
     behind what is queued. In every case the reference passed in is spent or taken over. A FIN and data
     are announced to the application, whose handler reads and resets before the callback returns: that
     amounts to the same requests made after the callback.
     */
    method ReceiveCallback(tpcb: Pcb, p: Pbuf?, err: int, handler: seq<Event>, ghost ts: seq<Pbuf>) returns (ret: int)
      requires Valid() && tpcb == conn && Ptr(p) == First(ts) && Separate(pool.mem, chain, ts)
      requires forall e | e in handler :: !e.Callback?
      modifies this, pool, pool.mem.next.Keys, conn`recved, conn`misused
      ensures Valid() && Wf(Step(old(View()), Callback(Segs(ts), err)).cur)
      ensures View() == Run(Step(old(View()), Callback(Segs(ts), err)), if err == ERR_OK then handler else [])
      ensures notices == old(notices) + if err != ERR_OK then [] else if p == null then [FinNotice] else [DataNotice]
      ensures err != ERR_OK || handler == [] ==> pcb == tpcb
      ensures ret == if err != ERR_OK then err else if p == null then ERR_ABRT else ERR_OK
      ensures Suffix(chain, if err == ERR_OK then old(chain) + ts else old(chain))
      ensures pool.mem.holders == Delivered(old(pool.mem).holders, old(chain), ts, chain)
      ensures OthersKept(old(pool.mem), pool.mem, old(chain), ts)
      ensures pool.mem.next.Keys <= old(pool.mem.next.Keys)
      ensures conn.View() == Reported(old(conn.View()), old(conn.recved), conn.recved)
    {
      hide Owns, Separate, Delivered, OthersKept, PbufPool.Mirrors, Sound, Flatten, Step, Moved, Run;
      ghost var chain0, m0 := chain, pool.mem;
      StepWf(View(), Callback(Segs(ts), err));
      ret := Accept(tpcb, p, err, ts);
      ghost var m1, chain1 := pool.mem, chain;
      if err == ERR_OK {
        RequestsTellNothing(View(), handler);
        Handle(handler);
      } else {
        MovedNowhere(m1, chain1);
      }
      KeptThenMoved(m0, m1, pool.mem, chain0, ts, chain1, chain);
      DeliveredMoved(m0.holders, m1, pool.mem, chain0, ts, chain1, chain);
      RunNothing(View());
    }

    /** The callback up to the notification of the application. */
    method Accept(tpcb: Pcb, p: Pbuf?, err: int, ghost ts: seq<Pbuf>) returns (ret: int)
      requires Valid() && tpcb == conn && Ptr(p) == First(ts) && Separate(pool.mem, chain, ts)
      modifies this`pcb, this`head, this`offset, this`chain, this`notices, this`received, this`dropped
      modifies pool, pool.mem.next.Keys
      ensures Valid() && View() == Step(old(View()), Callback(Segs(ts), err)) && pcb == tpcb
      ensures notices == old(notices) + if err != ERR_OK then [] else if p == null then [FinNotice] else [DataNotice]
      ensures ret == if err != ERR_OK then err else if p == null then ERR_ABRT else ERR_OK
      ensures chain == if err == ERR_OK then old(chain) + ts else old(chain)
      ensures pool.mem.holders == Delivered(old(pool.mem).holders, old(chain), ts, chain)
      ensures OthersKept(old(pool.mem), pool.mem, old(chain), ts)
      ensures pool.mem.next.Keys <= old(pool.mem.next.Keys)
    {
      hide Owns, Separate, Delivered, OthersKept, PbufPool.Valid, Flatten, Unread;
      NotCells();
      pcb := tpcb;
      if err != ERR_OK {
        Discard(p, ts);
        NotCells();
        dropped := dropped + |Flatten(Segs(ts))|;
        return err;
      }
      if p == null {
        DeliveredNothing(pool.mem, chain);
        NothingMoved(pool.mem, chain, ts);
        notices := notices + [FinNotice];
        assert chain + ts == chain;
        return ERR_ABRT;
      }
      TakeOver(p, ts);
      NotCells();
      received := received + |Flatten(Segs(ts))|;
      notices := notices + [DataNotice];
      return ERR_OK;
    }

    /** Requests of the application, one after the other. */
    method Handle(requests: seq<Event>)
      requires Valid() && forall e | e in requests :: !e.Callback?
      modifies this`head, this`offset, this`pcb, this`chain, this`discarded
      modifies pool, pool.mem.next.Keys, conn`recved, conn`misused
      ensures Valid() && View() == Run(old(View()), requests)
      ensures Moved(old(pool.mem), pool.mem, old(chain), chain) && Suffix(chain, old(chain))
      ensures conn.View() == Reported(old(conn.View()), old(conn.recved), conn.recved)
      ensures |old(conn.recved)| <= |conn.recved| && (requests == [] ==> pcb == old(pcb))
      decreases |requests|
    {
      hide Owns, Moved, Sound, PbufPool.Valid, Step;
      ghost var m0, chain0 := pool.mem, chain;
      if requests == [] {
        MovedNowhere(pool.mem, chain);
        return;
      }
      assert requests[0] in requests;
      match requests[0] {
        case Consume(n) => PeekConsume(n);
        case Reset => Reset();
      }
      ghost var m1, chain1 := pool.mem, chain;
      MovedKeys(m0, m1, chain0, chain1);
      StepAcksGrow(old(View()), requests[0]);
      Handle(requests[1..]);
      MovedTwice(m0, m1, pool.mem, chain0, chain1, chain);
    }

    /** Free a chain that came with an error. */
    method Discard(p: Pbuf?, ghost ts: seq<Pbuf>)
      requires Valid() && Ptr(p) == First(ts) && Separate(pool.mem, chain, ts)
      modifies pool, pool.mem.next.Keys`ref
      ensures Valid() && pool.mem.holders == Delivered(old(pool.mem).holders, chain, ts, chain)
      ensures OthersKept(old(pool.mem), pool.mem, chain, ts)
      ensures pool.mem.next.Keys <= old(pool.mem.next.Keys)
    {
      hide Owns, Separate, Delivered, OthersKept, Sound, PbufPool.Mirrors;
      if p != null {
        ghost var m := pool.mem;
        DeliveredHeld(m, chain, ts);
        var _ := pool.Free(p);
        ChainSurvives(m, pool.mem, chain, ts);
        DiscardKeeps(m, pool.mem, chain, ts);
      } else {
        DeliveredNothing(pool.mem, chain);
        NothingMoved(pool.mem, chain, ts);
      }
    }

    /** Append a delivered chain, or start from it when nothing is queued. */
    method TakeOver(p: Pbuf, ghost ts: seq<Pbuf>)
      requires Valid() && Ptr(p) == First(ts) && Separate(pool.mem, chain, ts)
      modifies this`head, this`offset, this`chain, pool, pool.mem.next.Keys
      ensures Valid() && chain == old(chain) + ts
      ensures At(chain, offset) == Cursor(old(At(chain, offset)).segs + Segs(ts), old(offset))
      ensures pool.mem.holders == Delivered(old(pool.mem).holders, old(chain), ts, chain)
      ensures OthersKept(old(pool.mem), pool.mem, old(chain), ts)
      ensures pool.mem.next.Keys <= old(pool.mem.next.Keys)
    {
      hide Owns, Separate, Delivered, OthersKept, Sound, PbufPool.Mirrors, Appended, IsChain;
      AtConcat(chain, ts, offset);
      UnreadAppend(At(chain, offset), Segs(ts));
      DeliveredHeld(pool.mem, chain, ts);
      if head != null {
        ghost var m := pool.mem;
        pool.Cat(head, p, chain, ts);
        ChainAppended(m, pool.mem, chain, ts);
        AppendKeeps(m, pool.mem, chain, ts);
      } else {
        ChainTaken(pool.mem, ts);
        NothingMoved(pool.mem, chain, ts);
        head, offset := p, 0;
      }
      NotCells();
      chain := chain + ts;
    }
  }

  /** A reference moved on after a delivery. */
  lemma DeliveredMoved(holders: multiset<Pbuf>, m1: Cells, m2: Cells, chain0: seq<Pbuf>, ts: seq<Pbuf>,
                       chain1: seq<Pbuf>, chain2: seq<Pbuf>)
    requires Moved(m1, m2, chain1, chain2) && m1.holders == Delivered(holders, chain0, ts, chain1)
    ensures m2.holders == Delivered(holders, chain0, ts, chain2) && m2.next.Keys <= m1.next.Keys
  {
  }

  lemma MovedAway(m: Cells, m': Cells, chain: seq<Pbuf>)
    requires chain != [] && m'.rank == m.rank && SubLinks(m'.next, m.next)
    requires m'.holders == m.holders - multiset{chain[0]}
    ensures Moved(m, m', chain, []) && Owns(m', [])
  {
  }

  lemma FirstHeld(m: Cells, chain: seq<Pbuf>)
    requires Owns(m, chain) && chain != []
    ensures chain[0] in m.holders
  {
  }

  /** Keep the chain alive through a reference to its second cell while the first one is freed. */
  method KeepNextFreeOld(pool: PbufPool, first: Pbuf, next: Pbuf?, ghost chain: seq<Pbuf>)
    requires pool.Valid() && Owns(pool.mem, chain) && chain != [] && chain[0] == first
    requires Ptr(next) == First(chain[1..])
    modifies pool, pool.mem.next.Keys
    ensures pool.Valid() && Owns(pool.mem, chain[1..]) && Moved(old(pool.mem), pool.mem, chain, chain[1..])
    ensures first in old(pool.mem.ref)
    ensures pool.mem.next.Keys == if old(pool.mem.ref[first]) == 1 then old(pool.mem.next.Keys) - {first}
                                  else old(pool.mem.next.Keys)
  {
    hide Moved, Sound, Owns, SubLinks, Held, PbufPool.Mirrors;
    ghost var m := pool.mem;
    HeadIsLive(m, chain);
    if next != null {
      pool.Ref(next);
    }
    ghost var m1 := pool.mem;
    StillHeld(m, m1, chain);
    var _ := pool.Free(first);
    HandedOver(m, m1, pool.mem, chain);
  }

  lemma StillHeld(m: Cells, m1: Cells, chain: seq<Pbuf>)
    requires Owns(m, chain) && chain != [] && SuccessorHeld(m, m1, chain)
    ensures chain[0] in m1.holders && m1.next == m.next
  {
  }
}
