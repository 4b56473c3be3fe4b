/** The writer: it cuts a request into pieces and queues them by reference to the caller's memory. */
module TcpWriting {
  import opened Wrappers
  import opened Lwip
  import opened SendPlan

  // ---------------------------------------------------------------- what a queue transmits

  ghost predicate InBounds(q: seq<Chunk>) {
    forall c | c in q :: c.start + c.len <= c.src.Length
  }

  /** The bytes a queue stands for, read from the callers' memory when they are transmitted. */
  ghost function Wire(q: seq<Chunk>): seq<byte>
    requires InBounds(q)
    reads set c | c in q :: c.src
  {
    if q == [] then [] else q[0].src[q[0].start..q[0].start + q[0].len] + Wire(q[1..])
  }

  /** The references queued for pieces of the memory at `data[base..]`. */
  ghost function Refs(data: array<byte>, base: nat, pieces: seq<Piece>): seq<Chunk> {
    if pieces == [] then []
    else [Chunk(data, base + pieces[0].start, pieces[0].len, pieces[0].more)] + Refs(data, base, pieces[1..])
  }

  lemma {:induction false} RefsConcat(data: array<byte>, base: nat, a: seq<Piece>, b: seq<Piece>)
    ensures Refs(data, base, a + b) == Refs(data, base, a) + Refs(data, base, b)
  {
    if a == [] {
      assert a + b == b;
    } else {
      RefsConcat(data, base, a[1..], b);
      assert (a + b)[0] == a[0] && (a + b)[1..] == a[1..] + b;
    }
  }

  lemma WireCons(c: Chunk, q: seq<Chunk>)
    requires c.start + c.len <= c.src.Length && InBounds(q)
    ensures InBounds([c] + q) && Wire([c] + q) == c.src[c.start..c.start + c.len] + Wire(q)
  {
    assert ([c] + q)[1..] == q;
  }

  lemma WireNil()
    ensures InBounds([]) && Wire([]) == []
  {
  }

  lemma Adjacent(data: array<byte>, a: nat, b: nat, c: nat)
    requires a <= b <= c <= data.Length
    ensures data[a..b] + data[b..c] == data[a..c]
  {
  }

  lemma EmptyRequest(data: array<byte>, base: nat, space: nat, outcomes: seq<int>, queue: seq<Chunk>)
    ensures Queued(0, space, outcomes) == [] && Total([]) == 0 && Returned(0, space, outcomes) == 0
    ensures Calls(0, space, outcomes) == 0 && After(outcomes, 0) == outcomes
    ensures queue + Refs(data, base, []) == queue
  {
  }

  lemma RefsSnoc(data: array<byte>, base: nat, a: seq<Piece>, p: Piece)
    ensures Refs(data, base, a + [p]) == Refs(data, base, a) + [Chunk(data, base + p.start, p.len, p.more)]
  {
    RefsConcat(data, base, a, [p]);
    assert [p][1..] == [];
  }

  /** The chunks of `q` cover the cells of `data` from `from` up to `to`, in order, without gap or overlap. */
  ghost predicate Tiles(q: seq<Chunk>, data: array<byte>, from: nat, to: nat) {
    if q == [] then from == to
    else q[0].src == data && q[0].start == from && Tiles(q[1..], data, from + q[0].len, to)
  }

  lemma {:induction false} TilesConcat(a: seq<Chunk>, b: seq<Chunk>, data: array<byte>, from: nat, mid: nat, to: nat)
    requires Tiles(a, data, from, mid) && Tiles(b, data, mid, to)
    ensures Tiles(a + b, data, from, to)
    decreases |a|
  {
    if a == [] {
      assert a + b == b;
    } else {
      TilesConcat(a[1..], b, data, from + a[0].len, mid, to);
      assert (a + b)[0] == a[0] && (a + b)[1..] == a[1..] + b;
    }
  }

  /** The references of contiguous pieces tile the memory they were made from. */
  lemma {:induction false} RefsTile(data: array<byte>, base: nat, pieces: seq<Piece>, from: nat)
    requires Contiguous(pieces, from)
    ensures Tiles(Refs(data, base, pieces), data, base + from, base + from + Total(pieces))
    decreases |pieces|
  {
    if pieces != [] {
      RefsTile(data, base, pieces[1..], from + pieces[0].len);
      assert Refs(data, base, pieces)[1..] == Refs(data, base, pieces[1..]);
    }
  }

  /**
   Zero-copy sending is faithful: in every state of the memory, chunks that tile some cells stand for
   the current contents of those cells. So what is transmitted is the data given to the writer exactly
   when the cells still hold it.
   */
  lemma {:induction false} WireOfTiles(q: seq<Chunk>, data: array<byte>, from: nat, to: nat)
    requires Tiles(q, data, from, to) && to <= data.Length
    ensures from <= to && InBounds(q) && Wire(q) == data[from..to]
    decreases |q|
  {
    hide InBounds, Wire;
    if q == [] {
      WireNil();
    } else {
      WireOfTiles(q[1..], data, from + q[0].len, to);
      assert [q[0]] + q[1..] == q;
      WireCons(q[0], q[1..]);
      Adjacent(data, from, from + q[0].len, to);
    }
  }

  // ---------------------------------------------------------------- following the plan

  /** The part of a PCB that queueing changes. */
  datatype Send = Send(queue: seq<Chunk>, space: nat, outcomes: seq<int>)

  /** After `j` pieces, `total` bytes of the request have been queued as planned. */
  ghost predicate Following(data: array<byte>, base: nat, size: nat, start: Send, j: nat, total: nat, now: Send) {
    var limit := Min(size, start.space);
    var plan := Plan(size, limit, 0);
    && j <= |plan| && total == Total(plan[..j]) <= limit
    && plan[j..] == Plan(size, limit, total)
    && j + Accepted(now.outcomes, |plan| - j) == Accepted(start.outcomes, |plan|)
    && now.queue == start.queue + Refs(data, base, plan[..j])
    && now.space == start.space - total
    && now.outcomes == After(start.outcomes, j)
  }

  /** The request has been dealt with: what is queued is what the plan says. */
  ghost predicate Ended(data: array<byte>, base: nat, size: nat, start: Send, now: Send, result: nat) {
    var pieces := Queued(size, start.space, start.outcomes);
    && result == Returned(size, start.space, start.outcomes)
    && now.queue == start.queue + Refs(data, base, pieces)
    && now.space == start.space - Total(pieces)
    && now.outcomes == After(start.outcomes, Calls(size, start.space, start.outcomes))
  }

  lemma FollowingStarts(data: array<byte>, base: nat, size: nat, start: Send)
    ensures Following(data, base, size, start, 0, 0, start)
  {
    var plan := Plan(size, Min(size, start.space), 0);
    assert plan[..0] == [] && plan[0..] == plan;
  }

  lemma FollowingBounds(data: array<byte>, base: nat, size: nat, start: Send, j: nat, total: nat, now: Send)
    requires Following(data, base, size, start, j, total, now)
    ensures total <= size && total <= start.space && now.space == start.space - total
  {
  }

  /** A piece lwIP accepted is the next piece of the plan. */
  lemma FollowingStep(data: array<byte>, base: nat, size: nat, start: Send, j: nat, total: nat, now: Send)
    requires Following(data, base, size, start, j, total, now) && total < size && 0 < now.space
    requires Verdict(now.outcomes) == ERR_OK
    ensures var len := Min(Min(size - total, now.space), TCP_MSS);
            var chunk := Chunk(data, base + total, len, total + len < size);
            Following(data, base, size, start, j + 1, total + len,
                      Send(now.queue + [chunk], now.space - len, Later(now.outcomes)))
  {
    hide Refs, Total, Accepted, After, Plan;
    var limit := Min(size, start.space);
    var plan := Plan(size, limit, 0);
    PlanDone(size, limit, plan, j, total);
    PlanStep(size, limit, plan, j, total);
    RefsSnoc(data, base, plan[..j], plan[j]);
    AcceptedStep(now.outcomes, |plan| - j);
    AfterStep(start.outcomes, j);
  }

  lemma AfterStep(outcomes: seq<int>, j: nat)
    ensures Later(After(outcomes, j)) == After(outcomes, j + 1)
  {
  }

  lemma AllQueued(data: array<byte>, base: nat, size: nat, start: Send, j: nat, total: nat, now: Send)
    requires Following(data, base, size, start, j, total, now) && size <= total
    ensures Ended(data, base, size, start, now, total)
  {
    var plan := Plan(size, Min(size, start.space), 0);
    PlanDone(size, Min(size, start.space), plan, j, total);
    assert plan[..j] == plan;
  }

  lemma RejectedForSpace(data: array<byte>, base: nat, size: nat, start: Send, j: nat, total: nat, now: Send)
    requires Following(data, base, size, start, j, total, now) && total < size && now.space == 0
    ensures Ended(data, base, size, start, now, 0)
  {
    var plan := Plan(size, Min(size, start.space), 0);
    PlanDone(size, Min(size, start.space), plan, j, total);
    assert plan[..j] == plan;
  }

  lemma RejectedByLwip(data: array<byte>, base: nat, size: nat, start: Send, j: nat, total: nat, now: Send)
    requires Following(data, base, size, start, j, total, now) && total < size && 0 < now.space
    requires Verdict(now.outcomes) != ERR_OK
    ensures Ended(data, base, size, start, now.(outcomes := Later(now.outcomes)), 0)
  {
    var plan := Plan(size, Min(size, start.space), 0);
    PlanDone(size, Min(size, start.space), plan, j, total);
    AcceptedStep(now.outcomes, |plan| - j);
    AfterStep(start.outcomes, j);
  }

  // ---------------------------------------------------------------- the writer object

  class TcpWriter {
    var pcb: Pcb?

    constructor (pcb: Pcb?)
      ensures this.pcb == pcb
    {
      this.pcb := pcb;
    }

    /** The PCB that the writer follows. */
    ghost function Own(): set<Pcb>
      reads this
    {
      if pcb == null then {} else {pcb}
    }

    ghost function Space(): nat
      reads this, pcb
    {
      if pcb == null then 0 else pcb.sndbuf
    }

    /** The free space of the send buffer: it is read through the PCB pointer. */
    method AvailableForWrite() returns (n: nat)
      modifies Own()`misused
      ensures n == Space()
      ensures pcb != null ==> pcb.View() == Used(old(pcb.View()))
    {
      n := 0;
      if pcb != null {
        pcb.Touch();
        n := pcb.sndbuf;
      }
    }

    method GetOptimalChunkSize(dataSize: nat) returns (n: nat)
      modifies Own()`misused
      ensures n == Advice(dataSize, Space())
      ensures pcb != null ==> pcb.View() == Used(old(pcb.View()))
    {
      var free := AvailableForWrite();
      n := Advice(dataSize, free);
    }

    /** Whether there is any advice but 0 for a request that is not empty. */
    method CanWriteNow() returns (b: bool)
      modifies Own()`misused
      ensures b <==> forall size: nat | 0 < size :: 0 < Advice(size, Space())
      ensures pcb != null ==> pcb.View() == Used(old(pcb.View()))
    {
      var free := AvailableForWrite();
      assert free == 0 ==> Advice(1, Space()) == 0;
      b := free > 0;
    }

    /**
     Queue `size` bytes of `data` from `base`. The pieces queued, the space used and the answers of lwIP
     consumed are exactly those of the plan; the result is all or nothing although nothing that was
     queued is taken back. The PCB is followed exactly when there is something to send.
     */
    method WriteData(data: array?<byte>, base: nat, size: nat) returns (n: nat)
      requires data != null ==> base + size <= data.Length
      modifies pcb
      ensures pcb == null || data == null ==> n == 0
      ensures pcb != null ==> pcb.recved == old(pcb.recved) && pcb.state == old(pcb.state)
      ensures pcb != null ==>
                pcb.View() == if data == null || size == 0 then old(pcb.View()) else Used(old(pcb.View()))
      ensures pcb != null && data == null ==> unchanged(pcb)
      ensures pcb != null && data != null ==>
                var pieces := Queued(size, old(pcb.sndbuf), old(pcb.outcomes));
                && n == Returned(size, old(pcb.sndbuf), old(pcb.outcomes))
                && pcb.queue == old(pcb.queue) + Refs(data, base, pieces)
                && pcb.sndbuf == old(pcb.sndbuf) - Total(pieces)
                && pcb.outcomes == After(old(pcb.outcomes), Calls(size, old(pcb.sndbuf), old(pcb.outcomes)))
                && pcb.outputs == old(pcb.outputs) + if n > 0 then 1 else 0
    {
      if pcb == null || data == null || size == 0 {
        if pcb != null && data != null { EmptyRequest(data, base, pcb.sndbuf, pcb.outcomes, pcb.queue); }
        return 0;
      }
      hide Plan, Refs, Accepted, Total, After, Calls;
      var total := QueuePieces(data, base, size);
      if total > 0 {
        pcb.TcpOutput();
      }
      n := total;
    }

    /** The chunking loop. */
    method QueuePieces(data: array<byte>, base: nat, size: nat) returns (total: nat)
      requires pcb != null && 0 < size && base + size <= data.Length
      modifies pcb`sndbuf, pcb`queue, pcb`outcomes, pcb`misused
      ensures Ended(data, base, size, old(Send(pcb.queue, pcb.sndbuf, pcb.outcomes)),
                    Send(pcb.queue, pcb.sndbuf, pcb.outcomes), total)
      ensures pcb.View() == Used(old(pcb.View()))
    {
      hide Following, Ended;
      total := 0;
      ghost var start := Send(pcb.queue, pcb.sndbuf, pcb.outcomes);
      ghost var j := 0;
      FollowingStarts(data, base, size, start);
      while total < size
        invariant Following(data, base, size, start, j, total, Send(pcb.queue, pcb.sndbuf, pcb.outcomes))
        invariant pcb.View() == if total > 0 then Used(old(pcb.View())) else old(pcb.View())
        decreases size - total
      {
        ghost var now := Send(pcb.queue, pcb.sndbuf, pcb.outcomes);
        FollowingBounds(data, base, size, start, j, total, now);
        var remaining := size - total;
        var chunkSize := GetOptimalChunkSize(remaining);
        if chunkSize == 0 {
          RejectedForSpace(data, base, size, start, j, total, now);
          return 0;
        }
        var more := total + chunkSize < size;
        var err := pcb.TcpWrite(data, base + total, chunkSize, more);
        if err != ERR_OK {
          RejectedByLwip(data, base, size, start, j, total, now);
          return 0;
        }
        FollowingStep(data, base, size, start, j, total, now);
        total := total + chunkSize;
        j := j + 1;
      }
      AllQueued(data, base, size, start, j, total, Send(pcb.queue, pcb.sndbuf, pcb.outcomes));
    }
  }
}
