/** What the writer guarantees across calls: the stream a sender builds, and what is transmitted of it. */
module SendRuns {
  import opened Wrappers
  import opened Sequences
  import opened Lwip
  import opened SendPlan
  import opened TcpWriting

  lemma {:induction false} WireConcat(a: seq<Chunk>, b: seq<Chunk>)
    requires InBounds(a) && InBounds(b)
    ensures InBounds(a + b) && Wire(a + b) == Wire(a) + Wire(b)
    decreases |a|
  {
    hide Wire;
    if a == [] {
      WireNil();
      assert a + b == b;
    } else {
      assert (a + b)[1..] == a[1..] + b;
      WireConcat(a[1..], b);
      WireCons(a[0], a[1..]);
      WireCons(a[0], a[1..] + b);
      assert [a[0]] + a[1..] == a && [a[0]] + (a[1..] + b) == a + b;
    }
  }

  /**
   One call: what it queues stands for a prefix of the request, in order. The call returns the size
   exactly when that prefix is the whole request; it returns 0 exactly when it is a strict prefix,
   which may be non-empty, or when the request is empty.
   */
  lemma CallMeans(data: array<byte>, base: nat, size: nat, space: nat, outcomes: seq<int>)
    requires base + size <= data.Length
    ensures var pieces := Queued(size, space, outcomes);
            && Total(pieces) <= size
            && Tiles(Refs(data, base, pieces), data, base, base + Total(pieces))
            && InBounds(Refs(data, base, pieces))
            && Wire(Refs(data, base, pieces)) == data[base..base + Total(pieces)]
            && Returned(size, space, outcomes) in {0, size}
            && (Returned(size, space, outcomes) == size <==> Total(pieces) == size)
            && (Returned(size, space, outcomes) == 0 <==> size == 0 || Total(pieces) < size)
  {
    QueuedTotal(size, space, outcomes);
    QueuedContiguous(size, space, outcomes);
    RefsTile(data, base, Queued(size, space, outcomes), 0);
    var pieces := Queued(size, space, outcomes);
    WireOfTiles(Refs(data, base, pieces), data, base, base + Total(pieces));
  }

  // ---------------------------------------------------------------- a sender that asks first

  /**
   One round of a sender: ACKs free space before it asks for advice and again before it writes; it wants
   to send at most `want` bytes; and lwIP's answers to the write are fixed.
   */
  datatype Round = Round(freed: nat, want: nat, freedLater: nat, outcomes: seq<int>)

  /** A request of at most the optimal chunk size is queued as a whole or not at all. */
  lemma SingleIsAtomic(size: nat, space: nat, outcomes: seq<int>)
    requires size <= space && size <= TCP_MSS
    ensures Total(Queued(size, space, outcomes)) == Returned(size, space, outcomes)
  {
    PlanLength(size, size, 0);
    PlanTotal(size, size, 0, Accepted(outcomes, |Plan(size, size, 0)|));
  }

  /** One round: the sender offers what it wants, but no more than the writer advises. */
  method OfferOnce(w: TcpWriter, data: array<byte>, sent: nat, r: Round) returns (n: nat)
    requires w.pcb != null && sent <= data.Length
    modifies w.pcb
    ensures sent + n <= data.Length && old(w.pcb.queue) <= w.pcb.queue
    ensures Tiles(w.pcb.queue[|old(w.pcb.queue)|..], data, sent, sent + n)
  {
    hide Queued, Returned, Refs, Tiles, Total, After, Calls;
    ghost var queue := w.pcb.queue;
    w.pcb.sndbuf, w.pcb.outcomes := w.pcb.sndbuf + r.freed, r.outcomes;
    var advice := w.GetOptimalChunkSize(data.Length - sent);
    var offer := Min(r.want, advice);
    w.pcb.sndbuf := w.pcb.sndbuf + r.freedLater;
    ghost var space := w.pcb.sndbuf;
    SingleIsAtomic(offer, space, r.outcomes);
    CallMeans(data, sent, offer, space, r.outcomes);
    n := w.WriteData(data, sent, offer);
    assert w.pcb.queue[|queue|..] == Refs(data, sent, Queued(offer, space, r.outcomes));
  }

  /**
   A sender that never offers more than the optimal chunk size and offers again after a 0: however much it offers,
   whatever the peer acknowledges at any point and lwIP refuses, the stream queued is the prefix of its data whose
   length is the sum of the results. No gap, no duplicate.
   */
  method SendAdvised(w: TcpWriter, data: array<byte>, rounds: seq<Round>) returns (results: seq<nat>)
    requires w.pcb != null
    modifies w.pcb
    ensures |results| == |rounds| && Sum(results) <= data.Length && old(w.pcb.queue) <= w.pcb.queue
    ensures var stream := w.pcb.queue[|old(w.pcb.queue)|..];
            InBounds(stream) && Wire(stream) == data[..Sum(results)]
  {
    hide Tiles, Wire, InBounds;
    results := [];
    var sent := 0;
    ghost var queue := w.pcb.queue;
    TilesNothing(data, 0);
    assert w.pcb.queue[|queue|..] == [];
    for i := 0 to |rounds|
      invariant |results| == i && sent == Sum(results) <= data.Length && queue <= w.pcb.queue
      invariant Tiles(w.pcb.queue[|queue|..], data, 0, sent)
    {
      ghost var before := w.pcb.queue;
      var n := OfferOnce(w, data, sent, rounds[i]);
      assert w.pcb.queue[|queue|..] == before[|queue|..] + w.pcb.queue[|before|..];
      TilesConcat(before[|queue|..], w.pcb.queue[|before|..], data, 0, sent, sent + n);
      SumConcat(results, [n]);
      assert [n][1..] == [];
      sent, results := sent + n, results + [n];
    }
    WireOfTiles(w.pcb.queue[|queue|..], data, 0, sent);
  }

  lemma TilesNothing(data: array<byte>, from: nat)
    ensures Tiles([], data, from, from)
  {
  }

  // ---------------------------------------------------------------- a sender that offers everything

  /** Two bytes, one byte of space: the call returns 0 and yet one byte stays queued. */
  lemma RejectionLeavesPrefix()
    ensures Returned(2, 1, []) == 0 && Total(Queued(2, 1, [])) == 1
  {
    QueuedTotal(2, 1, []);
  }

  /** What the writer advises for the request is nothing, or the whole request. */
  predicate AdviceIsAllOrNothing(size: nat, space: nat) {
    Advice(size, space) in {0, size}
  }

  /** Answers of lwIP with which a rejected call leaves a prefix behind, if any do. */
  function LeavesPrefix(size: nat, space: nat): seq<int> {
    if space < size then [] else [ERR_OK, -1]
  }

  lemma LeavesPrefixWitness(size: nat, space: nat)
    requires 0 < size && !AdviceIsAllOrNothing(size, space)
    ensures Returned(size, space, LeavesPrefix(size, space)) == 0
    ensures 0 < Total(Queued(size, space, LeavesPrefix(size, space)))
  {
    var outcomes := LeavesPrefix(size, space);
    NothingQueuedIff(size, space, outcomes);
    if space < size {
      QueuedTotal(size, space, outcomes);
    } else {
      var n := |Plan(size, size, 0)|;
      PlanLength(size, size, 0);
      assert n >= 2;
      AcceptedStep(outcomes, n);
      AcceptedStep([-1], n - 1);
      PlanTotal(size, size, 0, 1);
    }
  }

  /**
   When a call that returns 0 can be trusted to have queued nothing, whatever lwIP answered: exactly when
   getOptimalChunkSize(size) was 0 or size before the call.
   */
  lemma RejectionCleanIff(size: nat, space: nat)
    requires 0 < size
    ensures (forall outcomes :: Returned(size, space, outcomes) == 0 ==> Total(Queued(size, space, outcomes)) == 0)
            <==> AdviceIsAllOrNothing(size, space)
  {
    if AdviceIsAllOrNothing(size, space) {
      forall outcomes | Returned(size, space, outcomes) == 0
        ensures Total(Queued(size, space, outcomes)) == 0
      {
        if space == 0 {
          NothingQueuedIff(size, space, outcomes);
        } else {
          SingleIsAtomic(size, space, outcomes);
        }
      }
    } else {
      LeavesPrefixWitness(size, space);
    }
  }

  /** One call with the whole request: the space it finds, and lwIP's answers. */
  datatype Try = Try(space: nat, outcomes: seq<int>)

  /** Everything the calls queue. */
  ghost function Sent(data: array<byte>, base: nat, size: nat, tries: seq<Try>): seq<Chunk> {
    if tries == [] then []
    else Refs(data, base, Queued(size, tries[0].space, tries[0].outcomes)) + Sent(data, base, size, tries[1..])
  }

  /** A queue stands for the request, once. */
  ghost predicate SendsOnce(q: seq<Chunk>, data: array<byte>, base: nat, size: nat)
    requires base + size <= data.Length
    reads data, set c | c in q :: c.src
  {
    InBounds(q) && Wire(q) == data[base..base + size]
  }

  /** Calls leave bytes on the wire exactly when one of them queues some. */
  lemma {:induction false} SentNothingIff(data: array<byte>, base: nat, size: nat, tries: seq<Try>)
    requires base + size <= data.Length
    ensures InBounds(Sent(data, base, size, tries))
    ensures Wire(Sent(data, base, size, tries)) == [] <==>
            forall t | t in tries :: Total(Queued(size, t.space, t.outcomes)) == 0
    decreases |tries|
  {
    hide Queued, Refs, Tiles, Total, Wire, InBounds;
    if tries == [] {
      WireNil();
    } else {
      var t := tries[0];
      CallMeans(data, base, size, t.space, t.outcomes);
      SentNothingIff(data, base, size, tries[1..]);
      WireConcat(Refs(data, base, Queued(size, t.space, t.outcomes)), Sent(data, base, size, tries[1..]));
      assert forall u | u in tries :: u == t || u in tries[1..];
      assert t in tries && forall u | u in tries[1..] :: u in tries;
    }
  }

  lemma SentOne(data: array<byte>, base: nat, size: nat, t: Try)
    ensures Sent(data, base, size, [t]) == Refs(data, base, Queued(size, t.space, t.outcomes))
  {
    assert [t][1..] == [];
  }

  /** After rejected calls, one that succeeds: the request is queued once exactly if they left nothing. */
  lemma RetriedOnce(data: array<byte>, base: nat, size: nat, tries: seq<Try>, last: Try)
    requires 0 < size && base + size <= data.Length && Returned(size, last.space, last.outcomes) == size
    ensures SendsOnce(Sent(data, base, size, tries) + Sent(data, base, size, [last]), data, base, size) <==>
            forall t | t in tries :: Total(Queued(size, t.space, t.outcomes)) == 0
  {
    hide Queued, Returned, Refs, Tiles, Total, Wire, InBounds;
    var before, more := Sent(data, base, size, tries), Sent(data, base, size, [last]);
    SentOne(data, base, size, last);
    CallMeans(data, base, size, last.space, last.outcomes);
    SentNothingIff(data, base, size, tries);
    WireConcat(before, more);
    if Wire(before) == [] {
      assert [] + Wire(more) == Wire(more);
    } else {
      assert |Wire(before) + Wire(more)| > size;
    }
  }

  /** The calls found these spaces and returned 0. */
  ghost predicate RejectedAt(size: nat, spaces: seq<nat>, tries: seq<Try>) {
    && |tries| == |spaces|
    && forall i | 0 <= i < |tries| ::
         tries[i].space == spaces[i] && Returned(size, tries[i].space, tries[i].outcomes) == 0
  }

  predicate Succeeds(size: nat, t: Try) {
    Returned(size, t.space, t.outcomes) == size
  }

  /** Rejected calls of which the k-th leaves a prefix behind and the others are refused at once. */
  lemma PrefixLeft(size: nat, spaces: seq<nat>, k: nat) returns (tries: seq<Try>)
    requires 0 < size && k < |spaces| && !AdviceIsAllOrNothing(size, spaces[k])
    ensures RejectedAt(size, spaces, tries) && 0 < Total(Queued(size, tries[k].space, tries[k].outcomes))
  {
    hide Queued, Total;
    LeavesPrefixWitness(size, spaces[k]);
    tries := seq(|spaces|, i requires 0 <= i < |spaces| =>
      Try(spaces[i], if i == k then LeavesPrefix(size, spaces[k]) else [-1]));
    forall i | 0 <= i < |spaces| && i != k
      ensures Returned(size, spaces[i], [-1]) == 0
    {
      NothingQueuedIff(size, spaces[i], [-1]);
    }
  }

  /**
   A sender that offers everything and repeats the whole request after each 0, until a call succeeds. However lwIP
   answers, the request is queued exactly once if and only if at each rejected call getOptimalChunkSize(size)
   was 0 or size; otherwise a prefix can be sent twice.
   */
  lemma RetryWholeFaithfulIff(data: array<byte>, base: nat, size: nat, spaces: seq<nat>)
    requires 0 < size && base + size <= data.Length
    ensures (forall tries: seq<Try>, last: Try | RejectedAt(size, spaces, tries) && Succeeds(size, last) ::
               SendsOnce(Sent(data, base, size, tries) + Sent(data, base, size, [last]), data, base, size))
            <==> forall i | 0 <= i < |spaces| :: AdviceIsAllOrNothing(size, spaces[i])
  {
    hide Queued, Returned, Total, SendsOnce;
    if forall i | 0 <= i < |spaces| :: AdviceIsAllOrNothing(size, spaces[i]) {
      forall tries: seq<Try>, last: Try | RejectedAt(size, spaces, tries) && Succeeds(size, last)
        ensures SendsOnce(Sent(data, base, size, tries) + Sent(data, base, size, [last]), data, base, size)
      {
        forall i | 0 <= i < |tries|
          ensures Total(Queued(size, tries[i].space, tries[i].outcomes)) == 0
        {
          RejectionCleanIff(size, spaces[i]);
        }
        RetriedOnce(data, base, size, tries, last);
      }
    } else {
      var k :| 0 <= k < |spaces| && !AdviceIsAllOrNothing(size, spaces[k]);
      var tries := PrefixLeft(size, spaces, k);
      var last := Try(size, []);
      QueuedTotal(size, size, []);
      assert tries[k] in tries;
      RetriedOnce(data, base, size, tries, last);
      assert RejectedAt(size, spaces, tries) && Succeeds(size, last);
    }
  }
}
