/** How a request is cut into pieces, and what becomes of it when lwIP refuses one. */
module SendPlan {
  import opened Wrappers
  import opened Lwip

  /** The maximum segment size the library falls back to (include/TcpClient.hpp:44). */
  const TCP_MSS: nat := 1460

  datatype Piece = Piece(start: nat, len: nat, more: bool)

  /** The pieces that cover the positions from `from` up to `limit` of a request of `size` bytes. */
  function Plan(size: nat, limit: nat, from: nat): seq<Piece>
    requires from <= limit
    decreases limit - from
  {
    if from == limit then []
    else
      var len := Min(TCP_MSS, limit - from);
      [Piece(from, len, from + len < size)] + Plan(size, limit, from + len)
  }

  /** How many of the next `n` calls of tcp_write succeed before one fails. */
  function Accepted(outcomes: seq<int>, n: nat): (k: nat)
    ensures k <= n
  {
    if n == 0 || Verdict(outcomes) != ERR_OK then 0 else 1 + Accepted(Later(outcomes), n - 1)
  }

  function Total(pieces: seq<Piece>): nat {
    if pieces == [] then 0 else pieces[0].len + Total(pieces[1..])
  }

  /** The pieces of a request that end up queued, given the free space and lwIP's answers. */
  function Queued(size: nat, space: nat, outcomes: seq<int>): seq<Piece> {
    var plan := Plan(size, Min(size, space), 0);
    plan[..Accepted(outcomes, |plan|)]
  }

  /** What the call that offered the request returns: all of it or 0. */
  function Returned(size: nat, space: nat, outcomes: seq<int>): nat {
    if Total(Queued(size, space, outcomes)) == size then size else 0
  }

  /** How many calls of tcp_write the request takes, the refused one included. */
  function Calls(size: nat, space: nat, outcomes: seq<int>): nat {
    var n := |Plan(size, Min(size, space), 0)|;
    Min(n, Accepted(outcomes, n) + 1)
  }

  /** lwIP's coming answers after `n` calls. */
  function After(outcomes: seq<int>, n: nat): seq<int> {
    outcomes[Min(n, |outcomes|)..]
  }

  /** The writer's advice for a request: the size that is sure to be queued as one piece, if lwIP accepts it. */
  function Advice(dataSize: nat, space: nat): (n: nat)
    ensures n <= dataSize && n <= space && n <= 1460
    ensures n == dataSize || n == space || n == 1460
  {
    Min(Min(dataSize, space), TCP_MSS)
  }

  // ---------------------------------------------------------------- closed form

  /** The plan is the division by the maximum segment size: full pieces, then the remainder. */
  lemma {:induction false} PlanAt(size: nat, limit: nat, from: nat, i: nat)
    requires from <= limit && i < |Plan(size, limit, from)|
    ensures var p := Plan(size, limit, from)[i];
            && p.start == from + i * 1460 && p.start < limit
            && p.len == Min(1460, limit - p.start)
            && (p.more <==> p.start + p.len < size)
    decreases limit - from
  {
    var len := Min(TCP_MSS, limit - from);
    if i > 0 {
      PlanAt(size, limit, from + len, i - 1);
    }
  }

  lemma {:induction false} PlanLength(size: nat, limit: nat, from: nat)
    requires from <= limit
    ensures |Plan(size, limit, from)| == (limit - from + TCP_MSS - 1) / TCP_MSS
    decreases limit - from
  {
    if from < limit {
      var len := Min(TCP_MSS, limit - from);
      PlanLength(size, limit, from + len);
    }
  }

  /** The first `k` pieces cover a prefix without gap; short of the whole plan it is a strict prefix. */
  lemma {:induction false} PlanTotal(size: nat, limit: nat, from: nat, k: nat)
    requires from <= limit && k <= |Plan(size, limit, from)|
    ensures from + Total(Plan(size, limit, from)[..k]) <= limit
    ensures from + Total(Plan(size, limit, from)[..k]) == limit <==> k == |Plan(size, limit, from)|
    decreases limit - from
  {
    var plan := Plan(size, limit, from);
    if k > 0 {
      var len := Min(TCP_MSS, limit - from);
      assert plan[1..] == Plan(size, limit, from + len);
      assert plan[..k][1..] == plan[1..][..k - 1];
      PlanTotal(size, limit, from + len, k - 1);
    }
  }

  lemma {:induction false} AcceptedAll(outcomes: seq<int>, n: nat)
    requires forall i | 0 <= i < |outcomes| && i < n :: outcomes[i] == ERR_OK
    ensures Accepted(outcomes, n) == n
    decreases n
  {
    if n > 0 { AcceptedAll(Later(outcomes), n - 1); }
  }

  /**
   A request is fully queued or a strict prefix of it is. If lwIP refuses no piece it is fully queued
   exactly when it fits the free space; otherwise exactly the free space is used.
   */
  lemma QueuedTotal(size: nat, space: nat, outcomes: seq<int>)
    ensures Total(Queued(size, space, outcomes)) <= size && Total(Queued(size, space, outcomes)) <= space
    ensures (forall o | o in outcomes :: o == ERR_OK) ==>
              && Total(Queued(size, space, outcomes)) == Min(size, space)
              && (Returned(size, space, outcomes) == size <==> size <= space)
  {
    var limit := Min(size, space);
    var plan := Plan(size, limit, 0);
    assert plan[..|plan|] == plan;
    PlanTotal(size, limit, 0, Accepted(outcomes, |plan|));
    if forall o | o in outcomes :: o == ERR_OK {
      assert forall i | 0 <= i < |outcomes| :: outcomes[i] in outcomes;
      AcceptedAll(outcomes, |plan|);
    }
  }

  /**
   MORE flags and number of pieces: a request that is fully queued takes as many pieces as full
   segments, rounded up, and only its last piece lacks MORE; of a rejected request every queued
   piece carries MORE.
   */
  lemma QueuedFlags(size: nat, space: nat, outcomes: seq<int>, i: nat)
    requires i < |Queued(size, space, outcomes)|
    ensures var q := Queued(size, space, outcomes);
            && (Total(q) == size ==> |q| == (size + 1459) / 1460 && (q[i].more <==> i < |q| - 1))
            && (Total(q) < size ==> q[i].more)
            && q[i].len <= 1460
  {
    var limit := Min(size, space);
    var plan := Plan(size, limit, 0);
    var k := Accepted(outcomes, |plan|);
    PlanTotal(size, limit, 0, k);
    PlanAt(size, limit, 0, i);
    PlanLength(size, limit, 0);
    if i < |plan| - 1 { PlanAt(size, limit, 0, i + 1); }
    if i < k - 1 { PlanAt(size, limit, 0, i + 1); }
    if Total(plan[..k]) < size { QueuedEnd(size, limit, k, i); }
  }

  /** The end of a queued piece is inside what is queued. */
  lemma {:induction false} QueuedEnd(size: nat, limit: nat, k: nat, i: nat)
    requires k <= |Plan(size, limit, 0)| && i < k
    ensures Plan(size, limit, 0)[i].start + Plan(size, limit, 0)[i].len <= Total(Plan(size, limit, 0)[..k])
  {
    PlanEnd(size, limit, 0, k, i);
  }

  lemma {:induction false} PlanEnd(size: nat, limit: nat, from: nat, k: nat, i: nat)
    requires from <= limit && k <= |Plan(size, limit, from)| && i < k
    ensures var plan := Plan(size, limit, from);
            plan[i].start + plan[i].len <= from + Total(plan[..k])
    decreases limit - from
  {
    var plan := Plan(size, limit, from);
    var len := Min(TCP_MSS, limit - from);
    assert plan[1..] == Plan(size, limit, from + len);
    assert plan[..k][1..] == plan[1..][..k - 1];
    if i > 0 {
      PlanEnd(size, limit, from + len, k - 1, i - 1);
    }
  }

  /** Nothing of a request is queued exactly when it is empty, there is no space, or lwIP refuses at once. */
  lemma NothingQueuedIff(size: nat, space: nat, outcomes: seq<int>)
    ensures Total(Queued(size, space, outcomes)) == 0 <==> size == 0 || space == 0 || Verdict(outcomes) != ERR_OK
  {
    var limit := Min(size, space);
    var plan := Plan(size, limit, 0);
    var k := Accepted(outcomes, |plan|);
    if k > 0 { PlanEnd(size, limit, 0, k, 0); }
  }

  lemma {:induction false} TotalConcat(a: seq<Piece>, b: seq<Piece>)
    ensures Total(a + b) == Total(a) + Total(b)
  {
    if a == [] {
      assert a + b == b;
    } else {
      TotalConcat(a[1..], b);
      assert (a + b)[1..] == a[1..] + b;
    }
  }

  /** One round of the writer's loop, against the plan it follows. */
  lemma PlanStep(size: nat, limit: nat, plan: seq<Piece>, j: nat, total: nat)
    requires j <= |plan| && total < limit && plan[j..] == Plan(size, limit, total)
    ensures var len := Min(TCP_MSS, limit - total);
            && j < |plan| && plan[j] == Piece(total, len, total + len < size)
            && plan[..j + 1] == plan[..j] + [plan[j]]
            && plan[j + 1..] == Plan(size, limit, total + len)
            && Total(plan[..j + 1]) == Total(plan[..j]) + len
  {
    assert plan[j] == plan[j..][0];
    assert plan[j + 1..] == plan[j..][1..];
    assert plan[..j + 1] == plan[..j] + [plan[j]];
    TotalConcat(plan[..j], [plan[j]]);
    assert [plan[j]][1..] == [];
  }

  /** Pieces that follow each other without gap or overlap, starting at `from`. */
  predicate Contiguous(pieces: seq<Piece>, from: nat) {
    pieces == [] || (pieces[0].start == from && Contiguous(pieces[1..], from + pieces[0].len))
  }

  lemma {:induction false} PlanContiguous(size: nat, limit: nat, from: nat, k: nat)
    requires from <= limit && k <= |Plan(size, limit, from)|
    ensures Contiguous(Plan(size, limit, from)[..k], from)
    decreases limit - from
  {
    var plan := Plan(size, limit, from);
    if k > 0 {
      var len := Min(TCP_MSS, limit - from);
      assert plan[1..] == Plan(size, limit, from + len);
      assert plan[..k][1..] == plan[1..][..k - 1];
      PlanContiguous(size, limit, from + len, k - 1);
    }
  }

  lemma QueuedContiguous(size: nat, space: nat, outcomes: seq<int>)
    ensures Contiguous(Queued(size, space, outcomes), 0)
  {
    var limit := Min(size, space);
    PlanContiguous(size, limit, 0, Accepted(outcomes, |Plan(size, limit, 0)|));
  }

  lemma PlanDone(size: nat, limit: nat, plan: seq<Piece>, j: nat, total: nat)
    requires j <= |plan| && total <= limit && plan[j..] == Plan(size, limit, total)
    ensures total == limit <==> j == |plan|
  {
  }

  lemma AcceptedStep(outcomes: seq<int>, n: nat)
    requires 0 < n
    ensures Accepted(outcomes, n) == if Verdict(outcomes) != ERR_OK then 0 else 1 + Accepted(Later(outcomes), n - 1)
  {
  }
}
