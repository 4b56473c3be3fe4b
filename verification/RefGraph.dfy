/**
 Reference counting over singly linked cells, as a theory of finite maps.

 `next` maps every live cell to its successor, `ref` to its reference count, and `holders` is the
 multiset of references held from outside (the receive buffer, lwIP, the application).
 A state is exact when every count is the number of live predecessors plus the outside holders.
 */
module RefGraph {
  import opened Wrappers

  /** Links stay inside the live cells and go strictly down in rank, so there is no cycle. */
  ghost predicate Ranked<P>(next: map<P, Option<P>>, rank: map<P, nat>) {
    && next.Keys <= rank.Keys
    && forall p {:trigger Descends(next, rank, p)} | p in next :: Descends(next, rank, p)
  }

  ghost predicate Descends<P>(next: map<P, Option<P>>, rank: map<P, nat>, p: P)
    requires p in next && next.Keys <= rank.Keys
  {
    next[p].Some? ==> next[p].value in next && rank[next[p].value] < rank[p]
  }

  /** The live cells whose link points at `p`. */
  ghost function Preds<P>(next: map<P, Option<P>>, p: P): set<P> {
    set q | q in next && next[q] == Some(p)
  }

  /** The count of `p` is its live predecessors plus its outside holders, and it is not zero. */
  ghost predicate Counted<P>(next: map<P, Option<P>>, ref: map<P, nat>, holders: multiset<P>, p: P)
    requires p in next && p in ref
  {
    && 0 < ref[p] == |Preds(next, p)| + holders[p]
    && (next[p].Some? ==> next[p].value in next)
  }

  ghost predicate Exact<P>(next: map<P, Option<P>>, ref: map<P, nat>, holders: multiset<P>) {
    && ref.Keys == next.Keys
    && (forall p | p in holders :: p in next)
    && (forall p {:trigger Counted(next, ref, holders, p)} | p in next :: Counted(next, ref, holders, p))
  }

  /** The reference carried by a possibly null pointer. */
  ghost function Token<P>(p: Option<P>): multiset<P> {
    if p.Some? then multiset{p.value} else multiset{}
  }

  /** `small` keeps some of the cells of `big`, with their links. */
  ghost predicate SubLinks<P>(small: map<P, Option<P>>, big: map<P, Option<P>>) {
    forall p | p in small :: p in big && small[p] == big[p]
  }

  /** The cells met when following links from `from`. */
  ghost function Walk<P>(next: map<P, Option<P>>, rank: map<P, nat>, from: Option<P>): seq<P>
    requires Ranked(next, rank)
    requires from.Some? ==> from.value in next
    decreases if from.Some? then rank[from.value] + 1 else 0
  {
    if from.None? then [] else
      assert Descends(next, rank, from.value);
      [from.value] + Walk(next, rank, next[from.value])
  }

  /** Following links from `from` meets `p`. */
  ghost predicate Reaches<P>(next: map<P, Option<P>>, rank: map<P, nat>, from: P, p: P)
    requires Ranked(next, rank)
  {
    from in next && p in Walk(next, rank, Some(from))
  }

  /** `s` is a maximal run of links: it ends at a cell without successor. */
  ghost predicate IsChain<P>(next: map<P, Option<P>>, s: seq<P>) {
    forall i | 0 <= i < |s| :: s[i] in next && next[s[i]] == Succ(s, i)
  }

  ghost function Succ<P>(s: seq<P>, i: nat): Option<P> {
    if i + 1 < |s| then Some(s[i + 1]) else None
  }

  ghost function First<P>(s: seq<P>): Option<P> {
    if s == [] then None else Some(s[0])
  }

  /** The cells some outside holder can still reach. */
  ghost function Reach<P>(next: map<P, Option<P>>, rank: map<P, nat>, holders: multiset<P>): set<P>
    requires Ranked(next, rank)
  {
    set p | p in next && exists h {:trigger Reaches(next, rank, h, p)} | h in holders :: Reaches(next, rank, h, p)
  }

  // ---------------------------------------------------------------- walks and chains

  lemma {:induction false} WalkOfChain<P>(next: map<P, Option<P>>, rank: map<P, nat>, s: seq<P>)
    requires Ranked(next, rank) && IsChain(next, s)
    ensures Walk(next, rank, First(s)) == s
  {
    if s != [] {
      var t := s[1..];
      assert IsChain(next, t) by {
        forall i | 0 <= i < |t|
          ensures t[i] in next && next[t[i]] == Succ(t, i)
        {
          assert s[i + 1] in next && Succ(s, i + 1) == Succ(t, i);
        }
      }
      WalkOfChain(next, rank, t);
      assert next[s[0]] == Succ(s, 0) == First(t);
    }
  }

  lemma ReachesSelf<P>(next: map<P, Option<P>>, rank: map<P, nat>, p: P)
    requires Ranked(next, rank) && p in next
    ensures Reaches(next, rank, p, p)
  {
    assert Walk(next, rank, Some(p))[0] == p;
  }

  lemma ReachesVia<P>(next: map<P, Option<P>>, rank: map<P, nat>, from: P, p: P)
    requires Ranked(next, rank) && from in next
    ensures Reaches(next, rank, from, p) <==>
            p == from || (next[from].Some? && Reaches(next, rank, next[from].value, p))
  {
    assert Descends(next, rank, from);
    assert Walk(next, rank, Some(from)) == [from] + Walk(next, rank, next[from]);
  }

  lemma {:induction false} ReachesStep<P>(next: map<P, Option<P>>, rank: map<P, nat>, from: P, p: P)
    requires Ranked(next, rank) && Reaches(next, rank, from, p)
    ensures p in next
    ensures next[p].Some? ==> Reaches(next, rank, from, next[p].value)
    decreases rank[from]
  {
    assert Descends(next, rank, from);
    ReachesVia(next, rank, from, p);
    if p == from {
      if next[p].Some? {
        ReachesSelf(next, rank, next[p].value);
        ReachesVia(next, rank, from, next[p].value);
      }
    } else {
      ReachesStep(next, rank, next[from].value, p);
      if next[p].Some? { ReachesVia(next, rank, from, next[p].value); }
    }
  }

  /** A surviving cell keeps everything below it: walks agree on a closed part of the graph. */
  lemma {:induction false} WalkStays<P>(small: map<P, Option<P>>, big: map<P, Option<P>>, rank: map<P, nat>, from: P)
    requires Ranked(big, rank) && Ranked(small, rank) && SubLinks(small, big) && from in small
    ensures Walk(small, rank, Some(from)) == Walk(big, rank, Some(from))
    ensures forall p | p in Walk(big, rank, Some(from)) :: p in small
    decreases rank[from]
  {
    assert Descends(small, rank, from);
    if small[from].Some? {
      WalkStays(small, big, rank, small[from].value);
    }
  }

  lemma ReachesStays<P>(small: map<P, Option<P>>, big: map<P, Option<P>>, rank: map<P, nat>, from: P, p: P)
    requires Ranked(big, rank) && Ranked(small, rank) && SubLinks(small, big) && from in small
    ensures Reaches(small, rank, from, p) <==> Reaches(big, rank, from, p)
    ensures Reaches(big, rank, from, p) ==> p in small
  {
    WalkStays(small, big, rank, from);
  }

  lemma ReachedFrom<P>(next: map<P, Option<P>>, rank: map<P, nat>, holders: multiset<P>, p: P) returns (h: P)
    requires Ranked(next, rank) && p in Reach(next, rank, holders)
    ensures h in holders && Reaches(next, rank, h, p)
  {
    h :| h in holders && Reaches(next, rank, h, p);
  }

  lemma {:induction false} ChainDistinct<P>(next: map<P, Option<P>>, rank: map<P, nat>, s: seq<P>, i: nat, j: nat)
    requires Ranked(next, rank) && IsChain(next, s) && i < j < |s|
    ensures rank[s[j]] < rank[s[i]] && s[i] != s[j]
    decreases j
  {
    assert next[s[j - 1]] == Succ(s, j - 1);
    assert Descends(next, rank, s[j - 1]);
    if i < j - 1 {
      ChainDistinct(next, rank, s, i, j - 1);
    }
  }

  lemma SubLinksRefl<P>(a: map<P, Option<P>>)
    ensures SubLinks(a, a)
  {
  }

  lemma SubLinksKeys<P>(a: map<P, Option<P>>, b: map<P, Option<P>>)
    requires SubLinks(a, b)
    ensures a.Keys <= b.Keys
  {
  }

  lemma SubLinksTransitive<P>(a: map<P, Option<P>>, b: map<P, Option<P>>, c: map<P, Option<P>>)
    requires SubLinks(a, b) && SubLinks(b, c)
    ensures SubLinks(a, c)
  {
  }

  /** What is left of an acyclic graph is acyclic if links stay inside it. */
  lemma SubRanked<P>(small: map<P, Option<P>>, big: map<P, Option<P>>, rank: map<P, nat>,
                     ref: map<P, nat>, holders: multiset<P>)
    requires Ranked(big, rank) && SubLinks(small, big) && Exact(small, ref, holders)
    ensures Ranked(small, rank)
  {
    forall p | p in small
      ensures Descends(small, rank, p)
    {
      assert Counted(small, ref, holders, p);
      assert Descends(big, rank, p);
    }
  }

  lemma ChainTail<P>(next: map<P, Option<P>>, s: seq<P>)
    requires IsChain(next, s) && s != []
    ensures IsChain(next, s[1..])
  {
    forall i | 0 <= i < |s[1..]|
      ensures s[1..][i] in next && next[s[1..][i]] == Succ(s[1..], i)
    {
      assert next[s[i + 1]] == Succ(s, i + 1);
    }
  }

  /** A chain stays a chain when cells are added elsewhere. */
  lemma ChainInSuper<P>(small: map<P, Option<P>>, big: map<P, Option<P>>, s: seq<P>)
    requires SubLinks(small, big) && IsChain(small, s)
    ensures IsChain(big, s)
  {
  }

  lemma LastLive<P>(next: map<P, Option<P>>, s: seq<P>)
    requires IsChain(next, s) && s != []
    ensures s[|s| - 1] in next && next[s[|s| - 1]] == None
  {
    assert next[s[|s| - 1]] == Succ(s, |s| - 1);
  }

  lemma ChainInSub<P>(small: map<P, Option<P>>, big: map<P, Option<P>>, rank: map<P, nat>, s: seq<P>)
    requires Ranked(big, rank) && Ranked(small, rank) && SubLinks(small, big) && IsChain(big, s)
    requires s != [] ==> s[0] in small
    ensures IsChain(small, s)
  {
    if s != [] {
      WalkOfChain(big, rank, s);
      WalkStays(small, big, rank, s[0]);
      assert forall i | 0 <= i < |s| :: s[i] in Walk(big, rank, Some(s[0]));
    }
  }

  // ---------------------------------------------------------------- exact counts leak nothing

  lemma {:induction false} RankBound<P>(rank: map<P, nat>, keys: set<P>) returns (bound: nat)
    requires keys <= rank.Keys
    ensures forall p | p in keys :: rank[p] <= bound
    decreases keys
  {
    if keys == {} {
      bound := 0;
    } else {
      var k :| k in keys;
      var b := RankBound(rank, keys - {k});
      bound := if rank[k] <= b then b else rank[k];
    }
  }

  /** Climbing predecessors from any live cell ends at an outside holder. */
  lemma {:induction false} HolderAbove<P>(next: map<P, Option<P>>, ref: map<P, nat>, holders: multiset<P>,
                                          rank: map<P, nat>, p: P, bound: nat) returns (h: P)
    requires Ranked(next, rank) && Exact(next, ref, holders) && p in next
    requires forall q | q in next :: rank[q] <= bound
    ensures h in holders && Reaches(next, rank, h, p)
    decreases bound - rank[p]
  {
    if p in holders {
      h := p;
      ReachesSelf(next, rank, p);
    } else {
      assert Counted(next, ref, holders, p);
      assert Preds(next, p) != {};
      var q :| q in Preds(next, p);
      assert Descends(next, rank, q);
      h := HolderAbove(next, ref, holders, rank, q, bound);
      ReachesStep(next, rank, h, q);
    }
  }

  lemma HolderOf<P>(next: map<P, Option<P>>, ref: map<P, nat>, holders: multiset<P>,
                    rank: map<P, nat>, p: P) returns (h: P)
    requires Ranked(next, rank) && Exact(next, ref, holders) && p in next
    ensures h in holders && Reaches(next, rank, h, p)
  {
    var bound := RankBound(rank, next.Keys);
    h := HolderAbove(next, ref, holders, rank, p, bound);
  }

  /** No leak: in an exact state every live cell is reachable from outside. */
  lemma NoLeak<P>(next: map<P, Option<P>>, ref: map<P, nat>, holders: multiset<P>, rank: map<P, nat>)
    requires Ranked(next, rank) && Exact(next, ref, holders)
    ensures Reach(next, rank, holders) == next.Keys
  {
    forall p | p in next
      ensures p in Reach(next, rank, holders)
    {
      var h := HolderOf(next, ref, holders, rank, p);
    }
  }

  /**
   What a cascading release leaves behind: whatever the order in which cells were released, if the
   remaining state is exact for the remaining holders then exactly the cells those holders reach in
   the original graph are left.
   */
  lemma SurvivorsAreReachable<P>(small: map<P, Option<P>>, ref: map<P, nat>, holders: multiset<P>,
                                 big: map<P, Option<P>>, rank: map<P, nat>)
    requires Ranked(big, rank) && Ranked(small, rank) && SubLinks(small, big)
    requires Exact(small, ref, holders)
    ensures small.Keys == Reach(big, rank, holders)
  {
    forall p | p in small
      ensures p in Reach(big, rank, holders)
    {
      var h := HolderOf(small, ref, holders, rank, p);
      ReachesStays(small, big, rank, h, p);
    }
    forall p | p in Reach(big, rank, holders)
      ensures p in small
    {
      var h := ReachedFrom(big, rank, holders, p);
      ReachesStays(small, big, rank, h, p);
    }
  }

  /**
   The hand-over of a head cell: when the new holder set gives up `head` and keeps its successor,
   the only cell that can go is `head`, and it goes exactly when that was its last reference.
   */
  lemma HandOverFreesAtMostHead<P>(next: map<P, Option<P>>, ref: map<P, nat>, holders: multiset<P>, rank: map<P, nat>,
                                   head: P, small: map<P, Option<P>>, ref': map<P, nat>)
    requires Ranked(next, rank) && Exact(next, ref, holders)
    requires head in holders && (next[head].Some? ==> next[head].value in holders)
    requires Ranked(small, rank) && SubLinks(small, next) && Exact(small, ref', holders - multiset{head})
    ensures small.Keys == if ref[head] == 1 then next.Keys - {head} else next.Keys
  {
    assert Counted(next, ref, holders, head);
    forall x | x in next && x != head
      ensures x in small
    {
      HandOverKeeps(next, ref, holders, rank, head, small, ref', x);
    }
    if ref[head] == 1 {
      assert Preds(next, head) == {};
      assert Preds(small, head) <= Preds(next, head);
      assert head in small ==> Counted(small, ref', holders - multiset{head}, head);
    } else if holders[head] == 1 {
      assert Preds(next, head) != {};
      var q :| q in Preds(next, head);
      assert Descends(next, rank, q);
      assert Descends(small, rank, q);
    }
  }

  lemma HandOverKeeps<P>(next: map<P, Option<P>>, ref: map<P, nat>, holders: multiset<P>, rank: map<P, nat>,
                         head: P, small: map<P, Option<P>>, ref': map<P, nat>, x: P)
    requires Ranked(next, rank) && Exact(next, ref, holders)
    requires head in holders && (next[head].Some? ==> next[head].value in holders)
    requires Ranked(small, rank) && SubLinks(small, next) && Exact(small, ref', holders - multiset{head})
    requires x in next && x != head
    ensures x in small
  {
    var h := HolderOf(next, ref, holders, rank, x);
    var g := h;
    if h == head {
      ReachesVia(next, rank, h, x);
      assert Descends(next, rank, head);
      g := next[head].value;
    }
    assert g in holders - multiset{head};
    ReachesStays(small, next, rank, g, x);
  }

  // ---------------------------------------------------------------- single steps

  lemma AddHolder<P>(next: map<P, Option<P>>, ref: map<P, nat>, holders: multiset<P>, p: P)
    requires Exact(next, ref, holders) && p in next
    ensures Exact(next, ref[p := ref[p] + 1], holders + multiset{p})
  {
    forall x | x in next
      ensures Counted(next, ref[p := ref[p] + 1], holders + multiset{p}, x)
    {
      assert Counted(next, ref, holders, x);
    }
  }

  lemma DropHolder<P>(next: map<P, Option<P>>, ref: map<P, nat>, holders: multiset<P>, p: P)
    requires Exact(next, ref, holders) && p in holders && 1 < ref[p]
    ensures Exact(next, ref[p := (ref[p] - 1) as nat], holders - multiset{p})
  {
    forall x | x in next
      ensures Counted(next, ref[p := (ref[p] - 1) as nat], holders - multiset{p}, x)
    {
      assert Counted(next, ref, holders, x);
    }
  }

  /** Releasing a cell whose last reference is dropped turns its link into a reference to drop. */
  lemma Unlink<P>(next: map<P, Option<P>>, ref: map<P, nat>, holders: multiset<P>, p: P)
    requires Exact(next, ref, holders) && p in holders && ref[p] == 1
    ensures Exact(next - {p}, ref - {p}, holders - multiset{p} + Token(next[p]))
  {
    var next', ref' := next - {p}, ref - {p};
    var holders' := holders - multiset{p} + Token(next[p]);
    assert Counted(next, ref, holders, p);
    assert Preds(next, p) == {};
    assert p !in Preds(next, p);
    forall x | x in next'
      ensures Counted(next', ref', holders', x)
    {
      assert x !in Preds(next, p);
      assert Counted(next, ref, holders, x);
      PredsWithout(next, p, x);
    }
  }

  lemma PredsWithout<P>(next: map<P, Option<P>>, p: P, x: P)
    requires p in next
    ensures |Preds(next - {p}, x)| == |Preds(next, x)| - if next[p] == Some(x) then 1 else 0
  {
    if next[p] == Some(x) {
      assert Preds(next - {p}, x) == Preds(next, x) - {p};
    } else {
      assert Preds(next - {p}, x) == Preds(next, x);
    }
  }

  lemma PredsWith<P>(next: map<P, Option<P>>, p: P, t: P, x: P)
    requires p in next && next[p].None?
    ensures |Preds(next[p := Some(t)], x)| == |Preds(next, x)| + if t == x then 1 else 0
  {
    if t == x {
      assert Preds(next[p := Some(t)], x) == Preds(next, x) + {p};
    } else {
      assert Preds(next[p := Some(t)], x) == Preds(next, x);
    }
  }

  /** Appending a chain turns the caller's reference to its first cell into a link. */
  lemma Append<P>(next: map<P, Option<P>>, ref: map<P, nat>, holders: multiset<P>, last: P, t: P)
    requires Exact(next, ref, holders) && last in next && next[last].None? && t in holders
    ensures Exact(next[last := Some(t)], ref, holders - multiset{t})
  {
    var next' := next[last := Some(t)];
    forall x | x in next'
      ensures Counted(next', ref, holders - multiset{t}, x)
    {
      assert Counted(next, ref, holders, x);
      PredsWith(next, last, t, x);
    }
  }

  /** Ranks after an append: whatever leads to `last` is lifted above the appended chain. */
  ghost function AppendRank<P>(next: map<P, Option<P>>, rank: map<P, nat>, last: P, t: P): map<P, nat>
    requires Ranked(next, rank) && t in next
  {
    map n | n in next ::
      if Reaches(next, rank, n, last) then rank[n] + rank[t] + 1 else rank[n]
  }

  lemma AppendRanked<P>(next: map<P, Option<P>>, rank: map<P, nat>, last: P, t: P)
    requires Ranked(next, rank) && last in next && next[last].None? && t in next
    requires !Reaches(next, rank, t, last)
    ensures Ranked(next[last := Some(t)], AppendRank(next, rank, last, t))
  {
    var next' := next[last := Some(t)];
    var rank' := AppendRank(next, rank, last, t);
    forall n | n in next'
      ensures Descends(next', rank', n)
    {
      assert Descends(next, rank, n);
      ReachesVia(next, rank, n, last);
    }
  }

  lemma AppendChain<P>(next: map<P, Option<P>>, hs: seq<P>, ts: seq<P>)
    requires IsChain(next, hs) && IsChain(next, ts) && hs != [] && ts != []
    requires hs[|hs| - 1] != ts[|ts| - 1]
    ensures IsChain(next[hs[|hs| - 1] := Some(ts[0])], hs + ts)
  {
    var last := hs[|hs| - 1];
    var next' := next[last := Some(ts[0])];
    assert next[last] == Succ(hs, |hs| - 1) == None;
    forall i | 0 <= i < |hs + ts|
      ensures (hs + ts)[i] in next' && next'[(hs + ts)[i]] == Succ(hs + ts, i)
    {
      if i < |hs| - 1 {
        assert next[hs[i]] == Succ(hs, i) == Some(hs[i + 1]);
      } else if i >= |hs| {
        var j := i - |hs|;
        assert next[ts[j]] == Succ(ts, j) == Succ(hs + ts, i);
        assert j < |ts| - 1 ==> ts[j] != last;
      }
    }
  }

  // ---------------------------------------------------------------- the memory as one value

  /** Everything the allocator knows: links, counts, outside references, and a ranking of the links. */
  datatype Memory<P> = Memory(next: map<P, Option<P>>, ref: map<P, nat>, holders: multiset<P>, rank: map<P, nat>)

  ghost predicate Sound<P>(m: Memory<P>) {
    Ranked(m.next, m.rank) && Exact(m.next, m.ref, m.holders)
  }

  lemma HolderCounted<P>(m: Memory<P>, p: P)
    requires Sound(m) && p in m.holders
    ensures p in m.next && p in m.ref && 0 < m.ref[p]
    ensures m.next[p].Some? ==> m.next[p].value in m.next
  {
    assert Counted(m.next, m.ref, m.holders, p);
  }

  lemma HandOn<P>(rest: multiset<P>, p: P, q: Option<P>)
    ensures rest + Token(Some(p)) - multiset{p} + Token(q) == rest + Token(q)
    ensures rest + Token(Some(p)) - multiset{p} == rest == rest + Token(None)
  {
  }

  /** One more outside reference to `p`. */
  ghost function Held<P>(m: Memory<P>, p: P): Memory<P>
    requires p in m.ref
  {
    m.(ref := m.ref[p := m.ref[p] + 1], holders := m.holders + multiset{p})
  }

  lemma HeldSound<P>(m: Memory<P>, p: P)
    requires Sound(m) && p in m.next
    ensures Sound(Held(m, p))
  {
    AddHolder(m.next, m.ref, m.holders, p);
  }

  /** One round of pbuf_free on an outside reference to `p`. */
  ghost function Dropped<P>(m: Memory<P>, p: P): Memory<P>
    requires p in m.ref && p in m.next && 0 < m.ref[p]
  {
    if m.ref[p] == 1 then
      m.(next := m.next - {p}, ref := m.ref - {p}, holders := m.holders - multiset{p} + Token(m.next[p]))
    else
      m.(ref := m.ref[p := m.ref[p] - 1], holders := m.holders - multiset{p})
  }

  lemma DroppedSound<P>(m: Memory<P>, p: P)
    requires Sound(m) && p in m.holders
    ensures p in m.next && p in m.ref && 0 < m.ref[p]
    ensures Sound(Dropped(m, p)) && SubLinks(Dropped(m, p).next, m.next)
    ensures |Dropped(m, p).next.Keys| == |m.next.Keys| - if m.ref[p] == 1 then 1 else 0
  {
    assert Counted(m.next, m.ref, m.holders, p);
    if m.ref[p] == 1 {
      Unlink(m.next, m.ref, m.holders, p);
      assert (m.next - {p}).Keys == m.next.Keys - {p};
      SubRanked(Dropped(m, p).next, m.next, m.rank, Dropped(m, p).ref, Dropped(m, p).holders);
    } else {
      DropHolder(m.next, m.ref, m.holders, p);
    }
  }

  /** pbuf_cat: the outside reference to `t` becomes the link of `last`. */
  ghost function Appended<P>(m: Memory<P>, last: P, t: P): Memory<P>
    requires Sound(m) && t in m.next
  {
    Memory(m.next[last := Some(t)], m.ref, m.holders - multiset{t}, AppendRank(m.next, m.rank, last, t))
  }

  lemma AppendedSound<P>(m: Memory<P>, hs: seq<P>, ts: seq<P>)
    requires Sound(m) && IsChain(m.next, hs) && IsChain(m.next, ts) && hs != [] && ts != []
    requires hs[|hs| - 1] != ts[|ts| - 1] && ts[0] in m.holders
    ensures Sound(Appended(m, hs[|hs| - 1], ts[0]))
    ensures Appended(m, hs[|hs| - 1], ts[0]).next.Keys == m.next.Keys
    ensures IsChain(Appended(m, hs[|hs| - 1], ts[0]).next, hs + ts)
  {
    var last, t := hs[|hs| - 1], ts[0];
    assert m.next[last] == Succ(hs, |hs| - 1) == None;
    assert !Reaches(m.next, m.rank, t, last) by {
      WalkOfChain(m.next, m.rank, ts);
      assert forall i | 0 <= i < |ts| :: m.next[ts[i]] == Succ(ts, i);
    }
    Append(m.next, m.ref, m.holders, last, t);
    AppendRanked(m.next, m.rank, last, t);
    AppendChain(m.next, hs, ts);
  }

  /** A fresh cell, held once from outside, in front of a chain whose outside reference it takes over. */
  ghost function Fresh<P>(m: Memory<P>, p: P, tail: Option<P>): Memory<P>
    requires tail.Some? ==> tail.value in m.rank
  {
    Memory(m.next[p := tail], m.ref[p := 1], m.holders - Token(tail) + multiset{p},
           m.rank[p := if tail.Some? then m.rank[tail.value] + 1 else 0])
  }

  lemma FreshSound<P>(m: Memory<P>, p: P, ts: seq<P>)
    requires Sound(m) && p !in m.next && (ts != [] ==> ts[0] in m.holders)
    ensures Sound(Fresh(m, p, First(ts)))
  {
    var m' := Fresh(m, p, First(ts));
    forall x | x in m'.next
      ensures Counted(m'.next, m'.ref, m'.holders, x) && Descends(m'.next, m'.rank, x)
    {
      if x == p {
        FreshUnlinked(m, p, First(ts));
      } else {
        FreshCounted(m, p, First(ts), x);
      }
    }
  }

  lemma FreshSize<P>(m: Memory<P>, p: P, tail: Option<P>)
    requires p !in m.next && (tail.Some? ==> tail.value in m.rank)
    ensures |Fresh(m, p, tail).next.Keys| == |m.next.Keys| + 1
  {
    assert Fresh(m, p, tail).next.Keys == m.next.Keys + {p};
  }

  lemma FreshReady<P>(m: Memory<P>, ts: seq<P>)
    requires Sound(m) && (ts != [] ==> ts[0] in m.holders)
    ensures ts != [] ==> ts[0] in m.next && ts[0] in m.rank
  {
  }

  lemma FreshChain<P>(m: Memory<P>, p: P, ts: seq<P>)
    requires p !in m.next && IsChain(m.next, ts) && (ts != [] ==> ts[0] in m.rank)
    ensures IsChain(Fresh(m, p, First(ts)).next, [p] + ts)
  {
    var next' := Fresh(m, p, First(ts)).next;
    forall i | 0 <= i < |[p] + ts|
      ensures ([p] + ts)[i] in next' && next'[([p] + ts)[i]] == Succ([p] + ts, i)
    {
      if i > 0 { assert m.next[ts[i - 1]] == Succ(ts, i - 1); }
    }
  }

  lemma FreshUnlinked<P>(m: Memory<P>, p: P, tail: Option<P>)
    requires Sound(m) && p !in m.next && (tail.Some? ==> tail.value in m.holders)
    ensures Preds(Fresh(m, p, tail).next, p) == {}
  {
    forall q | q in m.next
      ensures m.next[q] != Some(p)
    {
      assert Counted(m.next, m.ref, m.holders, q);
    }
  }

  lemma FreshCounted<P>(m: Memory<P>, p: P, tail: Option<P>, x: P)
    requires Sound(m) && p !in m.next && (tail.Some? ==> tail.value in m.holders) && x in m.next
    ensures var m' := Fresh(m, p, tail);
            Counted(m'.next, m'.ref, m'.holders, x) && Descends(m'.next, m'.rank, x)
  {
    assert Counted(m.next, m.ref, m.holders, x) && Descends(m.next, m.rank, x);
    FreshPreds(m.next, p, tail, x);
  }

  lemma FreshPreds<P>(next: map<P, Option<P>>, p: P, tail: Option<P>, x: P)
    requires p !in next
    ensures |Preds(next[p := tail], x)| == |Preds(next, x)| + if tail == Some(x) then 1 else 0
  {
    if tail == Some(x) {
      assert Preds(next[p := tail], x) == Preds(next, x) + {p};
    } else {
      assert Preds(next[p := tail], x) == Preds(next, x);
    }
  }
}
