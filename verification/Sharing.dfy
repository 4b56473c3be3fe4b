/** The pbufs of many clients in one memory: what one client's action does to the chains of the others. */
module Sharing {
  import opened Wrappers
  import opened RefGraph
  import opened PbufMemory
  import opened RxBuffer
  import opened Lwip

  // ---------------------------------------------------------------- one client's action

  /**
   A client's chain went from `from` to `to`, and so did its reference; every chain held by somebody else is whole.
   The new chain ends where the old one did, or in a new cell.
   */
  ghost predicate Effect(m: Cells, m': Cells, from: seq<Pbuf>, to: seq<Pbuf>) {
    && Owns(m', to)
    && m'.holders == m.holders - Token(First(from)) + Token(First(to))
    && (to != [] ==> (from != [] && to[|to| - 1] == from[|from| - 1]) || to[|to| - 1] !in m.next)
    && OthersKept(m, m', from, [])
  }

  lemma MovedEffect(m: Cells, m': Cells, from: seq<Pbuf>, to: seq<Pbuf>)
    requires Sound(m) && Sound(m') && Moved(m, m', from, to) && Suffix(to, from) && Owns(m', to)
    ensures Effect(m, m', from, to) && m'.next.Keys <= m.next.Keys
  {
    forall other | Aside(m, from, [], other)
      ensures Owns(m', other)
    {
      OthersUndisturbed(m, m', from, to, other);
    }
  }

  lemma NoEffect(m: Cells, chain: seq<Pbuf>)
    requires Owns(m, chain)
    ensures Effect(m, m, chain, chain)
  {
  }

  /** A fresh chain `ts` was allocated and delivered, and perhaps part of it was read at once. */
  lemma ArrivalEffect(m: Cells, m1: Cells, m': Cells, chain: seq<Pbuf>, ts: seq<Pbuf>, to: seq<Pbuf>, err: int)
    requires SubLinks(m.next, m1.next) && m1.holders == m.holders + Token(First(ts)) && Owns(m, chain)
    requires forall c | c in ts :: c !in m.next
    requires OthersKept(m1, m', chain, ts) && m'.holders == Delivered(m1.holders, chain, ts, to) && Owns(m', to)
    requires Suffix(to, if err == ERR_OK then chain + ts else chain)
    ensures Effect(m, m', chain, to)
  {
    hide Token, Delivered, Suffix;
    ArrivalTokens(m.holders, m1.holders, chain, ts, to);
    forall other | Aside(m, chain, [], other)
      ensures Owns(m', other)
    {
      AsideStill(m, m1, chain, ts, other);
    }
    if to != [] { LastOfSuffix(to, if err == ERR_OK then chain + ts else chain); }
    assert ts != [] ==> ts[|ts| - 1] in ts;
  }

  lemma LastOfSuffix(s: seq<Pbuf>, t: seq<Pbuf>)
    requires Suffix(s, t) && s != []
    ensures t != [] && s[|s| - 1] == t[|t| - 1]
  {
  }

  lemma ArrivalTokens(holders: multiset<Pbuf>, holders1: multiset<Pbuf>, chain: seq<Pbuf>, ts: seq<Pbuf>, to: seq<Pbuf>)
    requires holders1 == holders + Token(First(ts))
    requires chain != [] ==> chain[0] in holders
    ensures Delivered(holders1, chain, ts, to) == holders - Token(First(chain)) + Token(First(to))
  {
  }

  lemma AsideStill(m: Cells, m1: Cells, chain: seq<Pbuf>, ts: seq<Pbuf>, other: seq<Pbuf>)
    requires SubLinks(m.next, m1.next) && m1.holders == m.holders + Token(First(ts)) && Aside(m, chain, [], other)
    ensures Aside(m1, chain, ts, other)
  {
    ChainInSuper(m.next, m1.next, other);
  }

  // ---------------------------------------------------------------- the pbufs of all clients

  /** The references that the clients hold to their chains. */
  ghost function TokensOf(chains: seq<seq<Pbuf>>): multiset<Pbuf> {
    if chains == [] then multiset{} else Token(First(chains[0])) + TokensOf(chains[1..])
  }

  lemma AddSame(a: multiset<Pbuf>, t: multiset<Pbuf>, x: multiset<Pbuf>, u: multiset<Pbuf>, y: multiset<Pbuf>)
    requires t + x == u + y
    ensures a + t + x == a + u + y
  {
    assert a + t + x == a + (t + x) && a + u + y == a + (u + y);
  }

  lemma Reorder(t: multiset<Pbuf>, x: multiset<Pbuf>, y: multiset<Pbuf>)
    ensures y + t + x == x + t + y
  {
  }

  lemma {:induction false} TokensUpdate(chains: seq<seq<Pbuf>>, c: nat, to: seq<Pbuf>)
    requires c < |chains|
    ensures TokensOf(chains[c := to]) + Token(First(chains[c])) == TokensOf(chains) + Token(First(to))
    decreases |chains|
  {
    hide Token, First;
    var x, y := Token(First(chains[c])), Token(First(to));
    if c > 0 {
      TokensUpdate(chains[1..], c - 1, to);
      assert chains[c := to][1..] == chains[1..][c - 1 := to];
      AddSame(Token(First(chains[0])), TokensOf(chains[c := to][1..]), x, TokensOf(chains[1..]), y);
    } else {
      assert chains[c := to][1..] == chains[1..];
      Reorder(TokensOf(chains[1..]), x, y);
    }
  }

  lemma {:induction false} TokenOne(chains: seq<seq<Pbuf>>, c: nat)
    requires c < |chains|
    ensures Token(First(chains[c])) <= TokensOf(chains)
    decreases |chains|
  {
    hide Token, First;
    if c > 0 { TokenOne(chains[1..], c - 1); }
  }

  lemma {:induction false} TokenTwo(chains: seq<seq<Pbuf>>, c: nat, d: nat)
    requires c < d < |chains|
    ensures Token(First(chains[c])) + Token(First(chains[d])) <= TokensOf(chains)
    decreases |chains|
  {
    hide Token, First;
    if c > 0 {
      TokenTwo(chains[1..], c - 1, d - 1);
      assert TokensOf(chains[1..]) <= TokensOf(chains);
    } else {
      TokenOne(chains[1..], d - 1);
    }
  }

  /** The references after one client's chain changed. */
  lemma HoldersUpdate(holders: multiset<Pbuf>, holders': multiset<Pbuf>, others: multiset<Pbuf>,
                      chains: seq<seq<Pbuf>>, c: nat, to: seq<Pbuf>)
    requires c < |chains| && holders == others + TokensOf(chains)
    requires holders' == holders - Token(First(chains[c])) + Token(First(to))
    ensures holders' == others + TokensOf(chains[c := to])
  {
    hide Token, First, TokensOf;
    TokensUpdate(chains, c, to);
    TokenOne(chains, c);
    var t, t', x, y := TokensOf(chains), TokensOf(chains[c := to]), Token(First(chains[c])), Token(First(to));
    Rebalance(others, t, t', x, y);
  }

  lemma Rebalance(others: multiset<Pbuf>, t: multiset<Pbuf>, t': multiset<Pbuf>, x: multiset<Pbuf>, y: multiset<Pbuf>)
    requires t' + x == t + y && x <= t
    ensures others + t - x + y == others + t'
  {
    forall p: Pbuf
      ensures (others + t - x + y)[p] == (others + t')[p]
    {
      assert (t' + x)[p] == (t + y)[p];
    }
  }

  lemma BothHeld(holders: multiset<Pbuf>, others: multiset<Pbuf>, chains: seq<seq<Pbuf>>, c: nat, d: nat)
    requires c < |chains| && d < |chains| && c != d && holders == others + TokensOf(chains)
    ensures Token(First(chains[c])) + Token(First(chains[d])) <= holders
  {
    hide Token, First, TokensOf;
    if c < d { TokenTwo(chains, c, d); } else { TokenTwo(chains, d, c); }
  }

  /**
   Every client owns its chain, no two chains share cells, and apart from these references exactly `others` are held.
   */
  ghost predicate AllOwned(m: Cells, chains: seq<seq<Pbuf>>, others: multiset<Pbuf>) {
    && (forall c | 0 <= c < |chains| :: Owns(m, chains[c]))
    && (forall c, d | 0 <= c < |chains| && 0 <= d < |chains| && c != d :: LastsDiffer(chains[c], chains[d]))
    && m.holders == others + TokensOf(chains)
  }

  lemma AllOwnedStep(m: Cells, m': Cells, chains: seq<seq<Pbuf>>, c: nat, to: seq<Pbuf>, others: multiset<Pbuf>)
    requires AllOwned(m, chains, others) && c < |chains| && Effect(m, m', chains[c], to)
    ensures AllOwned(m', chains[c := to], others)
  {
    hide Owns, OthersKept, LastsDiffer, Token, First, TokensOf;
    var chains' := chains[c := to];
    HoldersUpdate(m.holders, m'.holders, others, chains, c, to);
    forall d | 0 <= d < |chains'|
      ensures Owns(m', chains'[d]) && (d != c ==> LastsDiffer(to, chains'[d]) && LastsDiffer(chains'[d], to))
    {
      if d != c {
        BothHeld(m.holders, others, chains, c, d);
        OtherStays(m, m', chains[c], to, chains[d]);
      }
    }
    forall d, e | 0 <= d < |chains'| && 0 <= e < |chains'| && d != e
      ensures LastsDiffer(chains'[d], chains'[e])
    {
      assert d != c && e != c ==> LastsDiffer(chains[d], chains[e]);
    }
  }

  lemma OtherStays(m: Cells, m': Cells, from: seq<Pbuf>, to: seq<Pbuf>, other: seq<Pbuf>)
    requires Effect(m, m', from, to) && Owns(m, other) && LastsDiffer(other, from)
    requires Token(First(from)) + Token(First(other)) <= m.holders
    ensures Owns(m', other) && LastsDiffer(to, other) && LastsDiffer(other, to)
  {
    assert Aside(m, from, [], other);
    if other != [] { LastLive(m.next, other); }
  }

  /** Nothing leaks: every live pbuf is queued by some client or reachable from another holder. */
  lemma AllAccounted(m: Cells, chains: seq<seq<Pbuf>>, others: multiset<Pbuf>, p: Pbuf)
    requires Sound(m) && AllOwned(m, chains, others) && p in m.next
    ensures (exists c | 0 <= c < |chains| :: p in chains[c])
            || exists h | h in others :: RefGraph.Reaches(m.next, m.rank, h, p)
  {
    var h := HolderOf(m.next, m.ref, m.holders, m.rank, p);
    if h !in others {
      var c := TokenFrom(chains, h);
      assert Owns(m, chains[c]);
      WalkOfChain(m.next, m.rank, chains[c]);
      assert p in chains[c];
    }
  }

  lemma {:induction false} TokenFrom(chains: seq<seq<Pbuf>>, h: Pbuf) returns (c: nat)
    requires h in TokensOf(chains)
    ensures c < |chains| && First(chains[c]) == Some(h)
    decreases |chains|
  {
    if First(chains[0]) == Some(h) {
      c := 0;
    } else {
      c := TokenFrom(chains[1..], h);
      c := c + 1;
    }
  }
}
