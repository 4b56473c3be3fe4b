/**
 lwIP's packet buffers: reference-counted cells on the heap, linked through `next`.

 Only the contract the library relies on is modelled: pbuf_ref, the cascading pbuf_free, pbuf_cat
 (which adds no reference) and the allocation of a fresh chain.
 */
module PbufMemory {
  import opened Wrappers
  import opened RefGraph

  class Pbuf {
    var next: Pbuf?
    var ref: nat
    const payload: seq<byte>

    constructor (payload: seq<byte>, next: Pbuf?)
      ensures this.payload == payload && this.next == next && ref == 1
    {
      this.payload := payload;
      this.next := next;
      this.ref := 1;
    }
  }

  ghost function Ptr(p: Pbuf?): Option<Pbuf> {
    if p == null then None else var q: Pbuf := p; Some(q)
  }

  /** The payloads of a chain, one byte string per segment. */
  ghost function Segs(chain: seq<Pbuf>): (segs: seq<seq<byte>>)
    ensures |segs| == |chain|
  {
    seq(|chain|, i requires 0 <= i < |chain| => chain[i].payload)
  }

  /**
   The allocator. `mem` is its view of the live cells: their links, their counts and the references
   held from outside. A cell that is not in `mem` has been released and must not be touched.
   `allocs` and `frees` count the cells handed out and the releases.
   */
  class PbufPool {
    ghost var mem: Memory<Pbuf>
    ghost var allocs: nat
    ghost var frees: nat

    /** The fields of a live cell are what `mem` says. */
    ghost predicate Agrees(p: Pbuf)
      reads this, p
    {
      p in mem.next && p in mem.ref && p.ref == mem.ref[p] && Ptr(p.next) == mem.next[p]
    }

    ghost predicate Mirrors()
      reads this, mem.next.Keys
    {
      forall p | p in mem.next :: Agrees(p)
    }

    /** Counts are exact, links are acyclic, and every cell handed out is live or was released once. */
    ghost predicate Valid()
      reads this, mem.next.Keys
    {
      Mirrors() && Sound(mem) && allocs == frees + |mem.next.Keys|
    }

    lemma FieldsOf(p: Pbuf)
      requires Valid() && p in mem.next
      ensures Agrees(p)
    {
    }

    constructor ()
      ensures Valid() && mem == Memory(map[], map[], multiset{}, map[]) && allocs == 0
    {
      mem, allocs, frees := Memory(map[], map[], multiset{}, map[]), 0, 0;
    }

    /** pbuf_ref */
    method Ref(p: Pbuf)
      requires Valid() && p in mem.next
      modifies this`mem, p`ref
      ensures p in old(mem.ref) && Valid() && mem == Held(old(mem), p)
    {
      hide Ranked, Exact, Sound;
      HeldSound(mem, p);
      assert Agrees(p);
      p.ref := p.ref + 1;
      mem := Held(mem, p);
      assert Mirrors() by {
        forall q | q in mem.next
          ensures Agrees(q)
        {
          assert old(Agrees(q));
        }
      }
    }

    /** One round of pbuf_free; `next` is the cell whose reference has to be dropped after this one. */
    method Drop(p: Pbuf) returns (next: Pbuf?, released: bool)
      requires Valid() && p in mem.holders
      modifies this`mem, this`frees, p`ref
      ensures frees == old(frees) + (if released then 1 else 0)
      ensures p in old(mem.next) && p in old(mem.ref) && 0 < old(mem.ref[p])
      ensures Valid() && mem == Dropped(old(mem), p)
      ensures released <==> old(mem.ref[p]) == 1
      ensures Ptr(next) == if released then old(mem.next[p]) else None
    {
      hide Ranked, Exact, SubLinks, Sound;
      DroppedSound(mem, p);
      assert Agrees(p);
      p.ref := p.ref - 1;
      released := p.ref == 0;
      next := if released then p.next else null;
      mem := Dropped(mem, p);
      frees := frees + if released then 1 else 0;
      assert Mirrors() by {
        forall q | q in mem.next
          ensures Agrees(q)
        {
          assert old(Agrees(q));
        }
      }
    }

    /**
     pbuf_free: drop one reference and, while a count reaches zero, release the cell and go on with
     its successor. `count` is the number of cells released.
     */
    method Free(p: Pbuf) returns (count: nat)
      requires Valid() && p in mem.holders
      modifies this`mem, this`frees, mem.next.Keys`ref
      ensures Valid() && mem.holders == old(mem.holders) - multiset{p} && mem.rank == old(mem.rank)
      ensures SubLinks(mem.next, old(mem.next))
      ensures count == frees - old(frees) == |old(mem.next.Keys)| - |mem.next.Keys|
    {
      hide Ranked, Exact, SubLinks, Mirrors, Sound;
      ghost var m0, rest, frees0 := mem, mem.holders - multiset{p}, frees;
      var cur: Pbuf? := p;
      count := 0;
      SubLinksRefl(mem.next);
      while cur != null
        invariant Valid()
        invariant SubLinks(mem.next, m0.next) && mem.rank == m0.rank
        invariant mem.holders == rest + Token(Ptr(cur))
        invariant count == frees - frees0 == |m0.next.Keys| - |mem.next.Keys|
        decreases |mem.next.Keys|, if cur != null then 1 else 0
      {
        DroppedSound(mem, cur);
        HandOn(rest, cur, mem.next[cur]);
        SubLinksTransitive(Dropped(mem, cur).next, mem.next, m0.next);
        SubLinksKeys(mem.next, m0.next);
        var released;
        cur, released := Drop(cur);
        count := count + if released then 1 else 0;
      }
    }

    /** pbuf_cat: link the last cell of the chain at `h` to `t`, whose reference the link takes over. */
    method Cat(h: Pbuf, t: Pbuf, ghost hs: seq<Pbuf>, ghost ts: seq<Pbuf>)
      requires Valid() && IsChain(mem.next, hs) && IsChain(mem.next, ts)
      requires hs != [] && hs[0] == h && ts != [] && ts[0] == t && t in mem.holders
      requires hs[|hs| - 1] != ts[|ts| - 1]
      modifies this`mem, mem.next.Keys`next
      ensures Valid() && Sound(old(mem)) && t in old(mem.next)
      ensures mem == Appended(old(mem), hs[|hs| - 1], t)
      ensures IsChain(mem.next, hs + ts)
    {
      hide Ranked, Exact, Sound, IsChain, AppendRank;
      var p := LastOf(h, hs);
      AppendedSound(mem, hs, ts);
      HolderCounted(mem, t);
      LastLive(mem.next, hs);
      assert Agrees(p);
      p.next := t;
      mem := Appended(mem, p, t);
      assert Mirrors() by {
        forall q | q in mem.next
          ensures Agrees(q)
        {
          assert old(Agrees(q));
        }
      }
    }

    /** The walk of pbuf_cat to the end of a chain. */
    method LastOf(h: Pbuf, ghost hs: seq<Pbuf>) returns (p: Pbuf)
      requires Valid() && IsChain(mem.next, hs) && hs != [] && hs[0] == h
      ensures p == hs[|hs| - 1]
    {
      hide Sound;
      p := h;
      ghost var i := 0;
      assert Agrees(p) && mem.next[p] == Succ(hs, 0);
      while p.next != null
        invariant i < |hs| && p == hs[i] && Agrees(p) && mem.next[p] == Succ(hs, i)
        decreases |hs| - i
      {
        p := p.next;
        i := i + 1;
        assert Agrees(p) && mem.next[p] == Succ(hs, i);
      }
    }

    /** One fresh cell in front of a chain, taking over the outside reference to that chain. */
    method Push(bytes: seq<byte>, tail: Pbuf?, ghost ts: seq<Pbuf>) returns (p: Pbuf)
      requires Valid() && IsChain(mem.next, ts) && Ptr(tail) == First(ts) && (ts != [] ==> ts[0] in mem.holders)
      modifies this`mem, this`allocs
      ensures allocs == old(allocs) + 1
      ensures fresh(p) && p.payload == bytes && p !in old(mem.next)
      ensures Valid() && Sound(old(mem)) && (ts != [] ==> ts[0] in old(mem.next) && ts[0] in old(mem.rank))
      ensures mem == Fresh(old(mem), p, First(ts)) && IsChain(mem.next, [p] + ts)
    {
      hide Ranked, Exact, IsChain, Sound;
      p := new Pbuf(bytes, tail);
      FreshReady(mem, ts);
      FreshSound(mem, p, ts);
      FreshChain(mem, p, ts);
      FreshSize(mem, p, First(ts));
      mem := Fresh(mem, p, First(ts));
      allocs := allocs + 1;
      assert Mirrors() by {
        forall q | q in mem.next
          ensures Agrees(q)
        {
          assert q != p ==> old(Agrees(q));
        }
      }
    }
  }
}
