/**
 The receive queue as a cursor into a list of segments: the byte strings of the pbuf chain and the
 number of bytes of the first one already read.
 */
module ByteQueue {
  import opened Wrappers
  import opened Sequences

  datatype Cursor = Cursor(segs: seq<seq<byte>>, offset: nat)

  /** The offset is inside the first segment, or that segment is empty. */
  predicate Wf(c: Cursor) {
    if c.segs == [] then c.offset == 0
    else c.offset < |c.segs[0]| || (c.offset == 0 && c.segs[0] == [])
  }

  /** The plain byte queue a cursor stands for. */
  function Unread(c: Cursor): seq<byte>
    requires Wf(c)
  {
    if c.segs == [] then [] else c.segs[0][c.offset..] + Flatten(c.segs[1..])
  }

  /** Consume up to `n` bytes, leaving a segment as soon as it is exhausted. */
  function Advance(c: Cursor, n: nat): Cursor
    requires Wf(c)
    decreases |c.segs|
  {
    if n == 0 || c.segs == [] then c
    else
      var available := |c.segs[0]| - c.offset;
      if n < available then Cursor(c.segs, c.offset + n)
      else Advance(Cursor(c.segs[1..], 0), n - available)
  }

  /** How many segments consuming `n` bytes leaves behind. */
  function Left(c: Cursor, n: nat): int
    requires Wf(c)
  {
    |c.segs| - |Advance(c, n).segs|
  }

  // ---------------------------------------------------------------- the queue seen through the cursor

  /** Dropping past the first part of a concatenation drops from the second part. */
  lemma DropAcross(a: seq<byte>, b: seq<byte>, n: nat)
    requires |a| <= n
    ensures (a + b)[Min(n, |a + b|)..] == b[Min(n - |a|, |b|)..]
  {
  }

  /** Dropping inside the first part of a concatenation keeps the second part. */
  lemma DropInside(a: seq<byte>, b: seq<byte>, n: nat)
    requires n <= |a|
    ensures (a + b)[Min(n, |a + b|)..] == a[n..] + b
  {
  }

  lemma UnreadAtStart(segs: seq<seq<byte>>)
    requires Wf(Cursor(segs, 0))
    ensures Unread(Cursor(segs, 0)) == Flatten(segs)
  {
    if segs != [] { assert segs[0][0..] == segs[0]; }
  }

  /** Appending segments appends their bytes to the queue. */
  lemma UnreadAppend(c: Cursor, more: seq<seq<byte>>)
    requires Wf(c)
    ensures Wf(Cursor(c.segs + more, c.offset))
    ensures Unread(Cursor(c.segs + more, c.offset)) == Unread(c) + Flatten(more)
  {
    if c.segs == [] {
      assert c.segs + more == more;
    } else {
      assert (c.segs + more)[1..] == c.segs[1..] + more;
      FlattenConcat(c.segs[1..], more);
    }
  }

  /** Consuming `n` bytes drops exactly the first `n` bytes of the queue, or all of them. */
  lemma {:induction false} AdvanceDrops(c: Cursor, n: nat)
    requires Wf(c)
    ensures Wf(Advance(c, n))
    ensures Unread(Advance(c, n)) == Unread(c)[Min(n, |Unread(c)|)..]
    decreases |c.segs|
  {
    hide Flatten;
    if n != 0 && c.segs != [] {
      var available := |c.segs[0]| - c.offset;
      if n >= available {
        var rest := Cursor(c.segs[1..], 0);
        AdvanceDrops(rest, n - available);
        UnreadAtStart(rest.segs);
        DropAcross(c.segs[0][c.offset..], Unread(rest), n);
      } else {
        DropInside(c.segs[0][c.offset..], Flatten(c.segs[1..]), n);
        assert c.segs[0][c.offset..][n..] == c.segs[0][c.offset + n..];
      }
    }
  }

  /** One round of consumption that exhausts the first segment. */
  lemma AdvanceOver(c: Cursor, n: nat)
    requires Wf(c) && c.segs != [] && 0 < n && |c.segs[0]| - c.offset <= n
    ensures var rest := Cursor(c.segs[1..], 0);
            var available := |c.segs[0]| - c.offset;
            && Wf(rest)
            && Advance(c, n) == Advance(rest, n - available)
            && |Unread(c)| == available + |Unread(rest)|
  {
    UnreadAtStart(c.segs[1..]);
  }

  lemma AdvanceNothing(c: Cursor, n: nat)
    requires Wf(c) && (n == 0 || c.segs == [])
    ensures Advance(c, n) == c && (c.segs == [] ==> Unread(c) == [])
  {
  }

  /** One round of consumption that stays inside the first segment. */
  lemma AdvanceInside(c: Cursor, n: nat)
    requires Wf(c) && c.segs != [] && n < |c.segs[0]| - c.offset
    ensures Advance(c, n) == Cursor(c.segs, c.offset + n) && n < |Unread(c)|
  {
  }

  /** Consuming `a` then `b` bytes is consuming `a + b` bytes, for every segmentation. */
  lemma {:induction false} AdvanceComposes(c: Cursor, a: nat, b: nat)
    requires Wf(c)
    ensures Wf(Advance(c, a)) && Advance(Advance(c, a), b) == Advance(c, a + b)
    decreases |c.segs|
  {
    AdvanceDrops(c, a);
    if a != 0 && c.segs != [] {
      var available := |c.segs[0]| - c.offset;
      if a >= available {
        AdvanceComposes(Cursor(c.segs[1..], 0), a - available, b);
      }
    }
  }

  /** The segments left behind are a prefix: what remains is a suffix of the chain. */
  lemma {:induction false} AdvanceSuffix(c: Cursor, n: nat)
    requires Wf(c)
    ensures 0 <= Left(c, n) <= |c.segs|
    ensures Advance(c, n).segs == c.segs[Left(c, n)..]
    decreases |c.segs|
  {
    if n != 0 && c.segs != [] {
      var available := |c.segs[0]| - c.offset;
      if n >= available {
        AdvanceSuffix(Cursor(c.segs[1..], 0), n - available);
      }
    }
  }

  /** The stream position at which segment `j` starts. */
  function Start(segs: seq<seq<byte>>, j: nat): nat
    requires j <= |segs|
  {
    |Flatten(segs[..j])|
  }

  /**
   Which segments a request of `n > 0` bytes releases: exactly those that begin before the new
   position and end at or before it. An empty segment right at the new position is kept.
   */
  lemma {:induction false} ReleasedExactly(c: Cursor, n: nat, j: nat)
    requires Wf(c) && 0 < n && j < |c.segs|
    ensures j < Left(c, n) <==> Start(c.segs, j + 1) <= c.offset + n && Start(c.segs, j) < c.offset + n
    decreases |c.segs|
  {
    hide Flatten, Start;
    var available := |c.segs[0]| - c.offset;
    StartStep(c.segs, j);
    AdvanceSuffix(c, n);
    if n > available {
      var rest := Cursor(c.segs[1..], 0);
      AdvanceSuffix(rest, n - available);
      if j > 0 {
        ReleasedExactly(rest, n - available, j - 1);
      } else {
        FirstStart(c.segs, j);
      }
    } else {
      FirstStart(c.segs, j);
    }
  }

  lemma StartStep(segs: seq<seq<byte>>, j: nat)
    requires j < |segs|
    ensures Start(segs, j + 1) == |segs[0]| + Start(segs[1..], j)
    ensures 0 < j ==> Start(segs, j) == |segs[0]| + Start(segs[1..], j - 1)
    ensures Start(segs, 0) == 0
  {
    assert segs[..j + 1][1..] == segs[1..][..j];
    if 0 < j { assert segs[..j][1..] == segs[1..][..j - 1]; }
  }

  lemma FirstStart(segs: seq<seq<byte>>, j: nat)
    requires j < |segs|
    ensures j == 0 ==> Start(segs, 1) == |segs[0]|
    ensures 0 < j ==> |segs[0]| <= Start(segs, j)
  {
    StartStep(segs, j);
    if j == 0 { assert segs[..1][1..] == []; }
  }
}
