/** The send queue on the heap, between the writer and the wire: every run follows the machine. */
module Transmissions {
  import opened Wrappers
  import opened Sequences
  import opened Lwip
  import opened SendPlan
  import opened TcpWriting
  import opened TxMachine

  /** lwIP reads a piece's cells each time it transmits or retransmits it, until it is acknowledged. */
  class Transmission {
    const pcb: Pcb
    /** The application's arrays. */
    ghost const arrays: set<array<byte>>
    var sent: nat
    var acked: nat
    var wire: seq<byte>
    var resent: seq<Again>
    ghost var promised: seq<seq<byte>>
    ghost var calls: seq<Call>

    ghost predicate Valid()
      reads this, pcb
    {
      && acked <= sent <= |pcb.queue|
      && forall c | c in pcb.queue :: c.src in arrays && c.start + c.len <= c.src.Length
    }

    ghost function Mem(): Memory
      reads arrays
    {
      map a | a in arrays :: a[..]
    }

    ghost function View(): Tx
      reads this, pcb, arrays
    {
      Tx(Mem(), pcb.queue, pcb.sndbuf, sent, acked, wire, resent, promised, calls)
    }

    constructor (pcb: Pcb, ghost arrays: set<array<byte>>)
      requires pcb.queue == []
      ensures this.pcb == pcb && this.arrays == arrays && Valid() && Initial(View())
    {
      this.pcb, this.arrays, sent, acked, wire, resent, promised, calls := pcb, arrays, 0, 0, [], [], [], [];
    }

    /** A call of the writer, with lwIP's answers. */
    method Write(w: TcpWriter, data: array<byte>, base: nat, size: nat, outcomes: seq<int>) returns (n: nat)
      requires Valid() && w.pcb == pcb && data in arrays && base + size <= data.Length
      modifies pcb, this`promised, this`calls
      ensures Valid() && View() == Step(old(View()), Event.Write(data, base, size, outcomes))
      ensures |calls| > 0 && n == calls[|calls| - 1].result
    {
      hide Queued, Returned, Refs, Total, After, Calls, Held;
      ghost var space := pcb.sndbuf;
      ghost var more := Refs(data, base, Queued(size, space, outcomes));
      CallHolds(Mem(), data, base, size, space, outcomes);
      pcb.outcomes := outcomes;
      n := w.WriteData(data, base, size);
      promised := promised + HeldBy(Mem(), more);
      calls := calls + [Call(data[base..base + size], Total(Queued(size, space, outcomes)), n)];
    }

    /** The application stores into its memory. */
    method Store(data: array<byte>, i: nat, v: byte)
      requires Valid() && data in arrays && i < data.Length
      modifies data
      ensures Valid() && View() == Step(old(View()), Event.Store(data, i, v))
    {
      data[i] := v;
      assert data[..] == Stored(old(data[..]), i, v);
      assert Mem() == old(Mem())[data := Stored(old(data[..]), i, v)];
    }

    /** lwIP transmits the next piece, if there is one. */
    method Transmit()
      requires Valid()
      modifies this`sent, this`wire
      ensures Valid() && View() == Step(old(View()), Event.Transmit)
    {
      if sent < |pcb.queue| {
        var bytes := Read(sent);
        wire, sent := wire + bytes, sent + 1;
      }
    }

    /** lwIP transmits a piece again that is not acknowledged. */
    method Retransmit(k: nat)
      requires Valid()
      modifies this`resent
      ensures Valid() && View() == Step(old(View()), Event.Retransmit(k))
    {
      if acked <= k < sent {
        var bytes := Read(k);
        resent := resent + [Again(k, bytes)];
      }
    }

    /** The cells of a piece, as they are now. */
    method Read(k: nat) returns (bytes: seq<byte>)
      requires Valid() && k < |pcb.queue|
      ensures bytes == Held(Mem(), pcb.queue[k])
    {
      var c := pcb.queue[k];
      assert c in pcb.queue;
      bytes := c.src[c.start..c.start + c.len];
      assert bytes == c.src[..][c.start..c.start + c.len];
    }

    /** The peer acknowledges pieces, which frees their space. */
    method Acknowledge(n: nat)
      requires Valid()
      modifies this`acked, pcb`sndbuf
      ensures Valid() && View() == Step(old(View()), Event.Acknowledge(n))
    {
      if acked + n <= sent {
        pcb.sndbuf := pcb.sndbuf + Length(pcb.queue[acked..acked + n]);
        acked := acked + n;
      }
    }

    /** The events that concern the application's memory stay inside it. */
    ghost predicate Possible(e: Event) {
      && (e.Write? ==> e.data in arrays && e.base + e.size <= e.data.Length)
      && (e.Store? ==> e.data in arrays && e.i < e.data.Length)
    }

    method Apply(w: TcpWriter, e: Event)
      requires Valid() && w.pcb == pcb && Possible(e)
      modifies this, pcb, if e.Store? then {e.data} else {}
      ensures Valid() && View() == Step(old(View()), e)
    {
      hide TxMachine.Step;
      match e
      case Write(data, base, size, outcomes) =>
        var _ := Write(w, data, base, size, outcomes);
      case Store(data, i, v) => Store(data, i, v);
      case Transmit => Transmit();
      case Retransmit(k) => Retransmit(k);
      case Acknowledge(n) => Acknowledge(n);
    }

    /** Every run of the writer, the application and lwIP, in any interleaving, is a run of the machine. */
    method Play(w: TcpWriter, es: seq<Event>)
      requires Valid() && w.pcb == pcb && forall e | e in es :: Possible(e)
      modifies this, pcb, arrays
      ensures Valid() && View() == Run(old(View()), es)
      decreases |es|
    {
      hide TxMachine.Step, View;
      if es != [] {
        assert es[0] in es;
        Apply(w, es[0]);
        Play(w, es[1..]);
      }
    }
  }

  /**
   From a new connection: as long as no store changes a cell of an unacknowledged piece, what goes out is the data
   of the calls as it was at the time of the call.
   */
  method PlayFaithfully(pcb: Pcb, ghost arrays: set<array<byte>>, es: seq<Event>) returns (t: Transmission)
    requires pcb.queue == []
    requires forall e | e in es :: (e.Write? ==> e.data in arrays && e.base + e.size <= e.data.Length)
                                   && (e.Store? ==> e.data in arrays && e.i < e.data.Length)
    requires Undisturbed(Tx(map a | a in arrays :: a[..], [], pcb.sndbuf, 0, 0, [], [], [], []), es)
    modifies pcb, arrays
    ensures fresh(t) && t.Valid() && forall c | c in t.calls :: CallOk(c)
    ensures t.wire <= StreamOf(t.calls) && (t.sent == |pcb.queue| ==> t.wire == StreamOf(t.calls))
    ensures (forall c | c in t.calls :: c.result == |c.data|) ==> t.wire <= DataOf(t.calls)
  {
    t := new Transmission(pcb, arrays);
    var w := new TcpWriter(pcb);
    Faithful(t.View(), es);
    t.Play(w, es);
  }
}
