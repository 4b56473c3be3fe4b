/** The client and its connection context as objects: what each call does to them and to the PCB. */
module TcpClients {
  import opened Wrappers
  import opened RefGraph
  import opened PbufMemory
  import opened RxBuffer
  import opened TcpWriting
  import opened Lwip
  import opened SendPlan
  import Rx = RxMachine
  import Life = Lifecycle

  ghost function ViewsOf(ps: seq<Pcb>): (s: seq<PcbView>)
    reads ps
    ensures |s| == |ps| && forall i | 0 <= i < |ps| :: s[i] == ps[i].View()
  {
    if ps == [] then [] else ViewsOf(ps[..|ps| - 1]) + [ps[|ps| - 1].View()]
  }

  ghost function StatesOf(ps: seq<Pcb>): (s: seq<nat>)
    reads ps
    ensures |s| == |ps| && forall i | 0 <= i < |ps| :: s[i] == ps[i].state
  {
    if ps == [] then [] else StatesOf(ps[..|ps| - 1]) + [ps[|ps| - 1].state]
  }

  /** lwIP and the state all clients share: the PCBs allocated so far and the local port counter. */
  class Stack {
    const pool: PbufPool
    ghost var pcbs: seq<Pcb>
    var count: nat
    var localPort: nat

    ghost predicate Valid()
      reads this
    {
      count == |pcbs| && localPort <= 0xFFFF && forall i | 0 <= i < |pcbs| :: pcbs[i].id == i
    }

    ghost function Views(): seq<PcbView>
      reads this, pcbs
    {
      ViewsOf(pcbs)
    }

    ghost function States(): seq<nat>
      reads this, pcbs
    {
      StatesOf(pcbs)
    }

    /** All views after one PCB has changed. */
    lemma OneChanged(views: seq<PcbView>, p: Pcb)
      requires Valid() && p.id < |pcbs| == |views| && pcbs[p.id] == p
      requires forall j | 0 <= j < |pcbs| && pcbs[j] != p :: pcbs[j].View() == views[j]
      ensures Views() == views[p.id := p.View()]
    {
    }

    /** All views and states after a PCB was allocated. */
    lemma OneAdded(views: seq<PcbView>, states: seq<nat>)
      requires |pcbs| == |views| + 1 == |states| + 1
      requires forall j | 0 <= j < |views| :: pcbs[j].View() == views[j] && pcbs[j].state == states[j]
      ensures Views() == views + [pcbs[|views|].View()] && States() == states + [pcbs[|views|].state]
    {
    }

    lemma NoneChanged(views: seq<PcbView>)
      requires |pcbs| == |views| && forall j | 0 <= j < |pcbs| :: pcbs[j].View() == views[j]
      ensures Views() == views
    {
    }

    lemma StatesKept(states: seq<nat>)
      requires |pcbs| == |states| && forall j | 0 <= j < |pcbs| :: pcbs[j].state == states[j]
      ensures States() == states
    {
    }

    constructor (pool: PbufPool)
      ensures Valid() && this.pool == pool && pcbs == [] && localPort == 0
    {
      this.pool, pcbs, count, localPort := pool, [], 0, 0;
    }

    /** setLocalPortStart */
    method SetLocalPortStart(port: nat)
      requires Valid() && port <= 0xFFFF
      modifies this`localPort
      ensures Valid() && localPort == port
    {
      localPort := port;
    }

    /** tcp_new, given whether lwIP has a PCB to spare. */
    method TcpNew(available: bool) returns (p: Pcb?)
      requires Valid()
      modifies this`pcbs, this`count
      ensures Valid() && (p == null <==> !available)
      ensures !available ==> pcbs == old(pcbs)
      ensures p != null ==> fresh(p) && pcbs == old(pcbs) + [p] && p.id == |old(pcbs)|
      ensures p != null ==> p.View() == NEW_PCB && p.recved == [] && p.queue == []
      ensures p != null ==> p.state == CLOSED
    {
      if !available {
        return null;
      }
      p := new Pcb(count);
      pcbs, count := pcbs + [p], count + 1;
    }
  }

  class TcpClientContext {
    var pcb: Pcb?
    var rx: IoRxBuffer?
    var tx: TcpWriter?

    /**
     The receive buffer is in order, buffer and writer are bound to the PCB the context was made for, unread bytes
     can be acknowledged, and a context without PCB has nothing queued.
     */
    ghost predicate Valid(pool: PbufPool)
      reads this, rx, tx, pool, pool.mem.next.Keys
    {
      && rx != null && tx != null && tx.pcb != null
      && rx.pool == pool && rx.Valid() && rx.Knows() && rx.conn == tx.pcb
      && (pcb != null ==> pcb == tx.pcb) && (pcb == null ==> rx.chain == [])
    }

    lemma Parts(pool: PbufPool)
      requires Valid(pool)
      ensures rx != null && tx != null && tx.pcb != null
      ensures rx.pool == pool && rx.Valid() && rx.conn == tx.pcb && rx.Knows()
      ensures (pcb != null ==> pcb == tx.pcb) && (pcb == null ==> rx.chain == []) && pool.Valid()
    {
    }

    ghost function Own(): set<Pcb>
      reads this
    {
      if pcb == null then {} else {pcb}
    }

    /** Take a PCB over: register every callback and create the receive buffer and the writer. */
    constructor (pcb: Pcb, pool: PbufPool)
      requires pool.Valid()
      modifies pcb`handlers
      ensures Valid(pool) && fresh(rx) && fresh(tx) && this.pcb == pcb && tx.pcb == pcb
      ensures rx.chain == [] && rx.View() == Rx.Init([]).(acks := pcb.recved)
      ensures pcb.View() == old(pcb.View()).(handlers := ATTACHED) && AllHandlers(pcb.handlers)
    {
      hide PbufPool.Valid;
      this.pcb := pcb;
      rx, tx := null, null;
      new;
      Attach();
      assert Owns(pool.mem, []);
      rx := new IoRxBuffer(pool, pcb, null, []);
      tx := new TcpWriter(pcb);
    }

    /** Register every callback. */
    method Attach()
      requires pcb != null
      modifies pcb`handlers
      ensures pcb.View() == old(pcb.View()).(handlers := ATTACHED)
    {
      pcb.handlers := pcb.handlers.(arg := true);
      pcb.handlers := pcb.handlers.(recv := true);
      pcb.handlers := pcb.handlers.(sent := true);
      pcb.handlers := pcb.handlers.(err := true);
      pcb.handlers := pcb.handlers.(poll := true);
    }

    /** Deregister every callback. */
    method Detach()
      requires pcb != null
      modifies pcb`handlers, pcb`misused
      ensures pcb.View() == Used(old(pcb.View())).(handlers := DETACHED)
    {
      pcb.Touch();
      pcb.handlers := pcb.handlers.(arg := false);
      pcb.handlers := pcb.handlers.(sent := false);
      pcb.handlers := pcb.handlers.(recv := false);
      pcb.handlers := pcb.handlers.(err := false);
      pcb.handlers := pcb.handlers.(poll := false);
    }

    /**
     Close the connection: pending data is released, callbacks are deregistered, and the PCB is released
     exactly once, by tcp_close or, if that fails, by tcp_abort. The writer keeps its own PCB pointer.
     */
    method Close(pool: PbufPool, answer: int) returns (err: int)
      requires Valid(pool)
      modifies this`pcb, Own()`handlers, Own()`ends, Own()`releases, Own()`misused,
        rx, pool, pool.mem.next.Keys
      ensures Valid(pool) && pool.Valid() && pcb == null && rx.chain == []
      ensures Moved(old(pool.mem), pool.mem, old(rx.chain), [])
      ensures old(pcb) == null ==> err == ERR_OK && rx.View() == old(rx.View())
      ensures old(pcb) != null ==>
                && err == (if answer == ERR_OK then ERR_OK else ERR_ABRT)
                && old(pcb).View() == Life.Released(old(pcb.View()), answer)
                && rx.View() == Rx.Step(old(rx.View()), Rx.Reset)
                && ClosedBy(old(pcb.ends), old(pcb).View(), answer)
    {
      hide Moved, Rx.Step, Owns, PbufPool.Valid, IoRxBuffer.Valid, IoRxBuffer.Queue,
        Life.Released, ClosedBy;
      Parts(pool);
      err := ERR_OK;
      if pcb != null {
        ghost var m, chain := pool.mem, rx.chain;
        rx.Reset();
        rx.NothingQueued();
        rx.PoolValid();
        MovedKeys(m, pool.mem, chain, []);
        rx.NotCells();
        err := CloseOrAbort(answer);
        pcb := null;
      } else {
        MovedEmpty(pool.mem);
      }
    }

    /** Deregister the callbacks, then tcp_close, then tcp_abort if that failed. */
    method CloseOrAbort(answer: int) returns (err: int)
      requires pcb != null
      modifies pcb`handlers, pcb`ends, pcb`releases, pcb`misused
      ensures err == (if answer == ERR_OK then ERR_OK else ERR_ABRT)
      ensures pcb.View() == Life.Released(old(pcb.View()), answer) && ClosedBy(old(pcb.ends), pcb.View(), answer)
    {
      Detach();
      err := pcb.TcpClose(answer);
      if err != ERR_OK {
        pcb.TcpAbort();
        err := ERR_ABRT;
      }
    }

    /** Deregister the callbacks, then tcp_abort. */
    method DropConnection()
      requires pcb != null
      modifies pcb`handlers, pcb`ends, pcb`releases, pcb`misused
      ensures pcb.View() == Life.Aborted(old(pcb.View()))
    {
      Detach();
      pcb.TcpAbort();
    }

    /** Abort the connection: as a close, but by tcp_abort alone. */
    method Abort(pool: PbufPool) returns (err: int)
      requires Valid(pool)
      modifies this`pcb, Own()`handlers, Own()`ends, Own()`releases, Own()`misused,
        rx, pool, pool.mem.next.Keys
      ensures Valid(pool) && pool.Valid() && pcb == null && rx.chain == [] && err == ERR_ABRT
      ensures Moved(old(pool.mem), pool.mem, old(rx.chain), [])
      ensures old(pcb) == null ==> rx.View() == old(rx.View())
      ensures old(pcb) != null ==>
                && old(pcb).View() == Life.Aborted(old(pcb.View()))
                && rx.View() == Rx.Step(old(rx.View()), Rx.Reset)
                && NoHandlers(old(pcb).handlers) && |old(pcb).ends| == |old(pcb.ends)| + 1
                && old(pcb.ends) <= old(pcb).ends && old(pcb).ends[|old(pcb.ends)|].AbortCall?
    {
      hide Moved, Rx.Step, Owns, PbufPool.Valid, IoRxBuffer.Valid, IoRxBuffer.Queue;
      Parts(pool);
      if pcb != null {
        ghost var m, chain := pool.mem, rx.chain;
        rx.Reset();
        rx.NothingQueued();
        rx.PoolValid();
        MovedKeys(m, pool.mem, chain, []);
        rx.NotCells();
        DropConnection();
        pcb := null;
      } else {
        MovedEmpty(pool.mem);
      }
      err := ERR_ABRT;
    }

    /** The destructor: pending data is released, and the buffer and the writer go. The PCB is left alone. */
    method Destroy(pool: PbufPool)
      requires Valid(pool)
      modifies this`rx, this`tx, rx, pool, pool.mem.next.Keys
      ensures rx == null && tx == null && pool.Valid()
      ensures Moved(old(pool.mem), pool.mem, old(rx.chain), [])
      ensures old(rx.chain) == [] ==> pool.mem == old(pool.mem)
    {
      hide Rx.Step, Owns, Moved, PbufPool.Valid;
      rx.Reset();
      rx.NotCells();
      rx, tx := null, null;
    }

    /** What status() shows: a PCB that cannot be written to counts as closed. */
    function State(): (st: nat)
      reads this, pcb
      ensures st == CLOSED <==> pcb == null || pcb.state in {CLOSED, CLOSE_WAIT, CLOSING}
      ensures st != CLOSED ==> pcb != null && st == pcb.state
    {
      if pcb == null || pcb.state == CLOSE_WAIT || pcb.state == CLOSING then CLOSED else pcb.state
    }
  }

  /**
   Closing does not reach the writer, which keeps its PCB: a write after a close follows the pointer to the
   released PCB exactly when there is something to send.
   */
  method WriteAfterClose(ctx: TcpClientContext, pool: PbufPool, answer: int, data: array?<byte>, base: nat, size: nat)
    returns (n: nat)
    requires ctx.Valid(pool) && ctx.pcb != null && (data != null ==> base + size <= data.Length)
    modifies ctx`pcb, ctx.pcb, ctx.rx, pool, pool.mem.next.Keys
    ensures ctx.pcb == null
    ensures var p := Life.Released(old(ctx.pcb.View()), answer);
            old(ctx.pcb).View() == if data == null || size == 0 then p else Used(p)
    ensures !Dead(old(ctx.pcb.View())) && !old(ctx.pcb.misused) ==>
              (old(ctx.pcb).misused <==> data != null && size > 0)
  {
    hide TcpClientContext.Valid, PbufPool.Valid, IoRxBuffer.View, Moved, Rx.Step, Queued, Total, Refs, After,
      Calls;
    ctx.Parts(pool);
    var tx: TcpWriter := ctx.tx;
    var _ := ctx.Close(pool, answer);
    n := tx.WriteData(data, base, size);
  }

  lemma NotStopped(s: Life.Slice, answer: int)
    requires Life.SliceOk(s) && s.ctx.None?
    ensures Life.Stop(s, answer) == (s, true)
  {
  }

  lemma Stopped(s: Life.Slice, s': Life.Slice, answer: int)
    requires Life.SliceOk(s) && s.ctx.Some? && s'.localPort == s.localPort
    requires s'.ctx == Some(Life.Ctx(None, s.ctx.value.tx))
    requires s'.pcbs == if s.ctx.value.pcb.None? then s.pcbs
                        else s.pcbs[s.ctx.value.pcb.value := Life.Released(s.pcbs[s.ctx.value.pcb.value], answer)]
    ensures Life.Stop(s, answer) == (s', s.ctx.value.pcb.None? || answer == ERR_OK)
  {
  }

  lemma NotConnected(s: Life.Slice, available: bool, answer: int)
    requires s.ctx.Some? || !available
    ensures Life.Connect(s, available, answer) ==
            (s, if s.ctx.Some? then Life.PICO_ERROR_RESOURCE_IN_USE else Life.PICO_ERROR_IO)
  {
  }

  lemma Connected(s: Life.Slice, s': Life.Slice, answer: int)
    requires s.ctx.None? && s'.localPort == Life.NextPort(s.localPort)
    requires s'.pcbs == s.pcbs + [Life.Allocated(s.localPort, answer)]
    requires s'.ctx == if answer == ERR_OK then Some(Life.Ctx(Some(|s.pcbs|), |s.pcbs|)) else None
    ensures Life.Connect(s, true, answer) == (s', answer)
  {
  }

  class TcpClient {
    const stack: Stack
    var ctx: TcpClientContext?

    /** A context is made for a PCB of this stack. */
    ghost predicate Valid()
      reads this, stack, stack.pool, stack.pool.mem.next.Keys, ctx, if ctx != null then {ctx.rx, ctx.tx} else {}
    {
      && stack.Valid() && stack.pool.Valid()
      && (ctx != null ==>
            && ctx.Valid(stack.pool)
            && ctx.tx.pcb.id < |stack.pcbs| && stack.pcbs[ctx.tx.pcb.id] == ctx.tx.pcb)
    }

    ghost function CtxView(): Life.CtxView
      reads this, ctx, if ctx != null then {ctx.tx} else {}
    {
      if ctx == null then None
      else Some(Life.Ctx(if ctx.pcb == null then None else Some(ctx.pcb.id),
                         if ctx.tx == null || ctx.tx.pcb == null then 0 else ctx.tx.pcb.id))
    }

    ghost function View(): Life.Slice
      reads this, ctx, stack, stack.pcbs, if ctx != null then {ctx.tx} else {}
    {
      Life.Slice(CtxView(), stack.Views(), stack.localPort)
    }

    /** The pbufs the client has queued. */
    ghost function Chain(): seq<Pbuf>
      reads this, ctx, if ctx != null then {ctx.rx} else {}
    {
      if ctx == null || ctx.rx == null then [] else ctx.rx.chain
    }

    /** The client's context holds a PCB. */
    ghost predicate Holding()
      reads this, ctx
    {
      ctx != null && ctx.pcb != null
    }

    /** The bytes the client can read. */
    ghost function Queue(): seq<byte>
      reads this, ctx, if ctx != null then {ctx.rx} else {}
    {
      if ctx == null || ctx.rx == null then [] else ctx.rx.Queue()
    }

    lemma CellsApart()
      ensures forall q | q in stack.pool.mem.next :: q as object != stack && q as object != this && q as object != ctx
      ensures ctx != null ==> forall q | q in stack.pool.mem.next :: q as object != ctx.pcb
    {
    }

    lemma PcbPlaced()
      requires Valid()
      ensures stack.Valid()
      ensures ctx != null && ctx.pcb != null ==> ctx.pcb.id < |stack.pcbs| && stack.pcbs[ctx.pcb.id] == ctx.pcb
    {
      hide PbufPool.Valid, IoRxBuffer.Valid;
    }

    lemma ViewsAre()
      ensures |stack.Views()| == |stack.States()| == |stack.pcbs|
      ensures forall j | 0 <= j < |stack.pcbs| ::
                stack.pcbs[j].View() == stack.Views()[j] && stack.pcbs[j].state == stack.States()[j]
    {
    }

    lemma ViewOk()
      requires Valid()
      ensures Life.SliceOk(View())
    {
    }

    constructor (stack: Stack)
      requires stack.Valid() && stack.pool.Valid()
      ensures Valid() && this.stack == stack && ctx == null
    {
      this.stack := stack;
      ctx := null;
    }

    /**
     `_ts_connect`, given whether lwIP has a PCB to spare and what tcp_connect answers. No pbuf is involved, and
     no PCB but the new one.
     */
    method TsConnect(available: bool, answer: int) returns (r: int)
      requires Valid()
      modifies this`ctx, stack`pcbs, stack`count, stack`localPort, stack.pool, stack.pool.mem.next.Keys
      ensures Valid() && (View(), r) == Life.Connect(old(View()), available, answer)
      ensures stack.States() == if old(ctx) != null || !available then old(stack.States())
                                else old(stack.States()) + [if answer == ERR_OK then SYN_SENT else CLOSED]
      ensures stack.pool.mem == old(stack.pool.mem) && Chain() == old(Chain())
      ensures old(stack.pcbs) <= stack.pcbs && fresh(set p | p in stack.pcbs[|old(stack.pcbs)|..])
      ensures old(ctx) != null ==> ctx == old(ctx) && r == Life.PICO_ERROR_RESOURCE_IN_USE
      ensures old(ctx) == null && !available ==> ctx == null && r == Life.PICO_ERROR_IO
      ensures old(ctx) == null && available ==>
                && r == (if answer == ERR_OK then Life.PICO_OK else answer) && (ctx != null <==> answer == ERR_OK)
                && |stack.pcbs| == |old(stack.pcbs)| + 1
                && AllHandlers(stack.pcbs[|old(stack.pcbs)|].handlers)
                && stack.pcbs[|old(stack.pcbs)|].localPort == old(stack.localPort)
                && (ctx != null ==> ctx.pcb == ctx.tx.pcb == stack.pcbs[|old(stack.pcbs)|])
                && stack.localPort == if old(stack.localPort) in {0, 0xFFFF} then 0 else old(stack.localPort) + 1
      ensures old(ctx) != null || !available ==>
                stack.pcbs == old(stack.pcbs) && stack.localPort == old(stack.localPort)
      ensures old(ctx) == null && ctx != null ==> fresh(ctx) && fresh(ctx.rx) && fresh(ctx.tx) && fresh(ctx.tx.pcb)
    {
      hide TcpClientContext.Valid, PbufPool.Valid, Stack.Views, Stack.States, Life.Connect;
      ghost var s, views, states := View(), stack.Views(), stack.States();
      ViewsAre();
      if ctx != null {
        NotConnected(s, available, answer);
        return Life.PICO_ERROR_RESOURCE_IN_USE;
      }
      var pcb := Allocate(available);
      if pcb == null {
        stack.NoneChanged(views);
        stack.StatesKept(states);
        NotConnected(s, available, answer);
        return Life.PICO_ERROR_IO;
      }
      r := Open(pcb, answer);
      stack.OneAdded(views, states);
      Connected(s, View(), answer);
    }

    /** A PCB with the next explicit local port, if there is one. */
    method Allocate(available: bool) returns (pcb: Pcb?)
      requires stack.Valid() && stack.pool.Valid()
      modifies stack`pcbs, stack`count, stack`localPort
      ensures stack.Valid() && stack.pool.Valid() && (pcb == null <==> !available)
      ensures pcb == null ==> stack.localPort == old(stack.localPort) && stack.pcbs == old(stack.pcbs)
      ensures pcb != null ==>
                && fresh(pcb) && pcb.id == |old(stack.pcbs)| && stack.pcbs == old(stack.pcbs) + [pcb]
                && stack.localPort == Life.NextPort(old(stack.localPort)) && pcb.state == CLOSED
                && pcb.View() == NEW_PCB.(port := old(stack.localPort))
    {
      hide PbufPool.Valid;
      CellsApart();
      pcb := stack.TcpNew(available);
      if pcb == null {
        return;
      }
      if stack.localPort > 0 {
        pcb.localPort := stack.localPort;
        stack.localPort := (stack.localPort + 1) % 0x10000;
      }
    }

    /** Put a context around a new PCB and connect; a context whose connect fails is deleted at once. */
    method Open(pcb: Pcb, answer: int) returns (r: int)
      requires Valid() && ctx == null && pcb.id == |stack.pcbs| - 1 && stack.pcbs[pcb.id] == pcb
      modifies this`ctx, pcb, stack.pool, stack.pool.mem.next.Keys
      ensures Valid() && r == answer && stack.pool.mem == old(stack.pool.mem)
      ensures ctx == null <==> answer != ERR_OK
      ensures ctx != null ==> NewFor(pcb) && fresh(ctx) && fresh(ctx.rx) && fresh(ctx.tx)
      ensures pcb.View() == old(pcb.View()).(handlers := ATTACHED, connected := answer == ERR_OK)
      ensures pcb.state == if answer == ERR_OK then SYN_SENT else old(pcb.state)
    {
      hide PbufPool.Valid, TcpClientContext.Valid, Moved;
      Wrap(pcb);
      CellsApart();
      r := pcb.TcpConnect(answer);
      if r != ERR_OK {
        DeleteContext();
      }
    }

    /** The client has a context for a PCB, with nothing received yet. */
    ghost predicate NewFor(p: Pcb)
      reads this, ctx, if ctx != null then {ctx.rx, ctx.tx} else {}
    {
      ctx != null && ctx.pcb == p && ctx.tx != null && ctx.tx.pcb == p && ctx.rx != null && ctx.rx.chain == []
    }

    method Wrap(pcb: Pcb)
      requires Valid() && ctx == null && pcb.id == |stack.pcbs| - 1 && stack.pcbs[pcb.id] == pcb
      modifies this`ctx, pcb`handlers
      ensures Valid() && NewFor(pcb) && fresh(ctx) && fresh(ctx.rx) && fresh(ctx.tx)
      ensures pcb.View() == old(pcb.View()).(handlers := ATTACHED)
    {
      hide PbufPool.Valid, TcpClientContext.Valid, IoRxBuffer.View;
      CellsApart();
      ctx := new TcpClientContext(pcb, stack.pool);
    }

    /** Delete the context, which leaves its PCB alone. */
    method DeleteContext()
      requires Valid() && ctx != null
      modifies this`ctx, ctx, ctx.rx, stack.pool, stack.pool.mem.next.Keys
      ensures Valid() && ctx == null
      ensures Moved(old(stack.pool.mem), stack.pool.mem, old(Chain()), [])
      ensures old(Chain()) == [] ==> stack.pool.mem == old(stack.pool.mem)
    {
      hide PbufPool.Valid, IoRxBuffer.Valid, Moved;
      ctx.Destroy(stack.pool);
      CellsApart();
      ctx := null;
    }

    /** `stop`, given what tcp_close answers: the context stays, without its PCB. */
    method Stop(answer: int) returns (ok: bool)
      requires Valid()
      modifies ctx, stack.pool, stack.pool.mem.next.Keys, if ctx != null then {ctx.pcb, ctx.rx} else {}
      ensures Valid() && ctx == old(ctx) && (ctx != null ==> ctx.rx == old(ctx.rx) && ctx.tx == old(ctx.tx))
      ensures Moved(old(stack.pool.mem), stack.pool.mem, old(Chain()), []) && Chain() == []
      ensures Life.SliceOk(old(View())) && (View(), ok) == Life.Stop(old(View()), answer)
      ensures ok <==> old(ctx) == null || old(ctx.pcb) == null || answer == ERR_OK
      ensures old(ctx) != null && old(ctx.pcb) != null ==> ClosedBy(old(ctx.pcb.ends), old(ctx.pcb).View(), answer)
      ensures stack.States() == old(stack.States())
    {
      hide Moved, TcpClientContext.Valid, PbufPool.Valid, IoRxBuffer.Valid, ViewsOf, StatesOf, Life.Released,
        Life.Stop, Stack.Valid, ClosedBy;
      ghost var s := View();
      ViewOk();
      if ctx == null {
        MovedNowhere(stack.pool.mem, []);
        NotStopped(s, answer);
        return true;
      }
      ctx.Parts(stack.pool);
      ok := StopOpen(answer);
      Stopped(s, View(), answer);
    }

    method StopOpen(answer: int) returns (ok: bool)
      requires Valid() && ctx != null && Life.SliceOk(View())
      modifies ctx`pcb, stack.pool, stack.pool.mem.next.Keys
      modifies ctx.Own()`handlers, ctx.Own()`ends, ctx.Own()`releases, ctx.Own()`misused, ctx.rx
      ensures Valid() && Chain() == [] && ctx.pcb == null
      ensures Moved(old(stack.pool.mem), stack.pool.mem, old(Chain()), [])
      ensures stack.States() == old(stack.States())
      ensures var views := old(stack.Views());
              stack.Views() == if old(ctx.pcb) == null then views
                               else views[old(ctx.pcb.id) := Life.Released(views[old(ctx.pcb.id)], answer)]
      ensures ok == (old(ctx.pcb) == null || answer == ERR_OK)
      ensures old(ctx.pcb) != null ==> ClosedBy(old(ctx.pcb.ends), old(ctx.pcb).View(), answer)
    {
      hide Moved, Valid, Stack.Valid, Stack.Views, Stack.States, Life.Released, Chain, ClosedBy;
      ghost var views, states := stack.Views(), stack.States();
      PcbPlaced();
      ViewsAre();
      ghost var pcb := ctx.pcb;
      ok := CloseContext(answer);
      PcbPlaced();
      stack.StatesKept(states);
      if pcb != null { stack.OneChanged(views, pcb); } else { stack.NoneChanged(views); }
    }

    method CloseContext(answer: int) returns (ok: bool)
      requires Valid() && ctx != null
      modifies ctx`pcb, stack.pool, stack.pool.mem.next.Keys
      modifies ctx.Own()`handlers, ctx.Own()`ends, ctx.Own()`releases, ctx.Own()`misused, ctx.rx
      ensures Valid() && Chain() == [] && ctx.pcb == null
      ensures Moved(old(stack.pool.mem), stack.pool.mem, old(Chain()), [])
      ensures old(ctx.pcb) == null ==> ok
      ensures old(ctx.pcb) != null ==>
                && ok == (answer == ERR_OK) && old(ctx.pcb).View() == Life.Released(old(ctx.pcb.View()), answer)
                && ClosedBy(old(ctx.pcb.ends), old(ctx.pcb).View(), answer)
    {
      hide PbufPool.Valid, IoRxBuffer.View, IoRxBuffer.Valid, Moved, Rx.Step, Life.Released, TcpClientContext.Valid,
        ClosedBy;
      ctx.Parts(stack.pool);
      var err := ctx.Close(stack.pool, answer);
      ok := err == ERR_OK;
    }

    /** `shutdown`: stop, then delete the context. */
    method Shutdown(answer: int) returns (ok: bool)
      requires Valid()
      modifies this`ctx, ctx, stack.pool, stack.pool.mem.next.Keys, if ctx != null then {ctx.pcb, ctx.rx} else {}
      ensures Valid() && ctx == null
      ensures Moved(old(stack.pool.mem), stack.pool.mem, old(Chain()), [])
      ensures Life.SliceOk(old(View())) && (View(), ok) == Life.Shutdown(old(View()), answer)
      ensures ok <==> old(ctx) == null || old(ctx.pcb) == null || answer == ERR_OK
      ensures old(ctx) != null && old(ctx.pcb) != null ==> ClosedBy(old(ctx.pcb.ends), old(ctx.pcb).View(), answer)
      ensures stack.States() == old(stack.States())
    {
      hide Valid, Stack.Views, Stack.States, Life.Stop, Moved, ClosedBy;
      ghost var m, chain := stack.pool.mem, Chain();
      ok := Stop(answer);
      MovedKeys(m, stack.pool.mem, chain, []);
      if ctx != null {
        DeleteContext();
      }
    }

    function Status(): nat
      reads this, ctx, if ctx != null then {ctx.pcb} else {}
    {
      if ctx == null then CLOSED else ctx.State()
    }

    /** `_ts_status`: it follows the PCB pointer, if there is one. */
    method TsStatus() returns (v: nat)
      requires Valid()
      modifies (if ctx != null then ctx.Own() else {})`misused
      ensures Valid() && v == old(Status()) && stack.States() == old(stack.States())
      ensures v == CLOSED <==>
              old(ctx) == null || old(ctx.pcb) == null || old(ctx.pcb.state) in {CLOSED, CLOSE_WAIT, CLOSING}
      ensures v != CLOSED ==> v == old(ctx.pcb.state)
      ensures Life.SliceOk(old(View())) && View() == Life.Access(old(View()))
      ensures stack.pool.mem == old(stack.pool.mem) && Chain() == old(Chain())
    {
      hide PbufPool.Valid, IoRxBuffer.Valid;
      ghost var views := stack.Views();
      ViewOk();
      CellsApart();
      if ctx != null && ctx.pcb != null {
        ctx.pcb.Touch();
        assert stack.Views() == views[ctx.pcb.id := Used(views[ctx.pcb.id])];
      }
      v := Status();
    }
  }
}
