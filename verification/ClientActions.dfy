/**
 What can happen to a client, as a machine over the lifecycle and the bytes each client can read, and as calls on
 the objects of one client.
 */
module ClientActions {
  import opened Wrappers
  import opened Sequences
  import opened RefGraph
  import opened PbufMemory
  import opened ByteQueue
  import opened RxBuffer
  import opened Sharing
  import opened TcpWriting
  import opened Lwip
  import opened SendPlan
  import opened TcpClients
  import RxRuns
  import Rx = RxMachine
  import Life = Lifecycle

  datatype Action =
    | Connect(c: nat, available: bool, answer: int)
    | Stop(c: nat, answer: int)
    | Shutdown(c: nat, answer: int)
    | Status(c: nat)
      /** lwIP delivers data, a FIN or an error to the PCB of a client, whose handler may read and reset at once. */
    | Arrive(c: nat, segs: seq<seq<byte>>, err: int, handler: seq<Rx.Event>)
    | Read(c: nat, n: nat)
      /** The application writes, with the free space and lwIP's answers at that time. */
    | Write(c: nat, data: array?<byte>, base: nat, size: nat, space: nat, outcomes: seq<int>)
      /** The application asks the writer how much of a request it advises to send, or whether it can send at all. */
    | Advise(c: nat, size: nat)
    | CanWrite(c: nat)
      /** lwIP gives up the PCB that a client holds. */
    | Fail(c: nat)
      /** The client object is destroyed and made anew. */
    | Destroy(c: nat)
    | SetPort(port: nat)

  predicate Possible(a: Action) {
    && (a.Arrive? ==> forall e | e in a.handler :: !e.Callback?)
    && (a.Write? && a.data != null ==> a.base + a.size <= a.data.Length)
  }

  // ---------------------------------------------------------------- the machine

  /** The clients, PCBs and ports, and the unread bytes of every client. */
  datatype Net = Net(world: Life.World, queues: seq<seq<byte>>)

  /** What an action means for the receive buffer of a client, `held` saying that its context holds a PCB. */
  function RxEvents(a: Action, held: bool): seq<Rx.Event> {
    match a
    case Arrive(_, segs, err, handler) =>
      if held then [Rx.Callback(segs, err)] + if err == ERR_OK then handler else [] else []
    case Read(_, n) => [Rx.Consume(n)]
    case Stop(_, _) => [Rx.Reset]
    case Shutdown(_, _) => [Rx.Reset]
    case Destroy(_) => [Rx.Reset]
    case _ => []
  }

  /**
   The lifecycle event that an action amounts to when `q` is unread: a read or a handler follows the PCB pointer
   once for each call of tcp_recved.
   */
  function EventOf(a: Action, q: seq<byte>, held: bool): Life.Event {
    match a
    case Connect(c, available, answer) => Life.ConnectE(c, available, answer)
    case Stop(c, answer) => Life.StopE(c, answer)
    case Shutdown(c, answer) => Life.ShutdownE(c, answer)
    case Status(c) => Life.StatusE(c)
    case Arrive(c, _, _, _) => Life.ReadE(c, Rx.AckCalls(q, RxEvents(a, held)))
    case Read(c, _) => Life.ReadE(c, Rx.AckCalls(q, RxEvents(a, held)))
    case Write(c, data, _, size, _, _) => Life.WriteE(c, if data == null then 0 else size)
    case Advise(c, _) => Life.AdviseE(c)
    case CanWrite(c) => Life.AdviseE(c)
    case Fail(c) => Life.ErrorE(c)
    case Destroy(c) => Life.DestroyE(c)
    case SetPort(port) => Life.SetPortE(port)
  }

  predicate HoldsPcb(s: Life.Slice) {
    s.ctx.Some? && s.ctx.value.pcb.Some?
  }

  /** A client and its unread bytes after an action. */
  function After(s: Life.Slice, q: seq<byte>, a: Action): (Life.Slice, seq<byte>)
    requires Life.SliceOk(s)
  {
    (Life.Local(s, EventOf(a, q, HoldsPcb(s))), Rx.QueueRun(q, RxEvents(a, HoldsPcb(s))))
  }

  ghost predicate Fits(net: Net, a: Action) {
    Life.Wf(net.world) && (!a.SetPort? ==> a.c < |net.queues|)
  }

  /** The lifecycle event of an action in the current state. */
  ghost function Label(net: Net, a: Action): Life.Event
    requires Fits(net, a)
  {
    if a.SetPort? then Life.SetPortE(a.port)
    else EventOf(a, net.queues[a.c], HoldsPcb(Life.SliceOf(net.world, a.c)))
  }

  ghost function NetStep(net: Net, a: Action): (r: Net)
    requires Fits(net, a)
    ensures Life.Wf(r.world) && |r.queues| == |net.queues|
  {
    Life.StepWf(net.world, Label(net, a));
    Net(Life.Step(net.world, Label(net, a)),
        if a.SetPort? then net.queues
        else net.queues[a.c := Rx.QueueRun(net.queues[a.c], RxEvents(a, HoldsPcb(Life.SliceOf(net.world, a.c))))])
  }

  ghost predicate AllFit(net: Net, actions: seq<Action>) {
    Life.Wf(net.world) && forall a | a in actions :: !a.SetPort? ==> a.c < |net.queues|
  }

  ghost function NetRun(net: Net, actions: seq<Action>): (r: Net)
    requires AllFit(net, actions)
    ensures Life.Wf(r.world)
    decreases |actions|
  {
    if actions == [] then net
    else
      assert actions[0] in actions && forall a | a in actions[1..] :: a in actions;
      NetRun(NetStep(net, actions[0]), actions[1..])
  }

  /** The lifecycle events that a run amounts to. */
  ghost function Labels(net: Net, actions: seq<Action>): seq<Life.Event>
    requires AllFit(net, actions)
    decreases |actions|
  {
    if actions == [] then []
    else
      assert actions[0] in actions && forall a | a in actions[1..] :: a in actions;
      [Label(net, actions[0])] + Labels(NetStep(net, actions[0]), actions[1..])
  }

  /** The lifecycle of a run is the lifecycle machine's on its events. */
  lemma {:induction false} NetRunLife(net: Net, actions: seq<Action>)
    requires AllFit(net, actions)
    ensures NetRun(net, actions).world == Life.Run(net.world, Labels(net, actions))
    decreases |actions|
  {
    if actions != [] {
      assert actions[0] in actions && forall a | a in actions[1..] :: a in actions;
      var net1 := NetStep(net, actions[0]);
      NetRunLife(net1, actions[1..]);
      var es := Labels(net, actions);
      assert es[0] == Label(net, actions[0]) && es[1..] == Labels(net1, actions[1..]);
    }
  }

  /**
   Which actions follow a PCB pointer of their client: stop, shutdown, status, questions to the writer, writes with
   something to send, reads that ask for bytes when there are unread ones, and deliveries whose handler does so.
   */
  lemma ActionUsesIff(net: Net, a: Action)
    requires Fits(net, a) && !a.SetPort?
    ensures Life.Uses(Label(net, a), a.c) <==>
            || a.Stop? || a.Shutdown? || a.Status? || a.Advise? || a.CanWrite?
            || (a.Write? && a.data != null && 0 < a.size)
            || (a.Read? && 0 < a.n && net.queues[a.c] != [])
            || (a.Arrive? && HoldsPcb(Life.SliceOf(net.world, a.c)) && a.err == ERR_OK
                && 0 < Rx.AckCalls(net.queues[a.c] + Flatten(a.segs), a.handler))
  {
    var q := net.queues[a.c];
    NoEvents(q);
    if a.Read? {
      Rx.ReadAckCalls(q, a.n);
    } else if a.Arrive? {
      var e := Rx.Callback(a.segs, a.err);
      assert ([e] + a.handler)[1..] == a.handler && ([e] + [])[1..] == [];
    }
  }

  /** `n` new clients. */
  ghost function NewNet(n: nat): (net: Net)
    ensures Life.Blank(net.world) && Life.Wf(net.world) && |net.queues| == n
  {
    Net(Life.NewWorld(n), seq(n, _ => []))
  }

  // ---------------------------------------------------------------- the calls on a context

  /** The views of a context's PCB before and after it was used, or not. */
  ghost predicate UsedIf(used: bool, before: PcbView, after: PcbView) {
    after == if used then Used(before) else before
  }

  lemma EmptyStays(chain: seq<Pbuf>, chain': seq<Pbuf>)
    requires Suffix(chain', chain) && chain == []
    ensures chain' == []
  {
  }

  /** What a run of the buffer's machine means for the unread bytes and for tcp_recved. */
  lemma RunMeans(v: Rx.Rx, es: seq<Rx.Event>)
    requires Rx.Armed(v)
    ensures var v' := Rx.Run(v, es);
            && Rx.Armed(v') && Unread(v'.cur) == Rx.QueueRun(Unread(v.cur), es)
            && |v'.acks| == |v.acks| + Rx.AckCalls(Unread(v.cur), es)
  {
    Rx.RunConserves(v, es);
    Rx.RunRefines(v, es);
    Rx.RunAckCalls(v, es);
  }

  lemma StepIsRun(v: Rx.Rx, e: Rx.Event)
    requires Wf(v.cur)
    ensures Rx.Step(v, e) == Rx.Run(v, [e])
  {
    Rx.RunOne(v, e, []);
    assert [e] + [] == [e];
    Rx.RunNothing(Rx.Step(v, e));
  }

  /**
   The application reads from a context's buffer: the PCB is followed exactly if it asks for bytes and there are
   unread ones, once for each call of tcp_recved.
   */
  method ReadBuffer(ctx: TcpClientContext, pool: PbufPool, n: nat)
    requires ctx.Valid(pool)
    modifies ctx.rx, ctx.tx.pcb`recved, ctx.tx.pcb`misused, pool, pool.mem.next.Keys
    ensures ctx.Valid(pool) && pool.Valid() && pool.mem.next.Keys <= old(pool.mem.next.Keys)
    ensures Effect(old(pool.mem), pool.mem, old(ctx.rx.chain), ctx.rx.chain)
    ensures ctx.rx.Queue() == Rx.QueueRun(old(ctx.rx.Queue()), [Rx.Consume(n)])
    ensures |ctx.tx.pcb.recved| == |old(ctx.tx.pcb.recved)| + Rx.AckCalls(old(ctx.rx.Queue()), [Rx.Consume(n)])
    ensures UsedIf(n > 0 && old(ctx.rx.Queue()) != [], old(ctx.tx.pcb.View()), ctx.tx.pcb.View())
  {
    hide PbufPool.Mirrors, Sound, Owns, Moved, Effect, Suffix, Rx.Step, Rx.Run, Rx.AckCalls, Rx.QueueRun,
      IoRxBuffer.Queue, Rx.Armed;
    ghost var m, chain := pool.mem, ctx.rx.chain;
    var rx: IoRxBuffer := ctx.rx;
    rx.QueueMeans();
    ghost var v := rx.View();
    StepIsRun(v, Rx.Consume(n));
    RunMeans(v, [Rx.Consume(n)]);
    Rx.ReadAckCalls(Unread(v.cur), n);
    rx.PeekConsume(n);
    rx.QueueMeans();
    MovedEffect(m, pool.mem, chain, rx.chain);
    if chain == [] { EmptyStays(chain, rx.chain); }
  }

  /** lwIP delivers to a context that holds a PCB, whose handler may read and reset at once. */
  method ArriveAt(ctx: TcpClientContext, pool: PbufPool, segs: seq<seq<byte>>, err: int, handler: seq<Rx.Event>)
    requires ctx.Valid(pool) && ctx.pcb != null && forall e | e in handler :: !e.Callback?
    modifies ctx.rx, ctx.tx.pcb`recved, ctx.tx.pcb`misused, pool, pool.mem.next.Keys
    ensures ctx.Valid(pool) && pool.Valid() && fresh(pool.mem.next.Keys - old(pool.mem.next.Keys))
    ensures Effect(old(pool.mem), pool.mem, old(ctx.rx.chain), ctx.rx.chain)
    ensures var es := [Rx.Callback(segs, err)] + if err == ERR_OK then handler else [];
            && ctx.rx.Queue() == Rx.QueueRun(old(ctx.rx.Queue()), es)
            && |ctx.tx.pcb.recved| == |old(ctx.tx.pcb.recved)| + Rx.AckCalls(old(ctx.rx.Queue()), es)
            && UsedIf(Rx.AckCalls(old(ctx.rx.Queue()), es) > 0, old(ctx.tx.pcb.View()), ctx.tx.pcb.View())
  {
    hide PbufPool.Mirrors, Sound, Owns, Moved, Effect, Suffix, Rx.Step, Rx.Run, Separate, Delivered,
      OthersKept, IsChain, SubLinks, Rx.AckCalls, Rx.QueueRun, IoRxBuffer.Queue, Rx.Armed;
    var rx: IoRxBuffer := ctx.rx;
    ghost var m, chain := pool.mem, rx.chain;
    rx.QueueMeans();
    ghost var v, rest := rx.View(), if err == ERR_OK then handler else [];
    RunMeans(v, [Rx.Callback(segs, err)] + rest);
    Rx.RunOne(v, Rx.Callback(segs, err), rest);
    var p, ts := RxRuns.Alloc(pool, segs);
    ghost var m1 := pool.mem;
    Deliverable(m, m1, chain, ts);
    rx.NotCells();
    var _ := rx.ReceiveCallback(ctx.pcb, p, err, handler, ts);
    rx.QueueMeans();
    ArrivalEffect(m, m1, pool.mem, chain, ts, rx.chain, err);
  }

  lemma Deliverable(m: Cells, m1: Cells, chain: seq<Pbuf>, ts: seq<Pbuf>)
    requires Owns(m, chain) && IsChain(m1.next, ts) && SubLinks(m.next, m1.next)
    requires m1.holders == m.holders + Token(First(ts)) && forall c | c in ts :: c !in m.next
    ensures Separate(m1, chain, ts) && Owns(m1, chain)
  {
    hide Owns, Separate, SubLinks, IsChain;
    FirstHeldIf(m, chain);
    RxRuns.FreshSeparate(m, m1, chain, ts, m.holders - Token(First(chain)));
  }

  lemma FirstHeldIf(m: Cells, chain: seq<Pbuf>)
    requires Owns(m, chain)
    ensures Token(First(chain)) <= m.holders
  {
  }

  /** The application writes, with the free space and lwIP's answers at that time. */
  method WriteTo(ctx: TcpClientContext, pool: PbufPool, data: array?<byte>, base: nat, size: nat,
                 space: nat, outcomes: seq<int>)
    requires ctx.Valid(pool) && (data != null ==> base + size <= data.Length)
    modifies ctx.tx.pcb
    ensures ctx.Valid(pool) && pool.Valid()
    ensures UsedIf(data != null && size > 0, old(ctx.tx.pcb.View()), ctx.tx.pcb.View())
  {
    hide PbufPool.Valid, IoRxBuffer.Valid, TcpClientContext.Valid, Queued, Returned, Total, Refs,
      SendPlan.After, Calls;
    ctx.Parts(pool);
    CellsAside(ctx, pool);
    ctx.tx.pcb.sndbuf, ctx.tx.pcb.outcomes := space, outcomes;
    var _ := ctx.tx.WriteData(data, base, size);
  }

  /** The application asks the writer for advice, or whether it can write at all. */
  method AskWriter(ctx: TcpClientContext, pool: PbufPool, a: Action)
    requires ctx.Valid(pool) && (a.Advise? || a.CanWrite?)
    modifies ctx.tx.pcb`misused
    ensures ctx.Valid(pool) && pool.Valid()
    ensures ctx.tx.pcb.View() == Used(old(ctx.tx.pcb.View()))
  {
    hide PbufPool.Valid, IoRxBuffer.Valid, TcpClientContext.Valid;
    ctx.Parts(pool);
    CellsAside(ctx, pool);
    if a.Advise? {
      var _ := ctx.tx.GetOptimalChunkSize(a.size);
    } else {
      var _ := ctx.tx.CanWriteNow();
    }
  }

  lemma CellsAside(ctx: TcpClientContext, pool: PbufPool)
    requires ctx.tx != null
    ensures forall q | q in pool.mem.next :: q as object != ctx.tx.pcb
    ensures pool as object != ctx.tx.pcb
  {
  }

  /** Actions that leave the context as it is. */
  predicate Uses(a: Action) {
    a.Arrive? || a.Read? || a.Write? || a.Advise? || a.CanWrite? || a.Fail?
  }

  /** What such an action does to the view of the PCB, `held` saying that the context still holds it. */
  function PcbAfter(p: PcbView, held: bool, e: Life.Event): PcbView {
    match e
    case ReadE(_, acks) => if acks > 0 then Used(p) else p
    case WriteE(_, size) => if size > 0 then Used(p) else p
    case AdviseE(_) => Used(p)
    case ErrorE(_) => if held then p.(freed := true) else p
    case _ => p
  }

  method UseContext(ctx: TcpClientContext, pool: PbufPool, a: Action)
    requires ctx.Valid(pool) && Possible(a) && Uses(a)
    modifies ctx.rx, ctx.tx.pcb, pool, pool.mem.next.Keys
    ensures ctx.Valid(pool) && pool.Valid() && fresh(pool.mem.next.Keys - old(pool.mem.next.Keys))
    ensures Effect(old(pool.mem), pool.mem, old(ctx.rx.chain), ctx.rx.chain)
    ensures ctx.rx.Queue() == Rx.QueueRun(old(ctx.rx.Queue()), RxEvents(a, ctx.pcb != null))
    ensures ctx.tx.pcb.View() ==
            PcbAfter(old(ctx.tx.pcb.View()), ctx.pcb != null, EventOf(a, old(ctx.rx.Queue()), ctx.pcb != null))
  {
    hide PbufPool.Valid, IoRxBuffer.Valid, Effect, TcpClientContext.Valid, IoRxBuffer.View, Owns, Rx.AckCalls,
      Rx.QueueRun, IoRxBuffer.Queue;
    ctx.Parts(pool);
    Unaffected(ctx.rx);
    NoEvents(ctx.rx.Queue());
    if a.Arrive? {
      if ctx.pcb != null { ArriveAt(ctx, pool, a.segs, a.err, a.handler); }
    } else if a.Read? {
      Rx.ReadAckCalls(ctx.rx.Queue(), a.n);
      ReadBuffer(ctx, pool, a.n);
    } else {
      UsePcb(ctx, pool, a);
    }
  }

  /** Writes, questions to the writer and lwIP errors: only the PCB changes. */
  method UsePcb(ctx: TcpClientContext, pool: PbufPool, a: Action)
    requires ctx.Valid(pool) && Possible(a) && (a.Write? || a.Advise? || a.CanWrite? || a.Fail?)
    modifies ctx.tx.pcb
    ensures ctx.Valid(pool) && pool.Valid()
    ensures ctx.tx.pcb.View() == PcbAfter(old(ctx.tx.pcb.View()), ctx.pcb != null, EventOf(a, [], ctx.pcb != null))
  {
    hide PbufPool.Valid, IoRxBuffer.Valid, TcpClientContext.Valid;
    ctx.Parts(pool);
    CellsAside(ctx, pool);
    if a.Write? {
      WriteTo(ctx, pool, a.data, a.base, a.size, a.space, a.outcomes);
    } else if !a.Fail? {
      AskWriter(ctx, pool, a);
    } else if ctx.pcb != null {
      ctx.pcb.GiveUp();
    }
  }

  lemma NoEvents(q: seq<byte>)
    ensures Rx.QueueRun(q, []) == q && Rx.AckCalls(q, []) == 0
  {
  }

  lemma Unaffected(rx: IoRxBuffer)
    requires rx.Valid()
    ensures Effect(rx.pool.mem, rx.pool.mem, rx.chain, rx.chain)
  {
    NoEffect(rx.pool.mem, rx.chain);
  }

  // ---------------------------------------------------------------- the calls on a client

  ghost function BufferOf(client: TcpClient): set<IoRxBuffer>
    reads client, client.ctx
  {
    if client.ctx == null || client.ctx.rx == null then {} else {client.ctx.rx}
  }

  /** The PCB a client's context was made for. */
  ghost function PcbOf(client: TcpClient): set<Pcb>
    reads client, client.ctx, if client.ctx != null then {client.ctx.tx} else {}
  {
    if client.ctx == null || client.ctx.tx == null || client.ctx.tx.pcb == null then {} else {client.ctx.tx.pcb}
  }

  /** The objects of a client's connection. */
  ghost function Footprint(client: TcpClient): set<object>
    reads client, client.ctx, if client.ctx != null then {client.ctx.tx} else {}
  {
    (if client.ctx == null then {} else {client.ctx}) + BufferOf(client) + PcbOf(client)
  }

  lemma UseMeans(s: Life.Slice, s': Life.Slice, q: seq<byte>, a: Action)
    requires Life.SliceOk(s) && Uses(a) && (!HoldsPcb(s) ==> q == [])
    requires s.ctx.Some? && (s.ctx.value.pcb.Some? ==> s.ctx.value.pcb.value == s.ctx.value.tx)
    requires var i := s.ctx.value.tx;
             s' == s.(pcbs := s.pcbs[i := PcbAfter(s.pcbs[i], HoldsPcb(s), EventOf(a, q, HoldsPcb(s)))])
    ensures s' == Life.Local(s, EventOf(a, q, HoldsPcb(s)))
  {
    hide Rx.AckCalls;
    NoEvents(q);
    if a.Read? { Rx.ReadAckCalls(q, a.n); }
  }

  lemma IdleMeans(s: Life.Slice, a: Action)
    requires Life.SliceOk(s) && Uses(a) && s.ctx.None?
    ensures After(s, [], a) == (s, [])
  {
    NoEvents([]);
    if a.Read? {
      Rx.ReadAckCalls([], a.n);
      Rx.QueueOne([], Rx.Consume(a.n));
    }
  }

  /** Deliveries, reads, writes, questions to the writer and errors: the context stays, and so do other PCBs. */
  method Use(client: TcpClient, a: Action)
    requires client.Valid() && Possible(a) && Uses(a)
    modifies BufferOf(client), PcbOf(client), client.stack.pool, client.stack.pool.mem.next.Keys
    ensures client.Valid() && Life.SliceOk(old(client.View()))
    ensures (client.View(), client.Queue()) == After(old(client.View()), old(client.Queue()), a)
    ensures Effect(old(client.stack.pool.mem), client.stack.pool.mem, old(client.Chain()), client.Chain())
    ensures fresh(client.stack.pool.mem.next.Keys - old(client.stack.pool.mem.next.Keys))
  {
    hide PbufPool.Valid, IoRxBuffer.Valid, IoRxBuffer.Queue, Owns, Effect, TcpClientContext.Valid, ViewsOf,
      Life.Local, PcbAfter, EventOf, RxEvents, Rx.QueueRun;
    client.ViewOk();
    ghost var s, q, views := client.View(), client.Queue(), client.stack.Views();
    if client.ctx == null {
      EmptyEffect(client.stack.pool.mem);
      IdleMeans(s, a);
      return;
    }
    client.ctx.Parts(client.stack.pool);
    client.ctx.rx.NothingQueued();
    UseContext(client.ctx, client.stack.pool, a);
    client.CellsApart();
    ghost var i := client.ctx.tx.pcb.id;
    assert client.stack.Views() == views[i := PcbAfter(views[i], HoldsPcb(s), EventOf(a, q, HoldsPcb(s)))];
    UseMeans(s, client.View(), q, a);
  }

  lemma EmptyEffect(m: Cells)
    ensures Effect(m, m, [], [])
  {
    NoEffect(m, []);
  }

  lemma PoolSound(pool: PbufPool)
    requires pool.Valid()
    ensures Sound(pool.mem)
  {
  }

  lemma Emptied(m: Cells, m': Cells, from: seq<Pbuf>)
    requires Sound(m) && Sound(m') && Moved(m, m', from, [])
    ensures Effect(m, m', from, []) && m'.next.Keys <= m.next.Keys
  {
    MovedEffect(m, m', from, []);
  }

  predicate Ends(a: Action) {
    a.Stop? || a.Shutdown? || a.Destroy?
  }

  lemma EndMeans(s: Life.Slice, q: seq<byte>, a: Action)
    requires Life.SliceOk(s) && Ends(a)
    ensures After(s, q, a) ==
            (if a.Stop? then Life.Stop(s, a.answer).0
             else if a.Shutdown? then Life.Shutdown(s, a.answer).0
             else s.(ctx := None), [])
  {
    Rx.QueueOne(q, Rx.Reset);
  }

  /** Stop: the client's pbufs are given up, and nobody else's; the context stays. */
  method StopClient(client: TcpClient, a: Action)
    requires client.Valid() && a.Stop?
    modifies client`ctx, Footprint(client), client.stack.pool, client.stack.pool.mem.next.Keys
    ensures client.Valid() && Life.SliceOk(old(client.View()))
    ensures (client.View(), client.Queue()) == After(old(client.View()), old(client.Queue()), a)
    ensures Effect(old(client.stack.pool.mem), client.stack.pool.mem, old(client.Chain()), client.Chain())
    ensures client.stack.pool.mem.next.Keys <= old(client.stack.pool.mem.next.Keys)
    ensures Footprint(client) <= old(Footprint(client))
  {
    hide PbufPool.Valid, Sound, IoRxBuffer.Valid, IoRxBuffer.Queue, Owns, Moved, Effect,
      TcpClientContext.Valid, ViewsOf, StatesOf, Life.Stop, Life.Shutdown, After, Stack.Valid;
    client.ViewOk();
    EndMeans(client.View(), client.Queue(), a);
    PoolSound(client.stack.pool);
    ghost var m, chain := client.stack.pool.mem, client.Chain();
    if client.ctx != null { client.ctx.Parts(client.stack.pool); }
    var _ := client.Stop(a.answer);
    if client.ctx != null { client.ctx.rx.NothingQueued(); }
    PoolSound(client.stack.pool);
    Emptied(m, client.stack.pool.mem, chain);
  }

  /** Shutdown and destruction: the client's pbufs are given up, and nobody else's, and the context goes. */
  method Leave(client: TcpClient, a: Action)
    requires client.Valid() && (a.Shutdown? || a.Destroy?)
    modifies client`ctx, Footprint(client), client.stack.pool, client.stack.pool.mem.next.Keys
    ensures client.Valid() && Life.SliceOk(old(client.View()))
    ensures (client.View(), client.Queue()) == After(old(client.View()), old(client.Queue()), a)
    ensures Effect(old(client.stack.pool.mem), client.stack.pool.mem, old(client.Chain()), client.Chain())
    ensures client.stack.pool.mem.next.Keys <= old(client.stack.pool.mem.next.Keys)
    ensures Footprint(client) <= old(Footprint(client))
  {
    hide PbufPool.Valid, Sound, IoRxBuffer.Valid, IoRxBuffer.Queue, Owns, Moved, Effect,
      TcpClientContext.Valid, ViewsOf, StatesOf, Life.Stop, Life.Shutdown, After, Stack.Valid;
    client.ViewOk();
    EndMeans(client.View(), client.Queue(), a);
    PoolSound(client.stack.pool);
    ghost var m, chain := client.stack.pool.mem, client.Chain();
    if client.ctx != null { client.ctx.Parts(client.stack.pool); }
    if a.Shutdown? {
      var _ := client.Shutdown(a.answer);
    } else if client.ctx != null {
      client.DeleteContext();
    } else {
      MovedEmpty(m);
    }
    PoolSound(client.stack.pool);
    Emptied(m, client.stack.pool.mem, chain);
  }

  lemma AskMeans(s: Life.Slice, q: seq<byte>, a: Action)
    requires Life.SliceOk(s) && (a.Connect? || a.Status?)
    ensures After(s, q, a) ==
            (if a.Connect? then Life.Connect(s, a.available, a.answer).0 else Life.Access(s), q)
  {
    NoEvents(q);
  }

  /** Connect and status: no pbuf is touched. */
  method Ask(client: TcpClient, a: Action)
    requires client.Valid() && (a.Connect? || a.Status?)
    modifies client`ctx, client.stack`pcbs, client.stack`count, client.stack`localPort
    modifies Footprint(client), client.stack.pool, client.stack.pool.mem.next.Keys
    ensures client.Valid() && Life.SliceOk(old(client.View()))
    ensures (client.View(), client.Queue()) == After(old(client.View()), old(client.Queue()), a)
    ensures Effect(old(client.stack.pool.mem), client.stack.pool.mem, old(client.Chain()), client.Chain())
    ensures client.stack.pool.mem.next.Keys == old(client.stack.pool.mem.next.Keys)
    ensures old(client.stack.pcbs) <= client.stack.pcbs
    ensures fresh(Footprint(client) - old(Footprint(client)))
  {
    hide PbufPool.Valid, IoRxBuffer.Valid, IoRxBuffer.Queue, Owns, Effect, TcpClientContext.Valid, ViewsOf,
      StatesOf, Life.Connect, Life.Access, After;
    client.ViewOk();
    AskMeans(client.View(), client.Queue(), a);
    OwnEffect(client);
    client.CellsApart();
    if client.ctx != null { client.ctx.Parts(client.stack.pool); }
    if a.Connect? {
      var _ := client.TsConnect(a.available, a.answer);
      if client.ctx != null { client.ctx.rx.NothingQueued(); }
    } else {
      var _ := client.TsStatus();
    }
  }

  lemma OwnEffect(client: TcpClient)
    requires client.Valid()
    ensures Effect(client.stack.pool.mem, client.stack.pool.mem, client.Chain(), client.Chain())
  {
    NoEffect(client.stack.pool.mem, client.Chain());
  }

  /** Any action of a client: one step of the machine, and nobody else's pbufs are disturbed. */
  method Perform(client: TcpClient, a: Action)
    requires client.Valid() && Possible(a) && !a.SetPort?
    modifies client`ctx, client.stack`pcbs, client.stack`count, client.stack`localPort
    modifies Footprint(client), client.stack.pool, client.stack.pool.mem.next.Keys
    ensures client.Valid() && Life.SliceOk(old(client.View()))
    ensures (client.View(), client.Queue()) == After(old(client.View()), old(client.Queue()), a)
    ensures Effect(old(client.stack.pool.mem), client.stack.pool.mem, old(client.Chain()), client.Chain())
    ensures fresh(client.stack.pool.mem.next.Keys - old(client.stack.pool.mem.next.Keys))
    ensures old(client.stack.pcbs) <= client.stack.pcbs
    ensures fresh(Footprint(client) - old(Footprint(client)))
  {
    hide TcpClient.Valid, TcpClient.View, TcpClient.Queue, Effect, After, Life.SliceOk, TcpClient.Chain;
    if Uses(a) {
      Use(client, a);
    } else if a.Connect? || a.Status? {
      Ask(client, a);
    } else if a.Stop? {
      StopClient(client, a);
    } else {
      Leave(client, a);
    }
  }
}
