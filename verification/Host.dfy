/**
 Any number of clients on one lwIP stack, on the heap: whole runs of connects, stops, shutdowns, deliveries, reads,
 writes, lwIP errors and destructions are runs of the machine, and keep every client in order.
 */
module Hosts {
  import opened Wrappers
  import opened RefGraph
  import opened PbufMemory
  import opened ByteQueue
  import opened RxBuffer
  import opened Sharing
  import opened TcpWriting
  import opened Lwip
  import opened TcpClients
  import opened ClientActions
  import Life = Lifecycle

  // ---------------------------------------------------------------- all clients on one stack

  /** A client is in order, apart from the pbuf memory, which all share. */
  ghost predicate Steady(client: TcpClient, pcbs: seq<Pcb>)
    reads client, client.ctx, if client.ctx != null then {client.ctx.rx, client.ctx.tx} else {}
  {
    client.ctx != null ==>
      var ctx := client.ctx;
      && ctx.rx != null && ctx.tx != null && ctx.tx.pcb != null && ctx.rx.pool == client.stack.pool
      && Ptr(ctx.rx.head) == First(ctx.rx.chain) && Wf(At(ctx.rx.chain, ctx.rx.offset))
      && (ctx.rx.pcb == null || ctx.rx.pcb == ctx.rx.conn) && ctx.rx.Knows() && ctx.rx.conn == ctx.tx.pcb
      && (ctx.pcb != null ==> ctx.pcb == ctx.tx.pcb) && (ctx.pcb == null ==> ctx.rx.chain == [])
      && ctx.tx.pcb.id < |pcbs| && pcbs[ctx.tx.pcb.id] == ctx.tx.pcb
  }

  lemma ValidIff(client: TcpClient)
    ensures client.Valid() <==> client.stack.Valid() && client.stack.pool.Valid() && Steady(client, client.stack.pcbs)
                                && Owns(client.stack.pool.mem, client.Chain())
  {
    hide PbufPool.Valid, Wf, IoRxBuffer.Queue;
  }

  lemma SteadyGrows(client: TcpClient, pcbs: seq<Pcb>, pcbs': seq<Pcb>)
    requires Steady(client, pcbs) && pcbs <= pcbs'
    ensures Steady(client, pcbs')
  {
  }

  ghost function ChainsOf(cs: seq<TcpClient>): (r: seq<seq<Pbuf>>)
    reads *
    ensures |r| == |cs| && forall i | 0 <= i < |cs| :: r[i] == cs[i].Chain()
  {
    if cs == [] then [] else ChainsOf(cs[..|cs| - 1]) + [cs[|cs| - 1].Chain()]
  }

  ghost function QueuesOf(cs: seq<TcpClient>): (r: seq<seq<byte>>)
    reads *
    ensures |r| == |cs| && forall i | 0 <= i < |cs| :: r[i] == cs[i].Queue()
  {
    if cs == [] then [] else QueuesOf(cs[..|cs| - 1]) + [cs[|cs| - 1].Queue()]
  }

  /** Two clients have nothing in common but the stack. */
  ghost predicate Apart(a: TcpClient, b: TcpClient)
    reads a, b, a.ctx, b.ctx
  {
    && a != b
    && (a.ctx != null && b.ctx != null ==> a.ctx != b.ctx && (a.ctx.rx != null ==> a.ctx.rx != b.ctx.rx))
  }

  lemma ApartBoth(a: TcpClient, b: TcpClient)
    requires Apart(a, b)
    ensures Apart(b, a)
  {
  }

  /** All that an action of a client may change. */
  ghost function Touched(a: TcpClient): set<object>
    reads a, a.ctx, a.stack.pool, if a.ctx != null then {a.ctx.tx} else {}
  {
    {a, a.stack, a.stack.pool} + a.stack.pool.mem.next.Keys + Footprint(a)
  }

  lemma ClientOutside(a: TcpClient, b: TcpClient)
    requires a != b
    ensures b !in Touched(a)
  {
  }

  lemma ContextOutside(a: TcpClient, ctx: TcpClientContext)
    requires a.ctx != ctx
    ensures ctx !in Touched(a)
  {
  }

  lemma BufferOutside(a: TcpClient, rx: IoRxBuffer)
    requires a.ctx == null || a.ctx.rx != rx
    ensures rx !in Touched(a)
  {
  }

  lemma WriterOutside(a: TcpClient, tx: TcpWriter)
    ensures tx !in Touched(a)
  {
  }

  /** lwIP's stack and its clients. */
  class Host {
    const stack: Stack
    const clients: seq<TcpClient>
    /** The references to pbufs that are held by anybody else. */
    ghost const others: multiset<Pbuf>

    /** All objects of the stack and its clients are in a set. */
    ghost predicate Inside(repr: set<object>)
      reads *
    {
      && {stack, stack.pool} + stack.pool.mem.next.Keys <= repr
      && forall c | 0 <= c < |clients| :: clients[c] in repr && Footprint(clients[c]) <= repr
    }

    /** Every client is in order, they are apart from each other, and all references to pbufs are accounted for. */
    ghost predicate Valid()
      reads *
    {
      && stack.Valid() && stack.pool.Valid()
      && (forall c | 0 <= c < |clients| :: clients[c].stack == stack && Steady(clients[c], stack.pcbs))
      && (forall c, d | 0 <= c < |clients| && 0 <= d < |clients| && c != d :: Apart(clients[c], clients[d]))
      && AllOwned(stack.pool.mem, ChainsOf(clients), others)
    }

    ghost function View(): Life.World
      reads *
    {
      Life.World(map c: nat | c < |clients| :: clients[c].CtxView(), stack.Views(), stack.localPort)
    }

    /** The state of the machine. */
    ghost function State(): Net
      reads *
    {
      Net(View(), QueuesOf(clients))
    }

    lemma ClientValid(c: nat)
      requires Valid() && c < |clients|
      ensures clients[c].Valid()
    {
      ValidIff(clients[c]);
      assert ChainsOf(clients)[c] == clients[c].Chain();
    }

    /** New clients on a stack that has handed out no pbuf. */
    constructor (stack: Stack, clients: seq<TcpClient>)
      requires stack.Valid() && stack.pool.Valid() && stack.pool.mem.holders == multiset{}
      requires forall c | 0 <= c < |clients| :: clients[c].stack == stack && clients[c].ctx == null
      requires forall c, d | 0 <= c < |clients| && 0 <= d < |clients| && c != d :: clients[c] != clients[d]
      ensures Valid() && this.stack == stack && this.clients == clients && others == multiset{}
    {
      hide PbufPool.Valid, AllOwned;
      this.stack, this.clients, others := stack, clients, multiset{};
      new;
      NothingOwned(stack.pool.mem, ChainsOf(clients));
    }

    lemma ViewWf()
      requires Valid()
      ensures Life.Wf(View())
    {
      hide PbufPool.Valid, AllOwned, Wf, ViewsOf;
      forall c: nat
        ensures Life.SliceOk(Life.SliceOf(View(), c))
      {
        assert c < |clients| ==> Steady(clients[c], stack.pcbs);
      }
    }

    lemma StateFits(a: Action)
      requires Valid() && (!a.SetPort? ==> a.c < |clients|)
      ensures Fits(State(), a)
    {
      ViewWf();
    }

    /** An action of one client: one step of the machine, and every client stays in order. */
    method ApplyTo(client: TcpClient, ghost c: nat, a: Action)
      requires Valid() && Possible(a) && !a.SetPort? && a.c == c < |clients| && clients[c] == client
      modifies client`ctx, stack`pcbs, stack`count, stack`localPort
      modifies Footprint(client), stack.pool, stack.pool.mem.next.Keys
      ensures Valid() && Fits(old(State()), a) && State() == NetStep(old(State()), a)
      ensures fresh(stack.pool.mem.next.Keys - old(stack.pool.mem.next.Keys))
      ensures fresh(Footprint(client) - old(Footprint(client)))
      ensures forall d | 0 <= d < |clients| && d != c :: Footprint(clients[d]) == old(Footprint(clients[d]))
    {
      hide PbufPool.Valid, AllOwned, Steady, Effect, Stack.Valid, TcpClient.Valid, After, NetStep,
        Life.SliceOk, ViewsOf, Owns, Footprint, TcpClient.Queue, Apart, Touched, Clear;
      ClientValid(c);
      StateFits(a);
      ghost var m, chains, net := stack.pool.mem, ChainsOf(clients), State();
      AllClear(c);
      PerformAmong(client, clients, c, a);
      ValidIff(client);
      Reassemble(c, m, chains);
      ViewAfter(net.world, c);
      assert QueuesOf(clients) == net.queues[c := client.Queue()];
      NetStepMeans(net, State(), old(client.View()), client.View(), client.Queue(), a);
    }

    /** An action: one step of the machine. `repr` are the objects of the stack and its clients. */
    method Apply(a: Action, ghost repr: set<object>) returns (ghost repr': set<object>)
      requires Valid() && Inside(repr) && Possible(a) && (!a.SetPort? ==> a.c < |clients|)
      modifies repr
      ensures Valid() && Inside(repr') && fresh(repr' - repr)
      ensures Fits(old(State()), a) && State() == NetStep(old(State()), a)
    {
      hide Valid, State, NetStep, Fits, Footprint;
      repr' := repr;
      if a.SetPort? {
        SetPort(a);
        return;
      }
      var client := clients[a.c];
      ApplyTo(client, a.c, a);
      repr' := repr + stack.pool.mem.next.Keys + Footprint(client);
    }

    /**
     Every run of all clients on the heap is a run of the machine: the views of all PCBs, the contexts, the port
     counter and the unread bytes of every client are what the machine computes from the actions.
     */
    method Play(actions: seq<Action>, ghost repr: set<object>) returns (ghost repr': set<object>)
      requires Valid() && Inside(repr)
      requires forall a | a in actions :: Possible(a) && (!a.SetPort? ==> a.c < |clients|)
      modifies repr
      ensures Valid() && Inside(repr') && fresh(repr' - repr)
      ensures AllFit(old(State()), actions) && State() == NetRun(old(State()), actions)
      decreases |actions|
    {
      hide Valid, View, Inside, NetStep;
      repr' := repr;
      ViewWf();
      if actions != [] {
        assert actions[0] in actions && forall a | a in actions[1..] :: a in actions;
        repr' := Apply(actions[0], repr);
        repr' := Play(actions[1..], repr');
      }
    }

    lemma StartsBlank(repr: set<object>)
      requires forall c | 0 <= c < |clients| :: clients[c].ctx == null
      requires stack.pcbs == [] && stack.pool.mem.next == map[]
      requires repr == {stack as object, stack.pool} + set c | c in clients
      ensures Inside(repr) && (stack.localPort == 0 ==> State() == NewNet(|clients|))
    {
      forall c | 0 <= c < |clients|
        ensures clients[c] in repr && Footprint(clients[c]) == {}
      {
        assert clients[c] in clients;
      }
    }

    /** The pbufs after a run: each is queued by a client or reachable from another holder. */
    lemma Accounted()
      requires Valid()
      ensures stack.pool.allocs == stack.pool.frees + |stack.pool.mem.next.Keys| && Sound(stack.pool.mem)
      ensures forall c | 0 <= c < |clients| :: clients[c].Valid()
      ensures forall p | p in stack.pool.mem.next ::
                (exists c | 0 <= c < |clients| :: p in clients[c].Chain())
                || exists h | h in others :: RefGraph.Reaches(stack.pool.mem.next, stack.pool.mem.rank, h, p)
    {
      forall c | 0 <= c < |clients|
        ensures clients[c].Valid()
      {
        ClientValid(c);
      }
      forall p | p in stack.pool.mem.next
        ensures (exists c | 0 <= c < |clients| :: p in clients[c].Chain())
                || exists h | h in others :: RefGraph.Reaches(stack.pool.mem.next, stack.pool.mem.rank, h, p)
      {
        AllAccounted(stack.pool.mem, ChainsOf(clients), others, p);
      }
    }

    /** setLocalPortStart, which takes 16 bits. */
    method SetPort(a: Action)
      requires Valid() && a.SetPort?
      modifies stack`localPort
      ensures Valid() && Fits(old(State()), a) && State() == NetStep(old(State()), a)
      ensures stack.pool.mem == old(stack.pool.mem)
      ensures forall d | 0 <= d < |clients| :: Footprint(clients[d]) == old(Footprint(clients[d]))
    {
      hide PbufPool.Valid, AllOwned, Steady, Stack.Views, NetStep, Apart, Footprint, Stack.Valid,
        TcpClient.Chain, TcpClient.CtxView, TcpClient.Queue;
      StateFits(a);
      ghost var net, chains := State(), ChainsOf(clients);
      MovePort(a.port % 0x10000);
      assert ChainsOf(clients) == chains;
      assert QueuesOf(clients) == net.queues;
      ViewWithPort(net.world);
      PortMeans(net, a);
    }

    /** The port counter is no part of any client. */
    method MovePort(port: nat)
      requires stack.Valid() && stack.pool.Valid() && port <= 0xFFFF
      modifies stack`localPort
      ensures stack.Valid() && stack.pool.Valid() && stack.localPort == port && stack.Views() == old(stack.Views())
      ensures forall d | 0 <= d < |clients| ::
                && Steady(clients[d], stack.pcbs) == old(Steady(clients[d], stack.pcbs))
                && clients[d].Chain() == old(clients[d].Chain()) && clients[d].Queue() == old(clients[d].Queue())
                && clients[d].CtxView() == old(clients[d].CtxView())
                && Footprint(clients[d]) == old(Footprint(clients[d]))
      ensures forall c, d | 0 <= c < |clients| && 0 <= d < |clients| ::
                Apart(clients[c], clients[d]) == old(Apart(clients[c], clients[d]))
    {
      hide PbufPool.Valid, Steady, ViewsOf, Apart, Footprint, TcpClient.Chain, TcpClient.CtxView,
        TcpClient.Queue;
      assert forall q | q in stack.pool.mem.next :: q as object != stack;
      stack.SetLocalPortStart(port);
    }

    lemma ViewWithPort(w: Life.World)
      requires forall d: nat :: d in w.clients <==> d < |clients|
      requires (forall d | 0 <= d < |clients| :: w.clients[d] == clients[d].CtxView()) && w.pcbs == stack.Views()
      ensures View() == w.(localPort := stack.localPort)
    {
    }

    lemma ViewAfter(w: Life.World, c: nat)
      requires c < |clients| && clients[c].stack == stack && (forall d: nat :: d in w.clients <==> d < |clients|)
      requires forall d | 0 <= d < |clients| && d != c :: w.clients[d] == clients[d].CtxView()
      ensures View() == Life.Put(w, c, clients[c].View())
    {
    }

    lemma AllClear(c: nat)
      requires Valid() && c < |clients|
      ensures forall d | 0 <= d < |clients| && d != c ::
                Clear(clients[d], Touched(clients[c])) && Apart(clients[c], clients[d])
    {
      hide PbufPool.Valid, AllOwned, Steady, Apart, Touched, Clear;
      forall d | 0 <= d < |clients| && d != c
        ensures Clear(clients[d], Touched(clients[c]))
      {
        ApartClear(clients[c], clients[d], stack.pcbs);
      }
    }

    /** The clients after an action of client `c`, given what became of it and that the others stayed. */
    lemma Reassemble(c: nat, m: Cells, chains: seq<seq<Pbuf>>)
      requires c < |clients| && stack.Valid() && stack.pool.Valid()
      requires forall d | 0 <= d < |clients| :: clients[d].stack == stack && Steady(clients[d], stack.pcbs)
      requires forall d | 0 <= d < |clients| && d != c :: Apart(clients[c], clients[d])
      requires forall d, e | 0 <= d < |clients| && 0 <= e < |clients| && d != e && d != c && e != c ::
                 Apart(clients[d], clients[e])
      requires |chains| == |clients| && forall d | 0 <= d < |clients| && d != c :: clients[d].Chain() == chains[d]
      requires AllOwned(m, chains, others) && Effect(m, stack.pool.mem, chains[c], clients[c].Chain())
      ensures Valid()
    {
      hide PbufPool.Valid, AllOwned, Steady, Effect, Apart, Stack.Valid;
      forall d | 0 <= d < |clients| && d != c
        ensures Apart(clients[d], clients[c])
      {
        ApartBoth(clients[c], clients[d]);
      }
      AllOwnedStep(m, stack.pool.mem, chains, c, clients[c].Chain(), others);
      assert ChainsOf(clients) == chains[c := clients[c].Chain()];
    }
  }

  /** A client none of whose objects is in a set. */
  ghost predicate Clear(b: TcpClient, touched: set<object>)
    reads b, b.ctx
  {
    b !in touched && (b.ctx != null ==> b.ctx !in touched && b.ctx.rx !in touched && b.ctx.tx !in touched)
  }

  lemma ApartClear(a: TcpClient, b: TcpClient, pcbs: seq<Pcb>)
    requires Apart(a, b) && Steady(b, pcbs)
    ensures Clear(b, Touched(a))
  {
    hide Touched, Wf;
    ClientOutside(a, b);
    if b.ctx != null {
      ContextOutside(a, b.ctx);
      BufferOutside(a, b.ctx.rx);
      WriterOutside(a, b.ctx.tx);
    }
  }

  lemma InFootprint(client: TcpClient)
    ensures client.ctx != null ==> client.ctx in Footprint(client)
    ensures client.ctx != null && client.ctx.rx != null ==> client.ctx.rx in Footprint(client)
  {
  }

  /** An action of a client, with others around that have nothing to do with it. */
  method PerformAmong(client: TcpClient, ghost clients: seq<TcpClient>, ghost c: nat, a: Action)
    requires client.Valid() && Possible(a) && !a.SetPort?
    requires forall d | 0 <= d < |clients| && d != c ::
               Clear(clients[d], Touched(client)) && Apart(client, clients[d]) && Steady(clients[d], client.stack.pcbs)
    modifies client`ctx, client.stack`pcbs, client.stack`count, client.stack`localPort
    modifies Footprint(client), client.stack.pool, client.stack.pool.mem.next.Keys
    ensures client.Valid() && Life.SliceOk(old(client.View()))
    ensures (client.View(), client.Queue()) == After(old(client.View()), old(client.Queue()), a)
    ensures Effect(old(client.stack.pool.mem), client.stack.pool.mem, old(client.Chain()), client.Chain())
    ensures fresh(client.stack.pool.mem.next.Keys - old(client.stack.pool.mem.next.Keys))
    ensures fresh(Footprint(client) - old(Footprint(client)))
    ensures forall d | 0 <= d < |clients| && d != c ::
              && Steady(clients[d], client.stack.pcbs) && Apart(client, clients[d])
              && clients[d].Chain() == old(clients[d].Chain()) && clients[d].CtxView() == old(clients[d].CtxView())
              && clients[d].Queue() == old(clients[d].Queue()) && Footprint(clients[d]) == old(Footprint(clients[d]))
    ensures forall d, e | 0 <= d < |clients| && 0 <= e < |clients| && d != c && e != c ::
              Apart(clients[d], clients[e]) == old(Apart(clients[d], clients[e]))
  {
    hide TcpClient.Valid, TcpClient.View, Effect, After, Life.SliceOk, Footprint, Steady, IoRxBuffer.Queue;
    Perform(client, a);
    forall d | 0 <= d < |clients| && d != c
      ensures Steady(clients[d], client.stack.pcbs) && Apart(client, clients[d])
    {
      assert old(Clear(clients[d], Touched(client)));
      InFootprint(client);
      SteadyGrows(clients[d], old(client.stack.pcbs), client.stack.pcbs);
    }
  }

  lemma PortMeans(net: Net, a: Action)
    requires Fits(net, a) && a.SetPort?
    ensures NetStep(net, a) == net.(world := net.world.(localPort := a.port % 0x10000))
  {
  }

  lemma NetStepMeans(net: Net, net': Net, s: Life.Slice, s': Life.Slice, q': seq<byte>, a: Action)
    requires Fits(net, a) && !a.SetPort? && Life.SliceOf(net.world, a.c) == s && Life.SliceOk(s)
    requires (s', q') == After(s, net.queues[a.c], a)
    requires net' == Net(Life.Put(net.world, a.c, s'), net.queues[a.c := q'])
    ensures net' == NetStep(net, a)
  {
    hide Life.Local;
  }

  lemma NothingOwned(m: Cells, chains: seq<seq<Pbuf>>)
    requires m.holders == multiset{} && forall c | 0 <= c < |chains| :: chains[c] == []
    ensures AllOwned(m, chains, multiset{})
  {
    NoTokens(chains);
  }

  lemma {:induction false} NoTokens(chains: seq<seq<Pbuf>>)
    requires forall c | 0 <= c < |chains| :: chains[c] == []
    ensures TokensOf(chains) == multiset{}
    decreases |chains|
  {
    if chains != [] { NoTokens(chains[1..]); }
  }

  /** `n` new clients on a new stack. */
  method NewHost(n: nat) returns (host: Host, ghost repr: set<object>)
    ensures fresh(repr) && host.Valid() && host.Inside(repr) && |host.clients| == n && host.others == multiset{}
    ensures host.State() == NewNet(n)
  {
    hide PbufPool.Valid, Host.Valid, Host.State, Host.Inside;
    var stack := NewStack();
    var clients := NewClients(stack, n);
    host := new Host(stack, clients);
    repr := {stack, stack.pool} + set c | c in clients;
    host.StartsBlank(repr);
  }

  method NewStack() returns (stack: Stack)
    ensures fresh(stack) && fresh(stack.pool) && stack.Valid() && stack.pool.Valid()
    ensures stack.pcbs == [] && stack.localPort == 0
    ensures stack.pool.mem.next == map[] && stack.pool.mem.holders == multiset{}
  {
    var pool := new PbufPool();
    stack := new Stack(pool);
  }

  method NewClients(stack: Stack, n: nat) returns (clients: seq<TcpClient>)
    requires stack.Valid() && stack.pool.Valid()
    ensures |clients| == n
    ensures fresh(set c | c in clients)
    ensures forall c | 0 <= c < n :: clients[c] in clients && clients[c].stack == stack && clients[c].ctx == null
    ensures forall c, d | 0 <= c < n && 0 <= d < n && c != d :: clients[c] != clients[d]
  {
    hide PbufPool.Valid;
    clients := [];
    if n > 0 {
      var client := new TcpClient(stack);
      var rest := NewClients(stack, n - 1);
      clients := [client] + rest;
    }
  }

  /**
   From new clients, with every run of actions, lwIP errors and destructions included: the heap is what the machine
   computes. So no pointer to a dead PCB is followed exactly if the events of the actions are orderly, and the PCB
   invariant holds exactly if they are harmless. Every client is in order, and every pbuf handed out was released once
   or is queued by a client.
   */
  method PlayFromStart(n: nat, actions: seq<Action>) returns (host: Host)
    requires forall a | a in actions :: Possible(a) && (!a.SetPort? ==> a.c < n)
    ensures host.Valid() && |host.clients| == n && (forall c | 0 <= c < n :: host.clients[c].Valid())
    ensures AllFit(NewNet(n), actions) && host.State() == NetRun(NewNet(n), actions)
    ensures Life.NeverMisused(host.View()) <==> Life.Orderly(Life.NewWorld(n), Labels(NewNet(n), actions))
    ensures Life.Inv(host.View()) <==> Life.HarmlessRun(Life.NewWorld(n), Labels(NewNet(n), actions))
    ensures host.stack.pool.allocs == host.stack.pool.frees + |host.stack.pool.mem.next.Keys|
    ensures forall p | p in host.stack.pool.mem.next :: exists c | 0 <= c < n :: p in host.clients[c].Chain()
  {
    hide Host.Valid, Host.View, Life.NeverMisused, Life.Orderly, Life.Inv, Life.HarmlessRun, Life.Run,
      TcpClient.Valid, Possible, Host.Inside, Labels, NetRun;
    ghost var repr;
    host, repr := NewHost(n);
    repr := host.Play(actions, repr);
    host.Accounted();
    ghost var w, es := Life.NewWorld(n), Labels(NewNet(n), actions);
    NetRunLife(NewNet(n), actions);
    Life.MisuseIff(w, es);
    Life.BlankInv(w);
    Life.RunInvIff(w, es);
  }
}
