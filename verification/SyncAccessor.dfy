/** The accessor object: one entry point for both cores. */
module SyncAccessors {
  import opened Wrappers
  import opened RefGraph
  import opened PbufMemory
  import opened RxBuffer
  import opened Lwip
  import opened TcpClients
  import Life = Lifecycle
  import Sync = SyncAccess

  const PICO_OK: int := 0
  const PICO_ERROR_GENERIC: int := -1
  const PICO_ERROR_NO_DATA: int := -3
  const PICO_ERROR_INVALID_ARG: int := -5

  const STATUS: int := 0
  const CONNECT: int := 1

  /** A place for a result, owned by the caller. */
  class Cell {
    var value: int

    constructor (value: int)
      ensures this.value == value
    {
      this.value := value;
    }
  }

  /** A request carried to the networking core; pointers may be null. */
  datatype Payload = Payload(op: int, resultPtr: Cell?, hasIp: bool, connectResult: Cell?)

  /** What the bridge does with a payload: run it once under the lock, or fail without effect. */
  datatype Bridge = Runs | Fails(err: int)

  /** The surroundings of a connect: is a PCB available, and what does tcp_connect answer. */
  datatype Net = Net(available: bool, answer: int)

  /** The client as the object of the concurrent machine. */
  ghost function ObjectOf(client: TcpClient): Sync.Obj
    reads client, client.ctx, client.stack, client.stack.pcbs, if client.ctx != null then {client.ctx.tx} else {}
  {
    Sync.Obj(client.View(), client.stack.States())
  }

  /** lwIP's pbufs, and those the client has queued. */
  ghost function PbufsOf(client: TcpClient): (Memory<Pbuf>, seq<Pbuf>)
    reads client, client.ctx, client.stack.pool, if client.ctx != null then {client.ctx.rx} else {}
  {
    (client.stack.pool.mem, client.Chain())
  }

  /** The client object's status is that of the concurrent machine. */
  lemma StatusMatches(client: TcpClient)
    requires client.Valid()
    ensures client.Status() == Sync.StatusOf(ObjectOf(client))
  {
    hide PbufPool.Valid, IoRxBuffer.Valid;
    if client.ctx != null && client.ctx.pcb != null {
      var i := client.ctx.pcb.id;
      assert StatesOf(client.stack.pcbs)[i] == client.stack.pcbs[i].state;
    }
  }

  /** The result of the machine's direct status call, from the client's fields. */
  lemma StatusIs(client: TcpClient)
    requires client.Valid()
    ensures var v := Sync.Direct(ObjectOf(client), Sync.Status).1;
            && (v == CLOSED <==>
                client.ctx == null || client.ctx.pcb == null || client.ctx.pcb.state in {CLOSED, CLOSE_WAIT, CLOSING})
            && (v != CLOSED ==> v == client.ctx.pcb.state)
  {
    hide PbufPool.Valid, IoRxBuffer.Valid, ObjectOf, Sync.StatusOf;
    StatusMatches(client);
  }

  /** The result of the machine's direct connect call. */
  lemma ConnectIs(client: TcpClient, net: Net)
    ensures Sync.Direct(ObjectOf(client), Sync.Connecting(net.available, net.answer)).1 ==
            if client.ctx != null then Life.PICO_ERROR_RESOURCE_IN_USE
            else if !net.available then Life.PICO_ERROR_IO
            else if net.answer == ERR_OK then Life.PICO_OK
            else net.answer
  {
  }

  class TcpClientSyncAccessor {
    const client: TcpClient
    var locked: bool

    constructor (client: TcpClient)
      ensures this.client == client && !locked
    {
      this.client, locked := client, false;
    }

    /** The direct status call, as the machine makes it; the lock is held. */
    method DirectStatus() returns (v: nat)
      requires client.Valid() && locked
      modifies (if client.ctx != null then client.ctx.Own() else {})`misused
      ensures client.Valid() && (ObjectOf(client), v) == Sync.Direct(old(ObjectOf(client)), Sync.Status)
      ensures PbufsOf(client) == old(PbufsOf(client))
    {
      hide PbufPool.Valid, TcpClientContext.Valid, ViewsOf, StatesOf, Life.Access, Sync.StatusOf;
      StatusMatches(client);
      v := client.TsStatus();
    }

    /** The direct connect call, as the machine makes it; the lock is held. */
    method DirectConnect(net: Net) returns (r: int)
      requires client.Valid() && locked
      modifies client`ctx, client.stack`pcbs, client.stack`count, client.stack`localPort
      modifies client.stack.pool, client.stack.pool.mem.next.Keys
      ensures client.Valid()
      ensures (ObjectOf(client), r) == Sync.Direct(old(ObjectOf(client)), Sync.Connecting(net.available, net.answer))
      ensures PbufsOf(client) == old(PbufsOf(client))
    {
      hide PbufPool.Valid, TcpClientContext.Valid, ViewsOf, StatesOf, Life.Connect;
      r := client.TsConnect(net.available, net.answer);
    }

    /** The payload has a place for its result, and an address to connect to. */
    predicate Complete(p: Payload) {
      (p.op == STATUS && p.resultPtr != null) || (p.op == CONNECT && p.hasIp && p.connectResult != null)
    }

    /** The call that a payload stands for. */
    ghost function OpOf(p: Payload, net: Net): Sync.Op {
      if p.op == STATUS then Sync.Status else Sync.Connecting(net.available, net.answer)
    }

    /**
     Runs on the networking core with the lock held: the direct call, or nothing at all for an incomplete or unknown
     payload. The pbufs are not touched.
     */
    method OnExecute(p: Payload, net: Net) returns (code: int)
      requires client.Valid() && locked
      modifies p.resultPtr, p.connectResult, client`ctx
      modifies client.stack`pcbs, client.stack`count, client.stack`localPort
      modifies client.stack.pool, client.stack.pool.mem.next.Keys
      modifies (if client.ctx != null then client.ctx.Own() else {})`misused
      ensures client.Valid()
      ensures code == if Complete(p) then PICO_OK
                      else if p.op == STATUS || p.op == CONNECT then PICO_ERROR_NO_DATA else PICO_ERROR_INVALID_ARG
      ensures Complete(p) ==>
                (ObjectOf(client), if p.op == STATUS then p.resultPtr.value else p.connectResult.value)
                   == Sync.Direct(old(ObjectOf(client)), OpOf(p, net))
      ensures !Complete(p) ==> ObjectOf(client) == old(ObjectOf(client))
      ensures PbufsOf(client) == old(PbufsOf(client))
    {
      hide PbufPool.Valid, TcpClientContext.Valid, ObjectOf, PbufsOf, Sync.Direct;
      if p.op == STATUS {
        if p.resultPtr != null {
          var v := DirectStatus();
          PlaceApart(p.resultPtr);
          p.resultPtr.value := v;
          return PICO_OK;
        }
        return PICO_ERROR_NO_DATA;
      } else if p.op == CONNECT {
        if p.hasIp && p.connectResult != null {
          var r := DirectConnect(net);
          PlaceApart(p.connectResult);
          p.connectResult.value := r;
          return PICO_OK;
        }
        return PICO_ERROR_NO_DATA;
      } else {
        return PICO_ERROR_INVALID_ARG;
      }
    }

    lemma PlaceApart(place: Cell)
      ensures forall q | q in client.stack.pool.mem.next :: q as object != place
    {
    }

    /** SyncBridge::execute, by its contract. */
    method Execute(p: Payload, bridge: Bridge, net: Net) returns (code: int)
      requires client.Valid() && !locked && (bridge.Fails? ==> bridge.err != PICO_OK)
      requires Complete(p)
      modifies this`locked, p.resultPtr, p.connectResult, client`ctx
      modifies client.stack`pcbs, client.stack`count, client.stack`localPort
      modifies client.stack.pool, client.stack.pool.mem.next.Keys
      modifies (if client.ctx != null then client.ctx.Own() else {})`misused
      ensures client.Valid() && !locked
      ensures code == if bridge.Fails? then bridge.err else PICO_OK
      ensures bridge.Fails? ==>
                && ObjectOf(client) == old(ObjectOf(client))
                && (p.resultPtr != null ==> p.resultPtr.value == old(p.resultPtr.value))
      ensures PbufsOf(client) == old(PbufsOf(client))
      ensures bridge.Runs? ==>
                (ObjectOf(client), if p.op == STATUS then p.resultPtr.value else p.connectResult.value)
                   == Sync.Direct(old(ObjectOf(client)), OpOf(p, net))
    {
      hide PbufPool.Valid, TcpClientContext.Valid, ObjectOf, PbufsOf, Sync.Direct;
      if bridge.Fails? {
        return bridge.err;
      }
      Apart();
      locked := true;
      code := OnExecute(p, net);
      Apart();
      locked := false;
    }

    lemma Apart()
      ensures forall q | q in client.stack.pool.mem.next :: q as object != this
    {
    }

    /**
     status(): on both paths the machine's direct call; a failed bridge call reads as CLOSED and changes nothing. No
     pbuf is touched.
     */
    method Status(crossCore: bool, bridge: Bridge) returns (v: int)
      requires client.Valid() && !locked && (bridge.Fails? ==> bridge.err != PICO_OK)
      modifies this`locked, client`ctx
      modifies client.stack`pcbs, client.stack`count, client.stack`localPort
      modifies client.stack.pool, client.stack.pool.mem.next.Keys
      modifies (if client.ctx != null then client.ctx.Own() else {})`misused
      ensures client.Valid() && !locked
      ensures (ObjectOf(client), v) == if crossCore && bridge.Fails? then (old(ObjectOf(client)), CLOSED)
                                       else Sync.Direct(old(ObjectOf(client)), Sync.Status)
      ensures PbufsOf(client) == old(PbufsOf(client))
      ensures !(crossCore && bridge.Fails?) ==>
                && (v == CLOSED <==> old(client.ctx) == null || old(client.ctx.pcb) == null
                                     || old(client.ctx.pcb.state) in {CLOSED, CLOSE_WAIT, CLOSING})
                && (v != CLOSED ==> v == old(client.ctx.pcb.state))
    {
      hide PbufPool.Valid, TcpClientContext.Valid, ObjectOf, PbufsOf, Sync.Direct;
      StatusIs(client);
      if !crossCore {
        Apart();
        locked := true;
        v := DirectStatus();
        Apart();
        locked := false;
        return;
      }
      var result := new Cell(0);
      var code := Execute(Payload(STATUS, result, false, null), bridge, Net(false, 0));
      v := result.value;
    }

    /**
     connect(): on both paths the machine's direct call; a failed bridge call returns the bridge's error and changes
     nothing. No pbuf is touched.
     */
    method Connect(crossCore: bool, bridge: Bridge, net: Net) returns (r: int)
      requires client.Valid() && !locked && (bridge.Fails? ==> bridge.err != PICO_OK)
      modifies this`locked, client`ctx
      modifies client.stack`pcbs, client.stack`count, client.stack`localPort
      modifies client.stack.pool, client.stack.pool.mem.next.Keys
      modifies (if client.ctx != null then client.ctx.Own() else {})`misused
      ensures client.Valid() && !locked
      ensures (ObjectOf(client), r) ==
              if crossCore && bridge.Fails? then (old(ObjectOf(client)), bridge.err)
              else Sync.Direct(old(ObjectOf(client)), Sync.Connecting(net.available, net.answer))
      ensures PbufsOf(client) == old(PbufsOf(client))
      ensures r == if crossCore && bridge.Fails? then bridge.err
                   else if old(client.ctx) != null then Life.PICO_ERROR_RESOURCE_IN_USE
                   else if !net.available then Life.PICO_ERROR_IO
                   else if net.answer == ERR_OK then Life.PICO_OK
                   else net.answer
    {
      hide PbufPool.Valid, TcpClientContext.Valid, ObjectOf, PbufsOf, Sync.Direct;
      ConnectIs(client, net);
      if !crossCore {
        Apart();
        locked := true;
        r := DirectConnect(net);
        Apart();
        locked := false;
        return;
      }
      var result := new Cell(PICO_ERROR_GENERIC);
      var code := Execute(Payload(CONNECT, null, true, result), bridge, net);
      if code != PICO_OK {
        return code;
      }
      r := result.value;
    }
  }
}
