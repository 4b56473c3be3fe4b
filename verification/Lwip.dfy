/** lwIP's TCP control block, reduced to what the library reads and writes. */
module Lwip {
  import opened Wrappers

  const ERR_OK: int := 0
  const ERR_ABRT: int := -13

  /** The states of a PCB that the library looks at. */
  const CLOSED: nat := 0
  const SYN_SENT: nat := 2
  const CLOSE_WAIT: nat := 7
  const CLOSING: nat := 8

  /** Which callbacks of a PCB are registered. */
  datatype Handlers = Handlers(arg: bool, recv: bool, sent: bool, err: bool, poll: bool)

  const ATTACHED: Handlers := Handlers(true, true, true, true, true)
  const DETACHED: Handlers := Handlers(false, false, false, false, false)

  predicate AllHandlers(h: Handlers) {
    h.arg && h.recv && h.sent && h.err && h.poll
  }

  predicate NoHandlers(h: Handlers) {
    !h.arg && !h.recv && !h.sent && !h.err && !h.poll
  }

  /** A call of tcp_close with lwIP's answer, or of tcp_abort, and the callbacks that were registered then. */
  datatype Ending = CloseCall(answer: int, handlers: Handlers) | AbortCall(handlers: Handlers)

  /** One tcp_close, and a tcp_abort after it exactly if lwIP refused; no callback was registered any more. */
  predicate CloseThenAbort(ends: seq<Ending>, answer: int) {
    && |ends| == (if answer == ERR_OK then 1 else 2)
    && ends[0].CloseCall? && ends[0].answer == answer && NoHandlers(ends[0].handlers)
    && (answer != ERR_OK ==> ends[1].AbortCall? && NoHandlers(ends[1].handlers))
  }

  /**
   The life of a PCB. `connected` says that tcp_connect accepted it; `ends` lists the calls of tcp_close and
   tcp_abort, and `releases` counts those that took effect; `freed` says that lwIP itself gave the PCB up and
   reported an error; `misused` that the library followed a pointer to it after either. `port` is 0 when no
   explicit local port was assigned.
   */
  datatype PcbView = PcbView(handlers: Handlers, connected: bool, port: nat,
                             ends: seq<Ending>, releases: nat, freed: bool, misused: bool)

  /** A new PCB: no callbacks, not connected, no explicit port. */
  const NEW_PCB: PcbView := PcbView(DETACHED, false, 0, [], 0, false, false)

  /** `p` was closed after `before`: its callbacks are gone, and lwIP was asked to close it before it was aborted. */
  predicate ClosedBy(before: seq<Ending>, p: PcbView, answer: int) {
    NoHandlers(p.handlers) && before <= p.ends && CloseThenAbort(p.ends[|before|..], answer)
  }

  /** The PCB no longer exists: it was released, or lwIP gave it up. */
  predicate Dead(p: PcbView) {
    p.freed || p.releases > 0
  }

  /** A PCB after the library followed a pointer to it. */
  function Used(p: PcbView): PcbView {
    p.(misused := p.misused || Dead(p))
  }

  /** A queued piece of the send stream. It refers to the caller's memory: nothing is copied. */
  datatype Chunk = Chunk(src: array<byte>, start: nat, len: nat, more: bool)

  class Pcb {
    /** The arguments of tcp_recved so far. */
    var recved: seq<nat>
    /** The free space of the send buffer, and everything queued by tcp_write so far. */
    var sndbuf: nat
    var queue: seq<Chunk>
    /** The results lwIP will give to the coming calls of tcp_write; ERR_OK once it runs out. */
    var outcomes: seq<int>
    /** The calls of tcp_output so far. */
    var outputs: nat
    /** The number of the PCB in the order of allocation, and its life. */
    const id: nat
    var state: nat
    var handlers: Handlers
    var connected: bool
    var localPort: nat
    ghost var ends: seq<Ending>
    ghost var releases: nat
    ghost var freed: bool
    ghost var misused: bool

    constructor (id: nat)
      ensures recved == [] && queue == [] && sndbuf == 0 && outcomes == [] && outputs == 0
      ensures this.id == id && state == CLOSED && View() == NEW_PCB
    {
      recved, sndbuf, queue, outcomes, outputs := [], 0, [], [], 0;
      this.id, state, handlers, connected, localPort := id, CLOSED, DETACHED, false, 0;
      ends, releases, freed, misused := [], 0, false, false;
    }

    ghost function View(): PcbView
      reads this
    {
      PcbView(handlers, connected, localPort, ends, releases, freed, misused)
    }

    /** Every access of the library to the PCB goes on record. */
    ghost method Touch()
      modifies this`misused
      ensures View() == Used(old(View()))
    {
      misused := misused || Dead(View());
    }

    /** lwIP gives the PCB up and reports an error. */
    ghost method GiveUp()
      modifies this`freed
      ensures View() == old(View()).(freed := true)
    {
      freed := true;
    }

    /** tcp_connect, given lwIP's answer: if it accepts, the PCB enters SYN_SENT. */
    method TcpConnect(answer: int) returns (err: int)
      modifies this`connected, this`state
      ensures err == answer && connected == (answer == ERR_OK)
      ensures state == if answer == ERR_OK then SYN_SENT else old(state)
    {
      connected := answer == ERR_OK;
      if answer == ERR_OK {
        state := SYN_SENT;
      }
      err := answer;
    }

    /** tcp_close, given lwIP's answer: it releases the PCB if it succeeds. */
    method TcpClose(answer: int) returns (err: int)
      modifies this`ends, this`releases, this`misused
      ensures err == answer
      ensures var p := Used(old(View()));
              View() == p.(ends := p.ends + [CloseCall(answer, handlers)],
                           releases := p.releases + if err == ERR_OK then 1 else 0)
    {
      Touch();
      ends := ends + [CloseCall(answer, handlers)];
      if answer == ERR_OK {
        releases := releases + 1;
      }
      err := answer;
    }

    method TcpAbort()
      modifies this`ends, this`releases, this`misused
      ensures var p := Used(old(View()));
              View() == p.(ends := p.ends + [AbortCall(handlers)], releases := p.releases + 1)
    {
      Touch();
      ends := ends + [AbortCall(handlers)];
      releases := releases + 1;
    }

    /** tcp_recved: the argument is 16 bits wide. */
    method TcpRecved(n: nat)
      requires n <= 0xFFFF
      modifies this`recved, this`misused
      ensures recved == old(recved) + [n] && View() == Used(old(View()))
    {
      Touch();
      recved := recved + [n];
    }

    /** tcp_write without the COPY flag: on success the piece is queued by reference. */
    method TcpWrite(src: array<byte>, start: nat, len: nat, more: bool) returns (err: int)
      requires start + len <= src.Length && 0 < len <= sndbuf && len <= 0xFFFF
      modifies this`sndbuf, this`queue, this`outcomes, this`misused
      ensures View() == Used(old(View()))
      ensures err == Verdict(old(outcomes)) && outcomes == Later(old(outcomes))
      ensures err == ERR_OK ==> queue == old(queue) + [Chunk(src, start, len, more)] && sndbuf == old(sndbuf) - len
      ensures err != ERR_OK ==> queue == old(queue) && sndbuf == old(sndbuf)
    {
      Touch();
      err := Verdict(outcomes);
      outcomes := Later(outcomes);
      if err == ERR_OK {
        queue, sndbuf := queue + [Chunk(src, start, len, more)], sndbuf - len;
      }
    }

    method TcpOutput()
      modifies this`outputs, this`misused
      ensures outputs == old(outputs) + 1 && View() == Used(old(View()))
    {
      Touch();
      outputs := outputs + 1;
    }
  }

  function Verdict(outcomes: seq<int>): int {
    if outcomes == [] then ERR_OK else outcomes[0]
  }

  function Later(outcomes: seq<int>): seq<int> {
    if outcomes == [] then [] else outcomes[1..]
  }
}
