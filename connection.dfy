/**
 * The modular client's connection cycle (client/js/main.js): `initializeWebSocket` opens
 * a socket; when it opens the client asks for the full state, and when it closes a
 * reconnect is scheduled after a fixed 3000 ms. There is no back-off, no retry limit and
 * no state in which the client stops reconnecting.
 */
module Connection {
  import opened Records

  /** The fixed reconnect delay, in milliseconds. */
  const ReconnectDelay := 3000

  /** Where the cycle is: a socket is connecting, is open, or a reconnect timer is pending. */
  datatype Phase = Connecting | Open | Waiting

  /**
   *   phase     where the cycle is;
   *   sockets   how many sockets `initializeWebSocket` has created;
   *   delays    the delays of the reconnect timers set so far, in order;
   *   outbox    the messages sent.
   */
  datatype State = State(phase: Phase, sockets: nat, delays: seq<int>, outbox: seq<Command>)

  /** After the page's `load` handler has called `initializeWebSocket()`. */
  const Loaded := State(Connecting, 1, [], [])

  /** What the browser reports, and the reconnect timer. */
  datatype Signal = Opened | Closed | Failed | TimerFired

  /**
   * One step. `onopen` sends REQUEST_FULL_STATE; `onclose` schedules the reconnect;
   * `onerror` only logs; the timer creates a new socket. A signal the browser cannot
   * deliver in the current phase leaves the state unchanged.
   */
  function Next(s: State, sig: Signal): (r: State)
    ensures |r.outbox| == |s.outbox| + (if sig == Opened && s.phase == Connecting then 1 else 0)
    ensures |r.delays| == |s.delays| + (if sig == Closed && s.phase != Waiting then 1 else 0)
    ensures sig == Failed ==> r == s
  {
    match sig
    case Opened =>
      if s.phase == Connecting then s.(phase := Open, outbox := s.outbox + [RequestFullStateCmd]) else s
    case Closed =>
      if s.phase != Waiting then s.(phase := Waiting, delays := s.delays + [ReconnectDelay]) else s
    case Failed => s
    case TimerFired =>
      if s.phase == Waiting then s.(phase := Connecting, sockets := s.sockets + 1) else s
  }

  function Run(s: State, sigs: seq<Signal>): State
    decreases |sigs|
  {
    if sigs == [] then s else Run(Next(s, sigs[0]), sigs[1..])
  }

  /**
   * What the cycle keeps true: every message sent is REQUEST_FULL_STATE, every delay is
   * 3000 ms, and each socket after the first was created by one earlier reconnect timer
   * (so, apart from a pending one, there are as many sockets as closes, plus the first).
   */
  predicate Valid(s: State) {
    && (forall i :: 0 <= i < |s.outbox| ==> s.outbox[i] == RequestFullStateCmd)
    && (forall i :: 0 <= i < |s.delays| ==> s.delays[i] == ReconnectDelay)
    && s.sockets + (if s.phase == Waiting then 1 else 0) == |s.delays| + 1
  }

  lemma NextValid(s: State, sig: Signal)
    requires Valid(s)
    ensures Valid(Next(s, sig))
  {
  }

  /** Whatever the browser reports, the delays stay 3000 ms and only full-state requests are sent. */
  lemma {:induction false} RunValid(s: State, sigs: seq<Signal>)
    requires Valid(s)
    ensures Valid(Run(s, sigs))
    decreases |sigs|
  {
    if sigs != [] {
      NextValid(s, sigs[0]);
      RunValid(Next(s, sigs[0]), sigs[1..]);
    }
  }

  /** Every opening of a socket sends exactly one REQUEST_FULL_STATE. */
  lemma OpenRequestsFullState(s: State)
    requires s.phase == Connecting
    ensures Next(s, Opened).phase == Open
    ensures Next(s, Opened).outbox == s.outbox + [RequestFullStateCmd]
  {
  }

  /** The signals that bring the client from a phase back to an open socket. */
  function PathToOpen(p: Phase): seq<Signal> {
    match p
    case Open => []
    case Connecting => [Opened]
    case Waiting => [TimerFired, Opened]
  }

  /** No phase is terminal: from every state, an open socket is reachable again. */
  lemma AlwaysReopens(s: State)
    ensures Run(s, PathToOpen(s.phase)).phase == Open
  {
    match s.phase
    case Open =>
    case Connecting =>
      assert Run(s, [Opened]) == Run(Next(s, Opened), []);
    case Waiting =>
      var s1 := Next(s, TimerFired);
      assert Run(s, [TimerFired, Opened]) == Run(s1, [Opened]);
      assert Run(s1, [Opened]) == Run(Next(s1, Opened), []);
  }

  /** The page's socket handlers over the module's state. */
  class Client {
    var phase: Phase
    var sockets: nat
    var delays: seq<int>
    var outbox: seq<Command>

    function Current(): State
      reads this
    {
      State(phase, sockets, delays, outbox)
    }

    /** The `load` handler's `initializeWebSocket()`. */
    constructor()
      ensures Current() == Loaded
    {
      phase, sockets, delays, outbox := Connecting, 1, [], [];
    }

    /** `socket.onopen`: `requestFullStateUpdate()`. */
    method OnOpen()
      modifies this
      ensures Current() == Next(old(Current()), Opened)
    {
      if phase == Connecting {
        phase := Open;
        outbox := outbox + [RequestFullStateCmd];
      }
    }

    /** `socket.onclose`: `setTimeout(initializeWebSocket, 3000)`. */
    method OnClose()
      modifies this
      ensures Current() == Next(old(Current()), Closed)
    {
      if phase != Waiting {
        phase := Waiting;
        delays := delays + [ReconnectDelay];
      }
    }

    /** The reconnect timer: `initializeWebSocket()` again. */
    method Reconnect()
      modifies this
      ensures Current() == Next(old(Current()), TimerFired)
    {
      if phase == Waiting {
        phase := Connecting;
        sockets := sockets + 1;
      }
    }
  }
}
