/** The browser half: `connectRunStream`, as the record its closures share and as the object
    that updates it in place. */
module StreamClient {
  import opened RunEvents

  const BaseBackoffMs: nat := 500
  const MaxBackoffMs: nat := 10000

  /** The closure variables, and what the caller's handlers have been told. */
  datatype Client = Client(
    lastSeq: nat,
    stopped: bool,
    attempts: nat,
    useSse: bool,
    socket: bool,                 // `ws` or `es` is set
    timer: bool,                  // a reconnect is scheduled
    delay: nat,                   // for how many ms the last timer was set
    delivered: seq<Wire>,         // calls of `onEvent`, with a numbered event
    strays: seq<Event>,           // calls of `onEvent`, with an event without a number
    ended: bool)                  // 'ended' was notified

  /** What may arrive; this server only ever sends numbered events. */
  datatype Frame = Malformed | Unnumbered(event: Event) | Numbered(wire: Wire)

  function Pow2(n: nat): (p: nat)
    ensures p >= 1
  {
    if n == 0 then 1 else 2 * Pow2(n - 1)
  }

  /** Exponential backoff, capped. */
  function Delay(attempts: nat): nat {
    var d := BaseBackoffMs * Pow2(attempts);
    if d < MaxBackoffMs then d else MaxBackoffMs
  }

  /** The back-off: half a second at first, twice as long each time, and never over ten seconds,
      which it reaches with the sixth attempt and keeps. */
  lemma {:induction false} DelayGrows(n: nat)
    ensures Delay(0) == 500
    ensures Delay(n + 1) == if 2 * Delay(n) < 10000 then 2 * Delay(n) else 10000
    ensures 500 <= Delay(n) <= Delay(n + 1) <= 10000
    ensures Delay(n) == 10000 <==> n >= 5
  {
    if n >= 5 {
      assert Pow2(n) >= 32 by { Pow2Monotone(5, n); }
    } else {
      assert Pow2(n) <= 16 by { Pow2Monotone(n, 4); }
    }
  }

  lemma {:induction false} Pow2Monotone(m: nat, n: nat)
    requires m <= n
    ensures Pow2(m) <= Pow2(n)
    decreases n
  {
    if m < n { Pow2Monotone(m, n - 1); }
  }

  /** The record as it is right after `connect()` returns from `connectRunStream`. */
  function Initial(afterSeq: nat, hasWebSocket: bool): Client {
    Connect(Client(afterSeq, false, 0, !hasWebSocket, false, false, 0, [], [], false))
  }

  function Connect(c: Client): Client {
    if c.stopped then c.(timer := false) else c.(timer := false, socket := true)
  }

  function HandleMessage(c: Client, w: Wire): Client {
    var heard := c.(lastSeq := if c.lastSeq < w.seqNo then w.seqNo else c.lastSeq,
                    attempts := 0,
                    delivered := c.delivered + [w]);
    if IsTerminalEvent(w.event) then Finish(heard) else heard
  }

  function Finish(c: Client): Client {
    c.(stopped := true, socket := false, timer := false, ended := true)
  }

  /** A malformed frame is ignored altogether; an event without a number moves nothing on. */
  function HandleFrame(c: Client, f: Frame): Client {
    match f
    case Malformed => c
    case Numbered(w) => HandleMessage(c, w)
    case Unnumbered(e) =>
      var heard := c.(attempts := 0, strays := c.strays + [e]);
      if IsTerminalEvent(e) then Finish(heard) else heard
  }

  /** What an arriving frame does. A malformed one does nothing. Any other is passed on to the
      handler, resets the back-off and, if it announces a terminal status, ends the stream for good,
      with the connection and any timer gone; its number, if it has one, only ever raises
      lastSeq. */
  lemma FrameMeans(c: Client, f: Frame)
    ensures f.Malformed? ==> HandleFrame(c, f) == c
    ensures !f.Malformed? ==>
              var after, event := HandleFrame(c, f), if f.Numbered? then f.wire.event else f.event;
              && |after.delivered| + |after.strays| == |c.delivered| + |c.strays| + 1 && after.attempts == 0
              && (f.Numbered? ==> after.delivered == c.delivered + [f.wire])
              && (f.Unnumbered? ==> after.strays == c.strays + [event])
              && c.lastSeq <= after.lastSeq && (after.lastSeq != c.lastSeq ==> f.Numbered? && after.lastSeq == f.wire.seqNo)
              && (f.Numbered? ==> f.wire.seqNo <= after.lastSeq)
              && (after.ended <==> c.ended || (event.RunStatus? && event.status != Queued && event.status != Running))
              && (event.RunStatus? && event.status != Queued && event.status != Running ==> after.stopped && !after.socket && !after.timer)
  {
    if !f.Malformed? {
      TerminalOrNot(if f.Numbered? then f.wire.event else f.event);
    }
  }

  lemma TerminalOrNot(e: Event)
    ensures IsTerminalEvent(e) <==> e.RunStatus? && e.status != Queued && e.status != Running
  {
    if e.RunStatus? {
      assert e.status.Queued? || e.status.Running? || e.status.Completed? || e.status.Failed? || e.status.Cancelled?
             || e.status.TimedOut?;
    }
  }

  function ScheduleReconnect(c: Client): Client {
    if c.stopped || c.timer then c else c.(attempts := c.attempts + 1, timer := true, delay := Delay(c.attempts))
  }

  /** There is one timer at most: asking again while it runs changes nothing, not even the delay
      of the next one; and a client that has stopped sets none. */
  lemma OneTimer(c: Client)
    ensures ScheduleReconnect(ScheduleReconnect(c)) == ScheduleReconnect(c)
    ensures c.stopped ==> ScheduleReconnect(c) == c
    ensures !c.stopped ==> ScheduleReconnect(c).timer
  {
  }

  /** `socket.onclose`, or `source.onerror`: the connection is gone. */
  function ConnectionLost(c: Client, wasOpen: bool): Client {
    if c.stopped then c
    else ScheduleReconnect(c.(socket := false, useSse := c.useSse || !wasOpen))
  }

  function Close(c: Client): Client {
    c.(stopped := true, socket := false, timer := false)
  }

  class RunStream {
    var lastSeq: nat
    var stopped: bool
    var attempts: nat
    var useSse: bool
    var socket: bool
    var reconnectTimer: bool
    var timerDelay: nat
    ghost var delivered: seq<Wire>
    ghost var strays: seq<Event>
    ghost var ended: bool

    ghost function Value(): Client
      reads this
    {
      Client(lastSeq, stopped, attempts, useSse, socket, reconnectTimer, timerDelay, delivered, strays, ended)
    }

    constructor (afterSeq: nat, hasWebSocket: bool)
      ensures Value() == Initial(afterSeq, hasWebSocket)
    {
      lastSeq, stopped, attempts, useSse := afterSeq, false, 0, !hasWebSocket;
      socket, reconnectTimer, timerDelay := false, false, 0;
      delivered, strays, ended := [], [], false;
      new;
      ConnectNow();
    }

    /** `connect`, also as the reconnect timer's callback. */
    method ConnectNow()
      modifies this
      ensures Value() == Connect(old(Value()))
    {
      reconnectTimer := false;
      if stopped { return; }
      socket := true;
    }

    /** `handleMessage`. */
    method OnFrame(f: Frame)
      modifies this
      ensures Value() == HandleFrame(old(Value()), f)
    {
      if f.Malformed? { return; }
      var event := if f.Numbered? then f.wire.event else f.event;
      if f.Numbered? && f.wire.seqNo > lastSeq {
        lastSeq := f.wire.seqNo;
      }
      attempts := 0;
      if f.Numbered? {
        delivered := delivered + [f.wire];
      } else {
        strays := strays + [event];
      }
      if IsTerminalEvent(event) {
        stopped := true;
        Teardown();
        ended := true;
      }
    }

    method Teardown()
      modifies this
      ensures Value() == old(Value()).(socket := false, timer := false)
    {
      reconnectTimer := false;
      socket := false;
    }

    method Schedule()
      modifies this
      ensures Value() == ScheduleReconnect(old(Value()))
    {
      if stopped || reconnectTimer { return; }
      timerDelay := Delay(attempts);
      attempts := attempts + 1;
      reconnectTimer := true;
    }

    method OnConnectionLost(wasOpen: bool)
      modifies this
      ensures Value() == ConnectionLost(old(Value()), wasOpen)
    {
      if stopped { return; }
      if !useSse && !wasOpen {
        useSse := true;
      }
      socket := false;
      Schedule();
    }

    method CloseStream()
      modifies this
      ensures Value() == Close(old(Value()))
    {
      stopped := true;
      Teardown();
    }
  }
}
