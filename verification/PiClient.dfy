/**
The reconnect logic of the pi adapter (`adapters/pi/src/core.ts`): `start`, `stop`, `connect`,
`closeSocket`, `scheduleReconnect` and the socket handlers. JavaScript runs each handler to its end,
so every event is atomic. A socket's `close` and `error` may come late, when a newer socket is in use,
and `close()` may call the close handler right away.
*/
module PiClient {
  import opened Wrappers

  type Socket = nat
  type Timer = nat

  datatype State = State(
    ws: Option<Socket>,
    timer: Option<Timer>,        // reconnectTimer
    stopped: bool,
    pending: set<Timer>,         // timeouts set and neither fired nor cleared
    sockets: set<Socket>,        // sockets created so far
    live: set<Socket>,           // those that were neither closed nor reported closed
    nextSocket: Socket,
    nextTimer: Timer,
    started: bool
  )

  // What the factory does, and whether closing the old socket reports back synchronously.
  datatype Attempt = Attempt(constructed: bool, closesAtOnce: bool)

  datatype Event =
    | Start(attempt: Attempt)
    | Stop(closesAtOnce: bool)
    | TimerFires(t: Timer, attempt: Attempt)
    | SocketGone(socket: Socket)   // a close or error event

  const INIT := State(None, None, false, {}, {}, {}, 0, 0, false)

  function Schedule(s: State, reconnectMs: int): State {
    if s.stopped || reconnectMs <= 0 || s.timer.Some? then s
    else s.(timer := Some(s.nextTimer), pending := s.pending + {s.nextTimer}, nextTimer := s.nextTimer + 1)
  }

  function ClearTimer(s: State): State {
    if s.timer.Some? then s.(timer := None, pending := s.pending - {s.timer.value}) else s
  }

  // The close and error handlers: they drop whatever socket is current.
  function OnGone(s: State, socket: Socket, reconnectMs: int): State {
    Schedule(s.(ws := None, live := s.live - {socket}), reconnectMs)
  }

  function CloseSocket(s: State, closesAtOnce: bool, reconnectMs: int): State {
    if s.ws.None? then s
    else
      var socket := s.ws.value;
      var closed := if closesAtOnce then OnGone(s, socket, reconnectMs) else s.(live := s.live - {socket});
      closed.(ws := None)
  }

  function Connect(s: State, a: Attempt, reconnectMs: int): State {
    if s.stopped then s
    else
      var s1 := CloseSocket(ClearTimer(s), a.closesAtOnce, reconnectMs);
      if !a.constructed then Schedule(s1, reconnectMs)
      else s1.(ws := Some(s1.nextSocket), sockets := s1.sockets + {s1.nextSocket},
               live := s1.live + {s1.nextSocket}, nextSocket := s1.nextSocket + 1)
  }

  predicate Enabled(s: State, e: Event) {
    match e
    case TimerFires(t, _) => t in s.pending
    case SocketGone(socket) => socket in s.sockets
    case _ => true
  }

  function Apply(s: State, e: Event, reconnectMs: int): State
    requires Enabled(s, e)
  {
    match e
    case Start(a) => Connect(s.(stopped := false, started := true), a, reconnectMs)
    case Stop(closesAtOnce) => CloseSocket(ClearTimer(s.(stopped := true)), closesAtOnce, reconnectMs)
    case TimerFires(t, a) => Connect(s.(timer := None, pending := s.pending - {t}), a, reconnectMs)
    case SocketGone(socket) => OnGone(s, socket, reconnectMs)
  }

  predicate IsRun(s: State, es: seq<Event>, reconnectMs: int)
    decreases |es|
  {
    es == [] || (Enabled(s, es[0]) && IsRun(Apply(s, es[0], reconnectMs), es[1..], reconnectMs))
  }

  function Final(s: State, es: seq<Event>, reconnectMs: int): State
    requires IsRun(s, es, reconnectMs)
    decreases |es|
  {
    if es == [] then s else Final(Apply(s, es[0], reconnectMs), es[1..], reconnectMs)
  }

  predicate Inv(s: State, reconnectMs: int) {
    && s.pending == (if s.timer.Some? then {s.timer.value} else {})
    && (s.stopped ==> s.ws.None? && s.timer.None?)
    && (s.started && !s.stopped && reconnectMs > 0 ==> s.ws.Some? || s.timer.Some?)
    && (s.ws.Some? ==> s.ws.value in s.sockets)
    && s.live <= s.sockets
    && (forall k :: k in s.sockets ==> k < s.nextSocket)
    && (!s.started ==> s.sockets == {} && s.timer.None?)
  }

  lemma StepKeeps(s: State, e: Event, reconnectMs: int)
    requires Inv(s, reconnectMs) && Enabled(s, e)
    ensures Inv(Apply(s, e, reconnectMs), reconnectMs)
  {
  }

  lemma {:induction false} RunKeeps(s: State, es: seq<Event>, reconnectMs: int)
    requires Inv(s, reconnectMs) && IsRun(s, es, reconnectMs)
    ensures Inv(Final(s, es, reconnectMs), reconnectMs)
    decreases |es|
  {
    if es != [] {
      StepKeeps(s, es[0], reconnectMs);
      RunKeeps(Apply(s, es[0], reconnectMs), es[1..], reconnectMs);
    }
  }

  /** In every reachable state `reconnectTimer` names the only pending timeout, a stopped client has
      neither socket nor timer, and a started one that is not stopped and may reconnect has at least
      one of them, so it is never stuck. */
  lemma NeverStuckNorDoubleTimed(es: seq<Event>, reconnectMs: int)
    requires IsRun(INIT, es, reconnectMs)
    ensures var s := Final(INIT, es, reconnectMs);
      && (forall t :: t in s.pending <==> s.timer == Some(t))
      && (s.stopped ==> s.ws == None && s.timer == None)
      && (s.started && !s.stopped && reconnectMs > 0 ==> s.ws.Some? || s.timer.Some?)
  {
    RunKeeps(INIT, es, reconnectMs);
  }

  /** After `stop()` nothing but `start()` brings the client back: whatever late socket events come, it
      opens no socket and sets no timer. */
  lemma {:induction false} StopIsFinal(s: State, es: seq<Event>, reconnectMs: int)
    requires Inv(s, reconnectMs) && s.stopped && IsRun(s, es, reconnectMs)
    requires forall i :: 0 <= i < |es| ==> !es[i].Start?
    ensures var t := Final(s, es, reconnectMs);
      t.stopped && t.ws.None? && t.timer.None? && t.pending == {} && t.sockets == s.sockets
    decreases |es|
  {
    if es != [] {
      StepKeeps(s, es[0], reconnectMs);
      assert forall i :: 0 <= i < |es[1..]| ==> es[1..][i] == es[i + 1];
      StopIsFinal(Apply(s, es[0], reconnectMs), es[1..], reconnectMs);
    }
  }

  // A socket is abandoned when the client lost its reference while it is still open.
  predicate Abandoned(s: State, socket: Socket) {
    socket in s.live && s.ws != Some(socket)
  }

  /** An event abandons an open socket if and only if it is a late close or error: it belongs to a different
      socket than the open one in use. No start, stop or timeout abandons one. */
  lemma OnlyLateCloseAbandons(s: State, e: Event, reconnectMs: int)
    requires Inv(s, reconnectMs) && Enabled(s, e)
    ensures (exists k :: Abandoned(Apply(s, e, reconnectMs), k) && !Abandoned(s, k))
      <==> e.SocketGone? && s.ws.Some? && s.ws.value in s.live && s.ws.value != e.socket
  {
    var t := Apply(s, e, reconnectMs);
    if e.SocketGone? && s.ws.Some? && s.ws.value in s.live && s.ws.value != e.socket {
      assert Abandoned(t, s.ws.value) && !Abandoned(s, s.ws.value);
    }
  }

  /** That is reachable: start twice, then the first socket's close arrives and the timer fires, and two
      sockets are open at once. */
  lemma TwoSocketsOpen(reconnectMs: int)
    requires reconnectMs > 0
    ensures var a := Attempt(true, false);
      var es := [Start(a), Start(a), SocketGone(0), TimerFires(0, a)];
      IsRun(INIT, es, reconnectMs) && Final(INIT, es, reconnectMs).live == {1, 2}
  {
    var a := Attempt(true, false);
    var s1 := Apply(INIT, Start(a), reconnectMs);
    var s2 := Apply(s1, Start(a), reconnectMs);
    var s3 := Apply(s2, SocketGone(0), reconnectMs);
    var s4 := Apply(s3, TimerFires(0, a), reconnectMs);
    var es := [Start(a), Start(a), SocketGone(0), TimerFires(0, a)];
    assert es[1..][1..] == [SocketGone(0), TimerFires(0, a)] && es[1..][1..][1..] == [TimerFires(0, a)];
    assert IsRun(s4, [], reconnectMs) && [TimerFires(0, a)][1..] == [];
    assert IsRun(s3, [TimerFires(0, a)], reconnectMs) && Final(s3, [TimerFires(0, a)], reconnectMs) == s4;
    assert IsRun(s2, es[1..][1..], reconnectMs) && Final(s2, es[1..][1..], reconnectMs) == s4;
    assert IsRun(s1, es[1..], reconnectMs) && Final(s1, es[1..], reconnectMs) == s4;
  }

  /** `stop` closes the current socket and no other: whatever was abandoned before stays open. */
  lemma StopClosesOnlyCurrent(s: State, closesAtOnce: bool, reconnectMs: int, k: Socket)
    requires Inv(s, reconnectMs)
    ensures k in Apply(s, Stop(closesAtOnce), reconnectMs).live <==> k in s.live && s.ws != Some(k)
  {
  }

  /** Once abandoned, a socket stays open and unreferenced until it goes away by itself: nothing the client
      does, starting and stopping included, closes it or takes it up again. */
  lemma {:induction false} AbandonedStaysOpen(s: State, es: seq<Event>, reconnectMs: int, k: Socket)
    requires Inv(s, reconnectMs) && IsRun(s, es, reconnectMs) && Abandoned(s, k)
    requires forall i :: 0 <= i < |es| ==> es[i] != SocketGone(k)
    ensures Abandoned(Final(s, es, reconnectMs), k)
    decreases |es|
  {
    if es != [] {
      StepKeeps(s, es[0], reconnectMs);
      assert k < s.nextSocket && Abandoned(Apply(s, es[0], reconnectMs), k);
      assert forall i :: 0 <= i < |es[1..]| ==> es[1..][i] == es[i + 1];
      AbandonedStaysOpen(Apply(s, es[0], reconnectMs), es[1..], reconnectMs, k);
    }
  }

  class AttnMeshClient {
    const reconnectMs: int
    var ws: Option<Socket>
    var reconnectTimer: Option<Timer>
    var stopped: bool
    // The runtime around the client.
    var pending: set<Timer>
    var sockets: set<Socket>
    var live: set<Socket>
    var nextSocket: Socket
    var nextTimer: Timer
    ghost var started: bool

    ghost function View(): State
      reads this
    {
      State(ws, reconnectTimer, stopped, pending, sockets, live, nextSocket, nextTimer, started)
    }

    constructor (reconnectMs: int)
      ensures View() == INIT && this.reconnectMs == reconnectMs && Inv(View(), reconnectMs)
    {
      this.reconnectMs := reconnectMs;
      ws, reconnectTimer, stopped := None, None, false;
      pending, sockets, live, nextSocket, nextTimer, started := {}, {}, {}, 0, 0, false;
    }

    method CallStart(a: Attempt)
      requires Inv(View(), reconnectMs)
      modifies this
      ensures View() == Apply(old(View()), Start(a), reconnectMs) && Inv(View(), reconnectMs)
      ensures !stopped && (a.constructed ==> ws == Some(old(nextSocket)) && old(nextSocket) in live)
      ensures !a.constructed ==> ws.None? && sockets == old(sockets) && (reconnectMs > 0 ==> reconnectTimer.Some?)
      ensures old(ws).Some? ==> old(ws).value !in live
    {
      StepKeeps(View(), Start(a), reconnectMs);
      stopped := false;
      started := true;
      TryConnect(a);
    }

    method CallStop(closesAtOnce: bool)
      requires Inv(View(), reconnectMs)
      modifies this
      ensures View() == Apply(old(View()), Stop(closesAtOnce), reconnectMs) && Inv(View(), reconnectMs)
      ensures stopped && ws.None? && reconnectTimer.None? && pending == {} && sockets == old(sockets)
      ensures live == if old(ws).Some? then old(live) - {old(ws).value} else old(live)
    {
      StepKeeps(View(), Stop(closesAtOnce), reconnectMs);
      stopped := true;
      CancelTimer();
      CloseCurrent(closesAtOnce);
    }

    method TimeoutFires(t: Timer, a: Attempt)
      requires Inv(View(), reconnectMs) && Enabled(View(), TimerFires(t, a))
      modifies this
      ensures View() == Apply(old(View()), TimerFires(t, a), reconnectMs) && Inv(View(), reconnectMs)
      ensures a.constructed ==> ws == Some(old(nextSocket)) && old(nextSocket) in live
      ensures !a.constructed ==> ws.None? && sockets == old(sockets) && (reconnectMs > 0 ==> reconnectTimer.Some?)
      ensures old(ws).Some? ==> old(ws).value !in live
    {
      StepKeeps(View(), TimerFires(t, a), reconnectMs);
      pending := pending - {t};
      reconnectTimer := None;
      TryConnect(a);
    }

    method HandleGone(socket: Socket)
      modifies this
      ensures View() == OnGone(old(View()), socket, reconnectMs)
      ensures ws.None? && live == old(live) - {socket} && sockets == old(sockets) && stopped == old(stopped)
      ensures reconnectTimer == if old(reconnectTimer).None? && !stopped && reconnectMs > 0
        then Some(old(nextTimer)) else old(reconnectTimer)
    {
      live := live - {socket};
      ws := None;
      ScheduleReconnect();
    }

    method CancelTimer()
      modifies this
      ensures View() == ClearTimer(old(View())) && reconnectTimer.None?
    {
      if reconnectTimer.Some? {
        pending := pending - {reconnectTimer.value};
        reconnectTimer := None;
      }
    }

    method CloseCurrent(closesAtOnce: bool)
      modifies this
      ensures View() == CloseSocket(old(View()), closesAtOnce, reconnectMs)
    {
      if ws.Some? {
        var socket := ws.value;
        live := live - {socket};
        if closesAtOnce {
          HandleGone(socket);
        }
        ws := None;
      }
    }

    method TryConnect(a: Attempt)
      modifies this
      ensures View() == Connect(old(View()), a, reconnectMs)
    {
      if stopped {
        return;
      }
      CancelTimer();
      CloseCurrent(a.closesAtOnce);
      if !a.constructed {
        ScheduleReconnect();
        return;
      }
      var socket := nextSocket;
      sockets, live, nextSocket := sockets + {socket}, live + {socket}, nextSocket + 1;
      ws := Some(socket);
    }

    method ScheduleReconnect()
      modifies this
      ensures View() == Schedule(old(View()), reconnectMs)
      ensures old(reconnectTimer).None? && !stopped && reconnectMs > 0 ==>
        reconnectTimer == Some(old(nextTimer)) && pending == old(pending) + {old(nextTimer)}
      ensures old(reconnectTimer).Some? || stopped || reconnectMs <= 0 ==>
        reconnectTimer == old(reconnectTimer) && pending == old(pending)
    {
      if stopped || reconnectMs <= 0 || reconnectTimer.Some? {
        return;
      }
      reconnectTimer := Some(nextTimer);
      pending := pending + {nextTimer};
      nextTimer := nextTimer + 1;
    }
  }
}
