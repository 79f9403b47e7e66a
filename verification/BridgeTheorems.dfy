/** What every run of the terminal handlers keeps, and how a doomed handler ends. */
module BridgeTheorems {
  import opened Wrappers
  import opened TmuxManager
  import opened Bridge

  // ---------------------------------------------------------------------------------------
  // Open clients

  predicate Holds(m: Mgr, sid: SessionId, i: nat) {
    sid in m.slots && m.slots[sid] == i
  }

  /** In every reachable state the open attach clients are exactly the values of the sessions map,
      so each session id has at most one, and each belongs to a handler that has not detached. */
  lemma {:induction false} OpenClientsAreTheSlots(steps: seq<Step>)
    requires IsRun(Start(), steps)
    ensures var s := End(Start(), steps);
      && |s.handlers| == |s.mgr.clients|
      && (forall i: nat | i < |s.mgr.clients| :: !s.mgr.clients[i].closed <==> Holds(s.mgr, s.mgr.clients[i].sid, i))
      && (forall sid | sid in s.mgr.slots :: s.mgr.slots[sid] < |s.mgr.clients|)
      && (forall i: nat | i < |s.mgr.clients| && !s.mgr.clients[i].closed ::
            !s.handlers[i].main.Detached? && !s.handlers[i].main.Finished?)
      && (forall i: nat, j: nat | i < j < |s.mgr.clients| && !s.mgr.clients[i].closed && !s.mgr.clients[j].closed ::
            s.mgr.clients[i].sid != s.mgr.clients[j].sid)
  {
    RunKeepsInv(Start(), steps);
  }

  /** The only ways for an open client to become closed: its own handler detaching, a newer attach
      to its session id, a kill of its session id, a shutdown. A stale Detach is none of them. */
  lemma OnlyTheseCloseAClient(s: State, st: Step, i: nat)
    requires Inv(s) && Enabled(s, st) && i < |s.mgr.clients| && !s.mgr.clients[i].closed
    ensures Next(s, st).mgr.clients[i].closed <==>
              || st == Act(i, DetachNow) || st == Connect(s.mgr.clients[i].sid)
              || st == KillSession(s.mgr.clients[i].sid) || st == ShutdownAll
  {
  }

  /** A handler whose client was already closed changes nothing when it detaches. */
  lemma StaleDetachChangesNothing(s: State, i: nat)
    requires Inv(s) && i < |s.handlers| && Enabled(s, Act(i, DetachNow)) && s.mgr.clients[i].closed
    ensures Next(s, Act(i, DetachNow)).mgr == s.mgr
  {
  }

  // ---------------------------------------------------------------------------------------
  // A doomed handler finishes

  /** Past saving: a pump has failed, the client is closed, or the main goroutine is on its way out. */
  predicate Doomed(h: Handler, c: Client) {
    || c.closed || h.main.Leaving? || h.main.Detached? || h.main.Finished?
    || !h.once.NotRun? || h.out.AtOnce? || h.inn.AtOnce?
  }

  /** How many turns of the goroutine named by `Actor` are left at most. */
  function Rank(h: Handler): nat {
    match h.main
    case Finished => 0
    case Detached => 1
    case Leaving => 2
    case Greeting => 8
    case Pumping =>
      if h.doneClosed then 3
      else if !h.once.NotRun? then 4
      else if h.out.AtOnce? || h.inn.AtOnce? then 5
      else if h.out.Reading? then 6
      else 7
  }

  datatype Goroutine = MainGo | PumpGo(side: Side)

  /** The goroutine whose next step brings the end nearer. */
  function Actor(h: Handler): Goroutine {
    if !h.main.Pumping? || h.doneClosed then MainGo
    else if !h.once.NotRun? then PumpGo(if h.out.Closing? then Out else In)
    else if h.out.AtOnce? then PumpGo(Out)
    else if h.inn.AtOnce? then PumpGo(In)
    else PumpGo(Out)
  }

  function Owner(m: Move): Goroutine {
    match m
    case Read(side, _) => PumpGo(side)
    case Send(_) => PumpGo(Out)
    case Take(_) => PumpGo(In)
    case EnterOnce(side) => PumpGo(side)
    case Shut(side) => PumpGo(side)
    case _ => MainGo
  }

  lemma MoveLowersRank(h: Handler, c: Client, m: Move)
    requires HandlerOk(h, c) && (c.closed ==> !c.ptmxOpen) && Doomed(h, c) && Can(h, c, m)
    ensures Rank(Moved(h, m)) + (if Owner(m) == Actor(h) then 1 else 0) <= Rank(h)
  {
  }

  lemma MoveKeepsDoom(h: Handler, c: Client, d: Client, m: Move)
    requires HandlerOk(h, c) && Doomed(h, c) && Can(h, c, m) && Later(c, d)
    ensures Doomed(Moved(h, m), d)
  {
  }

  /** The designated goroutine is never blocked. */
  lemma ActorCanMove(h: Handler, c: Client) returns (m: Move)
    requires HandlerOk(h, c) && Doomed(h, c) && !h.main.Finished?
    ensures Can(h, c, m) && Owner(m) == Actor(h)
  {
    m := match h.main
      case Greeting => Greet(false)
      case Leaving => DetachNow
      case Detached => CloseConn
      case _ =>
        if h.doneClosed then Wake
        else if !h.once.NotRun? then Shut(if h.out.Closing? then Out else In)
        else if h.out.AtOnce? then EnterOnce(Out)
        else if h.inn.AtOnce? then EnterOnce(In)
        else if h.out.Reading? then Read(Out, false)
        else Send(false);
  }

  predicate IsTurn(s: State, st: Step, i: nat)
    requires i < |s.handlers|
  {
    st.Act? && st.h == i && Owner(st.move) == Actor(s.handlers[i]) && !s.handlers[i].main.Finished?
  }

  predicate IsDoomed(s: State, i: nat)
    requires |s.handlers| == |s.mgr.clients|
  {
    i < |s.handlers| && Doomed(s.handlers[i], s.mgr.clients[i])
  }

  predicate Fails(m: Move) {
    match m
    case Greet(ok) => !ok
    case Read(_, ok) => !ok
    case Send(ok) => !ok
    case Take(msg) => msg.Ping? && !msg.ok
    case _ => false
  }

  /** What dooms a handler: a failed read or write of its own, or someone closing its client. */
  lemma WhatDoomsAHandler(s: State, st: Step, i: nat)
    requires Inv(s) && Enabled(s, st) && i < |s.handlers| && !IsDoomed(s, i)
    ensures var s' := Next(s, st); |s'.handlers| == |s'.mgr.clients|
    ensures IsDoomed(Next(s, st), i) <==>
              || (st.Act? && st.h == i && Fails(st.move))
              || st == Connect(s.mgr.clients[i].sid) || st == KillSession(s.mgr.clients[i].sid) || st == ShutdownAll
  {
  }

  /** No step of anyone saves a doomed handler or sets it back, and a turn brings it nearer the end. */
  lemma StepTowardsTheEnd(s: State, st: Step, i: nat)
    requires Inv(s) && Enabled(s, st) && IsDoomed(s, i)
    ensures var s' := Next(s, st);
      && Inv(s') && IsDoomed(s', i)
      && Rank(s'.handlers[i]) + (if IsTurn(s, st, i) then 1 else 0) <= Rank(s.handlers[i])
  {
    var s' := Next(s, st);
    StepKeepsInv(s, st);
    StepAgesClients(s, st, i);
    if st.Act? && st.h == i {
      MoveLowersRank(s.handlers[i], s.mgr.clients[i], st.move);
      MoveKeepsDoom(s.handlers[i], s.mgr.clients[i], s'.mgr.clients[i], st.move);
    } else {
      assert s'.handlers[i] == s.handlers[i];
    }
  }

  /** The turns handler `i` gets in a run. */
  ghost function Turns(s: State, steps: seq<Step>, i: nat): nat
    requires Inv(s) && IsRun(s, steps) && i < |s.handlers|
    decreases |steps|
  {
    if steps == [] then 0
    else
      StepKeepsInv(s, steps[0]);
      StepKeepsHandlers(s, steps[0]);
      (if IsTurn(s, steps[0], i) then 1 else 0) + Turns(Next(s, steps[0]), steps[1..], i)
  }

  lemma StepKeepsHandlers(s: State, st: Step)
    requires Enabled(s, st)
    ensures |Next(s, st).handlers| >= |s.handlers|
  {
  }

  /** A handler that is doomed gets at most `Rank` turns, eight from the very start, and has finished
      once it has had them; a finished handler's client is closed and was killed exactly once, with
      the pty and the socket closed, whatever else ran in between. */
  lemma {:induction false} DoomedHandlersFinish(s: State, steps: seq<Step>, i: nat)
    requires Inv(s) && IsDoomed(s, i) && IsRun(s, steps)
    ensures var e := End(s, steps);
      && Inv(e) && IsDoomed(e, i)
      && Turns(s, steps, i) + Rank(e.handlers[i]) <= Rank(s.handlers[i]) <= 8
      && (Turns(s, steps, i) == Rank(s.handlers[i]) ==> e.handlers[i].main.Finished?)
      && (e.handlers[i].main.Finished? ==>
            e.mgr.clients[i].kills == 1 && !e.mgr.clients[i].ptmxOpen && !e.handlers[i].connOpen)
    decreases |steps|
  {
    if steps != [] {
      StepTowardsTheEnd(s, steps[0], i);
      DoomedHandlersFinish(Next(s, steps[0]), steps[1..], i);
    }
  }

  /** Whatever the order of Close and ClosePTMX calls, no process is killed twice. */
  lemma {:induction false} KilledAtMostOnce(steps: seq<Step>, i: nat)
    requires IsRun(Start(), steps) && i < |End(Start(), steps).mgr.clients|
    ensures var c := End(Start(), steps).mgr.clients[i]; c.kills == if c.closed then 1 else 0
  {
    RunKeepsInv(Start(), steps);
  }

  // ---------------------------------------------------------------------------------------
  // The pumps stop

  predicate EndpointsClosed(h: Handler, c: Client) {
    !h.connOpen && !c.ptmxOpen
  }

  /** Once the guarded shutdown has run, and once the handler has finished, both endpoints are closed. */
  lemma WhenEndpointsAreClosed(h: Handler, c: Client)
    requires HandlerOk(h, c) && (c.closed ==> !c.ptmxOpen) && (h.once.Done? || h.main.Finished?)
    ensures EndpointsClosed(h, c)
  {
  }

  /** Steps a pump can still take when both endpoints are closed. */
  function PumpLeft(p: Pump): nat {
    match p
    case Busy => 6
    case Reading => 5
    case AtOnce => 4
    case Closing(k) => if k < 3 then 3 - k else 0
    case _ => 0
  }

  /** With both endpoints closed the next blocking call of either pump fails, so every step a pump
      takes is one nearer to its stop. */
  lemma NextBlockingCallFails(h: Handler, c: Client, m: Move, side: Side)
    requires HandlerOk(h, c) && EndpointsClosed(h, c) && Can(h, c, m) && !m.Greet?
    ensures m.Read? || m.Send? ==> !m.ok
    ensures EndpointsClosed(Moved(h, m), c)
    ensures PumpLeft(PumpOf(Moved(h, m), side)) + (if Owner(m) == PumpGo(side) then 1 else 0)
              <= PumpLeft(PumpOf(h, side))
  {
  }

  /** A pump that has started and not stopped can move, or waits for the other one, which can. */
  lemma SomePumpCanMove(h: Handler, c: Client, side: Side) returns (m: Move)
    requires HandlerOk(h, c) && !PumpOf(h, side).NotStarted? && !PumpOf(h, side).Stopped?
    ensures Can(h, c, m)
    ensures Owner(m) == PumpGo(side) || (PumpOf(h, side).AtOnce? && h.once.Running? && m.Shut?)
  {
    var other := if side == Out then In else Out;
    m := match PumpOf(h, side)
      case Reading => Read(side, false)
      case Busy => if side == Out then Send(false) else Take(Input)
      case AtOnce => if h.once.Running? then Shut(other) else EnterOnce(side)
      case _ => Shut(side);
  }

  function IsPumpStep(st: Step, i: nat, side: Side): nat {
    if st.Act? && st.h == i && Owner(st.move) == PumpGo(side) then 1 else 0
  }

  function PumpSteps(steps: seq<Step>, i: nat, side: Side): nat {
    if steps == [] then 0 else IsPumpStep(steps[0], i, side) + PumpSteps(steps[1..], i, side)
  }

  /** After both endpoints are closed a pump takes at most six more steps, and when it has taken
      all it had left it has stopped. */
  lemma {:induction false} PumpsStop(s: State, steps: seq<Step>, i: nat, side: Side)
    requires Inv(s) && IsRun(s, steps) && i < |s.handlers|
    requires EndpointsClosed(s.handlers[i], s.mgr.clients[i]) && !s.handlers[i].main.Greeting?
    ensures var e := End(s, steps);
      && Inv(e) && i < |e.handlers| && EndpointsClosed(e.handlers[i], e.mgr.clients[i])
      && PumpSteps(steps, i, side) + PumpLeft(PumpOf(e.handlers[i], side)) <= PumpLeft(PumpOf(s.handlers[i], side)) <= 6
      && (PumpSteps(steps, i, side) == PumpLeft(PumpOf(s.handlers[i], side)) ==>
            PumpOf(e.handlers[i], side).Stopped? || PumpOf(e.handlers[i], side).NotStarted?)
    decreases |steps|
  {
    if steps != [] {
      var st, s' := steps[0], Next(s, steps[0]);
      StepKeepsInv(s, st);
      StepAgesClients(s, st, i);
      if st.Act? && st.h == i {
        NextBlockingCallFails(s.handlers[i], s.mgr.clients[i], st.move, side);
      } else {
        assert s'.handlers[i] == s.handlers[i];
      }
      PumpsStop(s', steps[1..], i, side);
    }
  }
}
