/** The WebSocket terminal handlers over the attach manager, any number of them at once.

    Each handler has a main goroutine and two pumps: the out pump reads the pty and writes the
    socket, the in pump reads the socket and writes the pty. A step is what one goroutine does
    between two points where another can cut in; every interleaving of steps is a run. */
module Bridge {
  import opened Wrappers
  import opened TmuxManager

  datatype Side = Out | In

  /** Where a pump stands: in its blocking read, busy with what it read, returning and about to call
      the once-guarded shutdown, inside it with `done` of its three closes behind it, or stopped. */
  datatype Pump = NotStarted | Reading | Busy | AtOnce | Closing(done: nat) | Stopped

  datatype Main = Greeting | Pumping | Leaving | Detached | Finished
  datatype Once = NotRun | Running | Done

  /** `client` is the session reference the handler captured when it attached. */
  datatype Handler = Handler(sid: SessionId, client: nat, main: Main, out: Pump, inn: Pump, once: Once,
                             doneClosed: bool, connOpen: bool)

  datatype State = State(mgr: Mgr, handlers: seq<Handler>)

  datatype Message = Input | Ignored | AskSize(size: Size, ok: bool) | Ping(ok: bool)

  datatype Move =
    | Greet(ok: bool)
    | Read(side: Side, ok: bool)
    | Send(ok: bool)
    | Take(msg: Message)
    | EnterOnce(side: Side)
    | Shut(side: Side)
    | Wake
    | DetachNow
    | CloseConn

  /** A connection whose attach fails is told so and closed; it shares nothing with anyone. */
  datatype Step =
    | Connect(sid: SessionId)
    | Refused(sid: SessionId)
    | Act(h: nat, move: Move)
    | KillSession(sid: SessionId)
    | ShutdownAll

  function PumpOf(h: Handler, side: Side): Pump {
    if side == Out then h.out else h.inn
  }

  function SetPump(h: Handler, side: Side, p: Pump): Handler {
    if side == Out then h.(out := p) else h.(inn := p)
  }

  /** Reading or writing a closed endpoint fails; an open one may do either. Once-guarded code is
      entered by the first caller, waited for by the second, and skipped by the second afterwards. */
  predicate Can(h: Handler, c: Client, m: Move) {
    match m
    case Greet(ok) => h.main.Greeting? && (ok ==> h.connOpen)
    case Read(side, ok) => PumpOf(h, side).Reading? && (ok ==> if side == Out then c.ptmxOpen else h.connOpen)
    case Send(ok) => h.out.Busy? && (ok ==> h.connOpen)
    case Take(msg) => h.inn.Busy? && (msg.Ping? && msg.ok ==> h.connOpen)
    case EnterOnce(side) => PumpOf(h, side).AtOnce? && !h.once.Running?
    case Shut(side) => PumpOf(h, side).Closing?
    case Wake => h.main.Pumping? && h.doneClosed
    case DetachNow => h.main.Leaving?
    case CloseConn => h.main.Detached?
  }

  function Moved(h: Handler, m: Move): Handler {
    match m
    case Greet(ok) => if ok then h.(main := Pumping, out := Reading, inn := Reading) else h.(main := Leaving)
    case Read(side, ok) => SetPump(h, side, if ok then Busy else AtOnce)
    case Send(ok) => h.(out := if ok then Reading else AtOnce)
    case Take(msg) => h.(inn := if msg.Ping? && !msg.ok then AtOnce else Reading)
    case EnterOnce(side) =>
      if h.once.NotRun? then SetPump(h, side, Closing(0)).(once := Running) else SetPump(h, side, Stopped)
    case Shut(side) =>
      var p := PumpOf(h, side);
      if p == Closing(0) then SetPump(h, side, Closing(1)).(doneClosed := true)
      else if p == Closing(1) then SetPump(h, side, Closing(2)).(connOpen := false)
      else SetPump(h, side, Stopped).(once := Done)
    case Wake => h.(main := Leaving)
    case DetachNow => h.(main := Detached)
    case CloseConn => h.(main := Finished, connOpen := false)
  }

  function MgrAfter(mgr: Mgr, h: Handler, m: Move): Mgr {
    match m
    case Take(AskSize(size, ok)) =>
      if size.cols > 0 && size.rows > 0 then Resize(mgr, h.sid, size, ok) else mgr
    case Shut(side) =>
      if PumpOf(h, side) == Closing(2) then ClosePty(mgr, h.client) else mgr
    case DetachNow => Detach(mgr, h.sid, h.client)
    case _ => mgr
  }

  predicate Enabled(s: State, st: Step) {
    match st
    case Act(h, m) => h < |s.handlers| && s.handlers[h].client < |s.mgr.clients|
                      && Can(s.handlers[h], s.mgr.clients[s.handlers[h].client], m)
    case _ => true
  }

  function Next(s: State, st: Step): State
    requires Enabled(s, st)
  {
    match st
    case Connect(sid) =>
      State(Attach(s.mgr, sid),
            s.handlers + [Handler(sid, |s.mgr.clients|, Greeting, NotStarted, NotStarted, NotRun, false, true)])
    case Refused(_) => s
    case Act(h, m) => State(MgrAfter(s.mgr, s.handlers[h], m), s.handlers[h := Moved(s.handlers[h], m)])
    case KillSession(sid) => s.(mgr := Kill(s.mgr, sid))
    case ShutdownAll => s.(mgr := Shutdown(s.mgr))
  }

  ghost predicate IsRun(s: State, steps: seq<Step>)
    decreases |steps|
  {
    steps == [] || (Enabled(s, steps[0]) && IsRun(Next(s, steps[0]), steps[1..]))
  }

  ghost function End(s: State, steps: seq<Step>): State
    requires IsRun(s, steps)
    decreases |steps|
  {
    if steps == [] then s else End(Next(s, steps[0]), steps[1..])
  }

  function Start(): State {
    State(Mgr([], map[], map[]), [])
  }

  // ---------------------------------------------------------------------------------------
  // The invariant

  predicate PumpOk(h: Handler, p: Pump) {
    && (p.NotStarted? ==> !h.main.Pumping? && h.once.NotRun?)
    && (p.Closing? ==> h.once.Running? && p.done <= 2)
    && (p.Closing? ==> (p.done >= 1 <==> h.doneClosed) && (p.done == 2 ==> !h.connOpen))
    && (p.Stopped? ==> h.once.Done?)
  }

  predicate HandlerOk(h: Handler, c: Client) {
    && c.sid == h.sid
    && PumpOk(h, h.out) && PumpOk(h, h.inn)
    && (h.out.NotStarted? <==> h.inn.NotStarted?)
    && !(h.out.Closing? && h.inn.Closing?)
    && (h.once.Running? ==> h.out.Closing? || h.inn.Closing?)
    && (h.once.NotRun? ==> !h.doneClosed)
    && (h.once.Done? ==> h.doneClosed && !h.connOpen && !c.ptmxOpen)
    && (h.main.Greeting? ==> h.out.NotStarted? && h.connOpen)
    && (!h.main.Greeting? && !h.main.Pumping? ==> h.out.NotStarted? || h.doneClosed)
    && (h.main.Detached? || h.main.Finished? ==> c.closed)
    && (h.main.Finished? ==> !h.connOpen)
  }

  ghost predicate Inv(s: State) {
    && MgrOk(s.mgr)
    && |s.handlers| == |s.mgr.clients|
    && forall i | 0 <= i < |s.handlers| :: s.handlers[i].client == i && HandlerOk(s.handlers[i], s.mgr.clients[i])
  }

  /** What may happen to a client while its handler stands still. */
  predicate Later(c: Client, d: Client) {
    d.sid == c.sid && (c.closed ==> d == c) && (c.ptmxOpen || !d.ptmxOpen)
  }

  lemma HandlerOkLater(h: Handler, c: Client, d: Client)
    requires HandlerOk(h, c) && Later(c, d)
    ensures HandlerOk(h, d)
  {
  }

  lemma MoveKeepsHandler(h: Handler, c: Client, d: Client, m: Move)
    requires HandlerOk(h, c) && Can(h, c, m) && Later(c, d)
    requires m.Shut? && PumpOf(h, m.side) == Closing(2) ==> !d.ptmxOpen
    requires m.DetachNow? ==> d.closed
    ensures HandlerOk(Moved(h, m), d)
  {
    match m
    case Greet(ok) =>
    case Read(side, ok) => match side { case Out => case In => }
    case Send(ok) =>
    case Take(msg) =>
    case EnterOnce(side) => match side { case Out => case In => }
    case Shut(side) => match side { case Out => case In => }
    case Wake =>
    case DetachNow =>
    case CloseConn =>
  }

  lemma StepKeepsMgr(s: State, st: Step)
    requires Inv(s) && Enabled(s, st)
    ensures MgrOk(Next(s, st).mgr)
  {
    match st
    case Connect(sid) => AttachKeeps(s.mgr, sid);
    case Refused(_) =>
    case Act(h, m) =>
      if m.DetachNow? { DetachKeeps(s.mgr, s.handlers[h].sid, h); }
      if m.Shut? { PtmxKeeps(s.mgr, h); }
    case KillSession(sid) => EvictKeeps(s.mgr, sid);
    case ShutdownAll => ShutdownKeeps(s.mgr);
  }

  lemma StepAgesClients(s: State, st: Step, i: nat)
    requires Inv(s) && Enabled(s, st) && i < |s.mgr.clients|
    ensures i < |Next(s, st).mgr.clients| && Later(s.mgr.clients[i], Next(s, st).mgr.clients[i])
  {
  }

  lemma StepKeepsInv(s: State, st: Step)
    requires Inv(s) && Enabled(s, st)
    ensures Inv(Next(s, st))
  {
    var s' := Next(s, st);
    StepKeepsMgr(s, st);
    forall i: nat | i < |s'.handlers|
      ensures s'.handlers[i].client == i && HandlerOk(s'.handlers[i], s'.mgr.clients[i])
    {
      if i < |s.handlers| {
        StepAgesClients(s, st, i);
        StepKeepsHandler(s, st, i);
      }
    }
  }

  lemma StepKeepsHandler(s: State, st: Step, i: nat)
    requires Enabled(s, st) && i < |s.handlers| && i < |s.mgr.clients| && i < |Next(s, st).mgr.clients|
    requires s.handlers[i].client == i && HandlerOk(s.handlers[i], s.mgr.clients[i])
    requires s.mgr.clients[i].closed ==> !s.mgr.clients[i].ptmxOpen
    requires Later(s.mgr.clients[i], Next(s, st).mgr.clients[i])
    ensures i < |Next(s, st).handlers| && Next(s, st).handlers[i].client == i
    ensures HandlerOk(Next(s, st).handlers[i], Next(s, st).mgr.clients[i])
  {
    var s' := Next(s, st);
    if st.Act? && st.h == i {
      MoveKeepsHandler(s.handlers[i], s.mgr.clients[i], s'.mgr.clients[i], st.move);
    } else {
      HandlerOkLater(s.handlers[i], s.mgr.clients[i], s'.mgr.clients[i]);
    }
  }

  lemma {:induction false} RunKeepsInv(s: State, steps: seq<Step>)
    requires Inv(s) && IsRun(s, steps)
    ensures Inv(End(s, steps))
    decreases |steps|
  {
    if steps != [] {
      StepKeepsInv(s, steps[0]);
      RunKeepsInv(Next(s, steps[0]), steps[1..]);
    }
  }
}
