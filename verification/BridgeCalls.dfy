/** What the terminal handlers ask of the manager.

    Every run of the handlers is projected to the manager's calls, so what is proved of call
    sequences holds of every interleaving; and everything a pump reads it deals with before it
    reads again. */
module BridgeCalls {
  import opened Wrappers
  import opened TmuxManager
  import opened ResizeDedupe
  import opened Bridge

  /** What one step calls: a resize message with two positive sides asks for that size, any other
      message calls nothing. */
  function CallsOf(s: State, st: Step): seq<Call> {
    match st
    case Connect(sid) => [CallAttach(sid)]
    case Refused(_) => []
    case KillSession(sid) => [CallKill(sid)]
    case ShutdownAll => [CallShutdown]
    case Act(i, m) =>
      if i >= |s.handlers| then []
      else
        var h := s.handlers[i];
        match m
        case Take(AskSize(size, ok)) => if size.cols == 0 || size.rows == 0 then [] else [CallResize(h.sid, size, ok)]
        case DetachNow => [CallDetach(h.sid, h.client)]
        case Shut(side) => if PumpOf(h, side) == Closing(2) then [CallClosePty(h.client)] else []
        case _ => []
  }

  ghost function Calls(s: State, steps: seq<Step>): seq<Call>
    requires IsRun(s, steps)
    decreases |steps|
  {
    if steps == [] then [] else CallsOf(s, steps[0]) + Calls(Next(s, steps[0]), steps[1..])
  }

  lemma {:induction false} AfterOne(m: Mgr, c: Call)
    ensures After(m, [c]) == Perform(m, c) && After(m, []) == m
  {
    assert [c][..0] == [];
  }

  lemma {:induction false} AfterAppend(m: Mgr, a: seq<Call>, b: seq<Call>)
    ensures After(m, a + b) == After(After(m, a), b)
    decreases |b|
  {
    if b == [] {
      assert a + b == a;
    } else {
      var k := |b| - 1;
      assert (a + b)[..|a + b| - 1] == a + b[..k] && (a + b)[|a + b| - 1] == b[k];
      AfterAppend(m, a, b[..k]);
    }
  }

  lemma {:induction false} StepIsCalls(s: State, st: Step)
    requires Inv(s) && Enabled(s, st)
    ensures Next(s, st).mgr == After(s.mgr, CallsOf(s, st))
  {
    var cs := CallsOf(s, st);
    if cs != [] {
      assert cs == [cs[0]];
      AfterOne(s.mgr, cs[0]);
    }
  }

  /** The manager's state is that of the calls alone. */
  lemma {:induction false} RunIsCalls(s: State, steps: seq<Step>)
    requires Inv(s) && IsRun(s, steps)
    ensures End(s, steps).mgr == After(s.mgr, Calls(s, steps))
    decreases |steps|
  {
    if steps != [] {
      StepIsCalls(s, steps[0]);
      StepKeepsInv(s, steps[0]);
      RunIsCalls(Next(s, steps[0]), steps[1..]);
      AfterAppend(s.mgr, CallsOf(s, steps[0]), Calls(Next(s, steps[0]), steps[1..]));
    }
  }

  /** In every interleaving of handlers, kills and shutdowns: a size is skipped exactly if it is that
      of the session's last successful resize since its last kill; and where tmux accepts every
      resize, the commands it gets are the handlers' requests with adjacent repeats removed. */
  lemma {:induction false} HandlersAreDeduped(steps: seq<Step>, sid: SessionId)
    requires IsRun(Start(), steps)
    ensures var m0, calls := Start().mgr, Calls(Start(), steps);
      && CacheTells(End(Start(), steps).mgr, Log(m0, calls), sid)
      && (AllAccepted(calls, sid) ==> Segments(Log(m0, calls), sid) == DedupeEach(Segments(calls, sid)))
  {
    var m0, calls := Start().mgr, Calls(Start(), steps);
    RunIsCalls(Start(), steps);
    CacheIsLastSuccess(m0, calls, sid);
    if AllAccepted(calls, sid) { CommandsAreDedupedRequests(m0, calls, sid); }
  }

  /** A resize message with both sides positive leaves that size cached if tmux has it or takes it;
      with a zero side it changes nothing in the manager. */
  lemma ResizeMessage(s: State, i: nat, size: Size, ok: bool)
    requires Enabled(s, Act(i, Take(AskSize(size, ok))))
    ensures var m, m', sid := s.mgr, Next(s, Act(i, Take(AskSize(size, ok)))).mgr, s.handlers[i].sid;
      && m'.clients == m.clients && m'.slots == m.slots
      && (forall other | other != sid :: other in m'.lastSize <==> other in m.lastSize)
      && (forall other | other in m.lastSize && other != sid :: m'.lastSize[other] == m.lastSize[other])
      && (size.cols == 0 || size.rows == 0 ==> m' == m)
      && (size.cols != 0 && size.rows != 0 && ok ==> sid in m'.lastSize && m'.lastSize[sid] == size)
      && (!ok ==> m' == m)
  {
  }

  // ---------------------------------------------------------------------------------------
  // Nothing that was read is lost

  function BusyCount(s: State, i: nat, side: Side): nat {
    if i < |s.handlers| && PumpOf(s.handlers[i], side).Busy? then 1 else 0
  }

  /** A successful read of that pump. */
  function IsRead(st: Step, i: nat, side: Side): nat {
    if st == Act(i, Read(side, true)) then 1 else 0
  }

  /** What was read is written to the socket, or taken as a message. */
  function IsDealtWith(st: Step, i: nat, side: Side): nat {
    if st.Act? && st.h == i && (if side == Out then st.move.Send? else st.move.Take?) then 1 else 0
  }

  function ReadCount(steps: seq<Step>, i: nat, side: Side): nat {
    if steps == [] then 0 else IsRead(steps[0], i, side) + ReadCount(steps[1..], i, side)
  }

  function DealtWithCount(steps: seq<Step>, i: nat, side: Side): nat {
    if steps == [] then 0 else IsDealtWith(steps[0], i, side) + DealtWithCount(steps[1..], i, side)
  }

  lemma StepBalances(s: State, st: Step, i: nat, side: Side)
    requires Inv(s) && Enabled(s, st)
    ensures BusyCount(s, i, side) + IsRead(st, i, side) == BusyCount(Next(s, st), i, side) + IsDealtWith(st, i, side)
  {
    if st.Act? && st.h == i {
      match st.move
      case Read(other, ok) =>
      case EnterOnce(other) =>
      case Shut(other) =>
      case _ =>
    }
  }

  /** Over every run, a pump has dealt with everything it read, but for the one item it is busy with. */
  lemma {:induction false} ReadsAreDealtWith(s: State, steps: seq<Step>, i: nat, side: Side)
    requires Inv(s) && IsRun(s, steps)
    ensures BusyCount(s, i, side) + ReadCount(steps, i, side)
         == BusyCount(End(s, steps), i, side) + DealtWithCount(steps, i, side)
    decreases |steps|
  {
    if steps != [] {
      StepBalances(s, steps[0], i, side);
      StepKeepsInv(s, steps[0]);
      ReadsAreDealtWith(Next(s, steps[0]), steps[1..], i, side);
    }
  }
}
