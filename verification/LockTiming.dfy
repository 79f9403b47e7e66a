/** The heartbeat and staleness constants: a silent window is forgotten in time, and a live one
    is never taken for gone.

    One window is followed over any history of what it hears, its own ticks and its own
    actions, for any number of peers; the claims are about one of them, `p`. */
module LockTiming {
  import opened Wrappers
  import opened WindowOrder
  import opened SessionLock

  const HEARTBEAT_MS: nat := 2000
  const MAX_DELAY_MS: nat := 4000      // the longest message delay the constants tolerate

  datatype Event =
    | Heard(at: nat, msg: LockMsg)
    | Ticked(at: nat)
    | Claimed(at: nat, sid: SessionId)
    | Released(at: nat, sid: SessionId)
    | Focused(at: nat)

  ghost function Do(w: Window, e: Event): Window {
    match e
    case Heard(at, m) => Receive(w, m, at).win
    case Ticked(at) => Heartbeat(w, at).win
    case Claimed(_, sid) => Claim(w, sid).win
    case Released(_, sid) => Release(w, sid).win
    case Focused(at) => TakeFocus(w, at).win
  }

  /** The window after the first n events. */
  ghost function After(w: Window, evs: seq<Event>, n: nat): Window
    requires n <= |evs|
  {
    if n == 0 then w else Do(After(w, evs, n - 1), evs[n - 1])
  }

  ghost predicate InOrder(evs: seq<Event>) {
    forall i, j | 0 <= i <= j < |evs| :: evs[i].at <= evs[j].at
  }

  predicate HeardFrom(e: Event, p: WindowId) {
    e.Heard? && e.msg.Presence? && e.msg.windowId == p
  }

  /** `last` is when p was last heard among the first n events. */
  ghost predicate LastHeard(evs: seq<Event>, n: nat, p: WindowId, last: nat)
    requires n <= |evs|
  {
    && (exists i | 0 <= i < n :: HeardFrom(evs[i], p) && evs[i].at == last)
    && (forall i | 0 <= i < n && HeardFrom(evs[i], p) :: evs[i].at <= last)
  }

  lemma {:induction false} AfterId(w: Window, evs: seq<Event>, n: nat)
    requires n <= |evs|
    ensures After(w, evs, n).id == w.id
  {
    if n > 0 { AfterId(w, evs, n - 1); }
  }

  lemma {:induction false} RecordIsLastHeard(w: Window, evs: seq<Event>, n: nat, p: WindowId)
    requires n <= |evs| && InOrder(evs) && w.peers == map[] && p != w.id
    ensures p in After(w, evs, n).peers ==> LastHeard(evs, n, p, After(w, evs, n).peers[p].lastSeen)
  {
    if n > 0 {
      AfterId(w, evs, n - 1);
      RecordIsLastHeard(w, evs, n - 1, p);
      var e := evs[n - 1];
      if HeardFrom(e, p) { assert LastHeard(evs, n, p, e.at); }
    }
  }

  function TickTime(phase: nat, k: nat): nat { phase + HEARTBEAT_MS * k }

  ghost predicate HasTick(evs: seq<Event>, at: nat) {
    Ticked(at) in evs
  }

  /** The interval timer: its first tick at `phase`, then every HEARTBEAT_MS up to `until`. */
  ghost predicate TicksUntil(evs: seq<Event>, phase: nat, until: nat) {
    forall k: nat | TickTime(phase, k) <= until :: HasTick(evs, TickTime(phase, k))
  }

  /** Some tick falls in any window of one period at or after the first. */
  lemma TickWithin(phase: nat, from: nat) returns (k: nat)
    requires phase <= from + HEARTBEAT_MS
    ensures from < TickTime(phase, k) <= from + HEARTBEAT_MS
  {
    k := if from < phase then 0 else (from - phase) / HEARTBEAT_MS + 1;
  }

  lemma {:induction false} StaysForgotten(w: Window, evs: seq<Event>, m: nat, n: nat, p: WindowId)
    requires m <= n <= |evs| && p != w.id
    requires p !in After(w, evs, m).peers
    requires forall i | m <= i < n :: !HeardFrom(evs[i], p)
    ensures p !in After(w, evs, n).peers
    decreases n
  {
    if m < n {
      AfterId(w, evs, n - 1);
      StaysForgotten(w, evs, m, n - 1, p);
    }
  }

  /** A window last heard by time `silence` is forgotten by silence + 8000, whatever the tick phase. */
  lemma {:induction false} SilentWindowIsForgotten(w: Window, evs: seq<Event>, p: WindowId, phase: nat, silence: nat,
                                                   n: nat)
    requires InOrder(evs) && w.peers == map[] && p != w.id && n <= |evs|
    requires forall i | 0 <= i < |evs| && HeardFrom(evs[i], p) :: evs[i].at <= silence
    // the interval starts when the channel opens, so its first tick is within a period of anything heard
    requires phase <= silence + 2000 && TicksUntil(evs, phase, silence + 8000)
    // everything up to the bound has happened
    requires forall i | n <= i < |evs| :: evs[i].at > silence + 8000
    ensures p !in After(w, evs, n).peers
  {
    var k := TickWithin(phase, silence + STALE_MS);
    var u := TickTime(phase, k);
    assert HasTick(evs, u);
    var j :| 0 <= j < |evs| && evs[j] == Ticked(u);
    assert j < n;
    RecordIsLastHeard(w, evs, j, p);
    AfterId(w, evs, j);
    assert p !in After(w, evs, j + 1).peers by {
      if p in After(w, evs, j).peers {
        assert After(w, evs, j).peers[p].lastSeen <= silence;
        assert p in Stale(After(w, evs, j).peers, u);
      }
    }
    forall i | j + 1 <= i < n ensures !HeardFrom(evs[i], p) {
      assert evs[j].at <= evs[i].at;
    }
    StaysForgotten(w, evs, j + 1, n, p);
  }

  /** p's k-th heartbeat has arrived, no later than MAX_DELAY_MS after it was sent, before event j. */
  ghost predicate BeatArrived(evs: seq<Event>, j: nat, p: WindowId, sent: nat)
    requires j <= |evs|
  {
    exists i | 0 <= i < j :: HeardFrom(evs[i], p) && sent <= evs[i].at <= sent + MAX_DELAY_MS
  }

  /** p is alive from `birth` on: it posts every HEARTBEAT_MS, and no post is late. */
  ghost predicate Alive(evs: seq<Event>, p: WindowId, birth: nat) {
    && (forall i | 0 <= i < |evs| && evs[i].Heard? && evs[i].msg.windowId == p ::
          evs[i].msg.Presence? && evs[i].at >= birth)
    && (forall j, k: nat | 0 <= j < |evs| && evs[j].at > TickTime(birth, k) + MAX_DELAY_MS ::
          BeatArrived(evs, j, p, TickTime(birth, k)))
  }

  /** At any tick of ours, a live peer we have heard was heard within STALE_MS. */
  lemma {:induction false} LivePeerIsFresh(w: Window, evs: seq<Event>, p: WindowId, birth: nat, j: nat)
    requires InOrder(evs) && w.peers == map[] && p != w.id && Alive(evs, p, birth)
    requires j < |evs| && evs[j].Ticked? && p in After(w, evs, j).peers
    ensures p !in Stale(After(w, evs, j).peers, evs[j].at)
  {
    RecordIsLastHeard(w, evs, j, p);
    var u := evs[j].at;
    var last := After(w, evs, j).peers[p].lastSeen;
    var i :| 0 <= i < j && HeardFrom(evs[i], p) && evs[i].at == last;
    if birth + STALE_MS < u {
      var k := TickWithin(birth, u - STALE_MS - 1);
      assert BeatArrived(evs, j, p, TickTime(birth, k));
    }
  }

  lemma KnownAfter(w: Window, e: Event, p: WindowId)
    requires p != w.id && (e.Heard? && e.msg.windowId == p ==> e.msg.Presence?)
    ensures p in Do(w, e).peers <==>
              HeardFrom(e, p) || (p in w.peers && !(e.Ticked? && p in Stale(w.peers, e.at)))
  {
  }

  /** A live window is known from the first time it is heard on, and never expires. */
  lemma {:induction false} LiveWindowIsNeverForgotten(w: Window, evs: seq<Event>, p: WindowId, birth: nat, n: nat)
    requires InOrder(evs) && w.peers == map[] && p != w.id && Alive(evs, p, birth) && n <= |evs|
    ensures p in After(w, evs, n).peers <==> exists i | 0 <= i < n :: HeardFrom(evs[i], p)
  {
    if n > 0 {
      LiveWindowIsNeverForgotten(w, evs, p, birth, n - 1);
      AfterId(w, evs, n - 1);
      KnownAfter(After(w, evs, n - 1), evs[n - 1], p);
      if evs[n - 1].Ticked? && p in After(w, evs, n - 1).peers {
        LivePeerIsFresh(w, evs, p, birth, n - 1);
      }
    }
  }
}
