/** The "idle after busy" notifier, for one session.

    The first part is the machine: a busy track and one debounce timer, updated event by
    event.  The second part says, over the whole history of events and without any state,
    when a session ought to turn unread.  The last part proves the two equal. */
module IdleTracker {
  import opened Wrappers

  const IDLE_MS: nat := 1500
  const MIN_BUSY_MS: nat := 500

  datatype Track = Track(startedAt: nat, lastByteAt: nat)

  /** An output chunk, or anything else that may concern the session: it may cancel the tracking,
      may mark the session read, and leaves it in the foreground or not. */
  datatype Event =
    | Output(at: nat)
    | Effect(at: nat, cancel: bool, read: bool, foreground: bool)

  datatype Machine = Machine(track: Option<Track>, unread: bool, foreground: bool, notified: seq<nat>)

  // ---------------------------------------------------------------------------------------
  // The machine

  /** The timer's deadline is always IDLE_MS after the last output. */
  predicate Due(t: Track, now: nat) {
    t.lastByteAt + IDLE_MS <= now
  }

  /** The timer callback. */
  function Fire(m: Machine): Machine
    requires m.track.Some?
  {
    var t := m.track.value;
    var m' := m.(track := None);
    if t.lastByteAt - t.startedAt < MIN_BUSY_MS || m.foreground || m.unread then m'
    else m'.(unread := true, notified := m.notified + [t.lastByteAt])
  }

  /** A timer that is due by `now` has fired before anything that happens at `now`. */
  function FireDue(m: Machine, now: nat): Machine {
    if m.track.Some? && Due(m.track.value, now) then Fire(m) else m
  }

  function React(m: Machine, e: Event): Machine {
    match e
    case Output(at) =>
      if m.foreground then m.(track := None)
      else m.(track := Some(Track(if m.track.Some? then m.track.value.startedAt else at, at)))
    case Effect(_, cancel, read, fg) =>
      m.(track := if cancel then None else m.track, unread := m.unread && !read, foreground := fg)
  }

  function Step(m: Machine, e: Event): Machine {
    React(FireDue(m, e.at), e)
  }

  function Start(foreground: bool): Machine {
    Machine(None, false, foreground, [])
  }

  /** The machine after the first n events. */
  function After(h: seq<Event>, fg0: bool, n: nat): Machine
    requires n <= |h|
  {
    if n == 0 then Start(fg0) else Step(After(h, fg0, n - 1), h[n - 1])
  }

  // ---------------------------------------------------------------------------------------
  // The same, said of the history

  ghost predicate InOrder(h: seq<Event>) {
    forall i, j | 0 <= i <= j < |h| :: h[i].at <= h[j].at
  }

  /** Whether the session is in the foreground just before event k. */
  ghost function Foreground(h: seq<Event>, fg0: bool, k: nat): bool
    requires k <= |h|
  {
    if k == 0 then fg0
    else if h[k - 1].Effect? then h[k - 1].foreground
    else Foreground(h, fg0, k - 1)
  }

  ghost predicate Background(h: seq<Event>, fg0: bool, k: int) {
    0 <= k < |h| && h[k].Output? && !Foreground(h, fg0, k)
  }

  /** A foreground output, or an event that cancels: it ends whatever burst is going on. */
  ghost predicate Breaks(h: seq<Event>, fg0: bool, k: int) {
    0 <= k < |h| && if h[k].Output? then Foreground(h, fg0, k) else h[k].cancel
  }

  ghost predicate Unbroken(h: seq<Event>, fg0: bool, i: int, j: int) {
    forall k | i < k < j :: !Breaks(h, fg0, k)
  }

  /** Two background outputs of one burst: nothing cancels in between and the gap is short. */
  ghost predicate Joined(h: seq<Event>, fg0: bool, p: int, k: int) {
    && p < k && Background(h, fg0, p) && Background(h, fg0, k)
    && Unbroken(h, fg0, p, k) && h[k].at < h[p].at + 1500
  }

  /** Some output at or after i leads up to k. */
  ghost predicate Fed(h: seq<Event>, fg0: bool, i: int, k: int) {
    exists p | i <= p < k :: Joined(h, fg0, p, k)
  }

  /** The background outputs from i to j are a run without long gaps or cancels, which does not
      extend to the left. */
  ghost predicate Burst(h: seq<Event>, fg0: bool, i: int, j: int) {
    && i <= j && Background(h, fg0, i) && Background(h, fg0, j) && Unbroken(h, fg0, i, j)
    && (forall k | i < k <= j && Background(h, fg0, k) :: Fed(h, fg0, i, k))
    && !Fed(h, fg0, 0, i)
  }

  /** No output and no cancel strictly between j and n. */
  ghost predicate Silence(h: seq<Event>, fg0: bool, j: int, n: int) {
    forall k | j < k < n :: !Background(h, fg0, k) && !Breaks(h, fg0, k)
  }

  /** Event n is the first at or after the end of the silence that follows j. */
  ghost predicate SilenceOverAt(h: seq<Event>, j: int, n: int) {
    0 <= j < n < |h| && h[n - 1].at < h[j].at + 1500 <= h[n].at
  }

  /** A burst ending at j is to be reported by the time of event n: it was long enough, 1500 ms of
      silence followed, and at the end of the silence the session was in the background. */
  ghost predicate Reportable(h: seq<Event>, fg0: bool, j: int, n: int) {
    && SilenceOverAt(h, j, n) && Silence(h, fg0, j, n) && !Foreground(h, fg0, n)
    && exists i :: Burst(h, fg0, i, j) && h[j].at - h[i].at >= 500
  }

  /** Unread after n events: something was reported and not read since. */
  ghost predicate Unread(h: seq<Event>, fg0: bool, n: int) {
    exists j, r | r < n :: Reportable(h, fg0, j, r) && UnreadSince(h, r, n)
  }

  ghost predicate UnreadSince(h: seq<Event>, r: int, n: int) {
    0 <= r && n <= |h| && forall k | r <= k < n :: !(h[k].Effect? && h[k].read)
  }

  /** The burst ending at j turns the session unread, as of event n. */
  ghost predicate TurnsUnread(h: seq<Event>, fg0: bool, j: int, n: int) {
    Reportable(h, fg0, j, n) && !Unread(h, fg0, n)
  }

  // ---------------------------------------------------------------------------------------
  // The machine computes what the history says

  /** After n events the burst from i to j may still go on. */
  ghost predicate Open(h: seq<Event>, fg0: bool, i: int, j: int, n: int) {
    && 0 <= i <= j < n <= |h| && Burst(h, fg0, i, j) && Silence(h, fg0, j, n)
    && h[n - 1].at < h[j].at + 1500
  }

  lemma OpenIsUnique(h: seq<Event>, fg0: bool, i: int, j: int, i': int, j': int, n: int)
    requires InOrder(h) && Open(h, fg0, i, j, n) && Open(h, fg0, i', j', n)
    ensures i == i' && j == j'
  {
  }

  /** A burst up to p, and an output joined to p, make a burst. */
  lemma BurstGrows(h: seq<Event>, fg0: bool, i: int, p: int, j: int)
    requires InOrder(h) && Burst(h, fg0, i, p) && Joined(h, fg0, p, j)
    ensures Burst(h, fg0, i, j)
  {
    forall k | i < k <= j && Background(h, fg0, k) ensures Fed(h, fg0, i, k) {
      if k > p {
        assert h[k].at <= h[j].at;
        assert Unbroken(h, fg0, p, k);
        assert Joined(h, fg0, p, k);
      }
    }
    forall k | i < k < j ensures !Breaks(h, fg0, k) {
      assert k < p || k == p || p < k;
    }
  }

  /** Every background output ends some burst. */
  lemma {:induction false} BurstExists(h: seq<Event>, fg0: bool, j: int) returns (i: int)
    requires InOrder(h) && Background(h, fg0, j)
    ensures Burst(h, fg0, i, j)
    decreases j
  {
    if Fed(h, fg0, 0, j) {
      var p :| 0 <= p < j && Joined(h, fg0, p, j);
      i := BurstExists(h, fg0, p);
      BurstGrows(h, fg0, i, p, j);
    } else {
      i := j;
    }
  }

  /** A recent, uncancelled background output before n belongs to an open burst. */
  lemma RecentIsOpen(h: seq<Event>, fg0: bool, p: int, n: int) returns (i: int, j: int)
    requires InOrder(h) && n < |h| && Background(h, fg0, p) && p < n && Unbroken(h, fg0, p, n)
    requires h[n].at < h[p].at + IDLE_MS
    ensures Open(h, fg0, i, j, n) && h[n].at < h[j].at + IDLE_MS
  {
    j := LastOutput(h, fg0, p, n);
    i := BurstExists(h, fg0, j);
  }

  lemma {:induction false} LastOutput(h: seq<Event>, fg0: bool, p: int, n: int) returns (j: int)
    requires Background(h, fg0, p) && p < n <= |h|
    ensures p <= j < n && Background(h, fg0, j) && forall k | j < k < n :: !Background(h, fg0, k)
    decreases n
  {
    if Background(h, fg0, n - 1) {
      j := n - 1;
    } else {
      j := LastOutput(h, fg0, p, n - 1);
    }
  }

  /** The tie between the machine's track and the history. */
  ghost predicate TrackOk(h: seq<Event>, fg0: bool, n: nat, track: Option<Track>) {
    && (forall i, j | Open(h, fg0, i, j, n) :: track == Some(Track(h[i].at, h[j].at)))
    && (track.Some? ==> exists i, j :: Open(h, fg0, i, j, n))
  }

  lemma {:induction false} ForegroundOk(h: seq<Event>, fg0: bool, n: nat)
    requires n <= |h|
    ensures After(h, fg0, n).foreground == Foreground(h, fg0, n)
  {
    if n > 0 { ForegroundOk(h, fg0, n - 1); }
  }

  /** After the due timer has fired, the track is that of a burst that event n could still join. */
  ghost predicate StillOpen(h: seq<Event>, fg0: bool, n: nat, track: Option<Track>) {
    && n < |h|
    && (forall i, j | Open(h, fg0, i, j, n) && h[n].at < h[j].at + IDLE_MS :: track == Some(Track(h[i].at, h[j].at)))
    && (track.Some? ==> exists i, j :: Open(h, fg0, i, j, n) && h[n].at < h[j].at + IDLE_MS)
  }

  lemma FiredTrack(h: seq<Event>, fg0: bool, n: nat, m: Machine)
    requires InOrder(h) && n < |h| && TrackOk(h, fg0, n, m.track)
    ensures StillOpen(h, fg0, n, FireDue(m, h[n].at).track)
  {
  }

  lemma OutputTrack(h: seq<Event>, fg0: bool, n: nat, track: Option<Track>)
    requires InOrder(h) && StillOpen(h, fg0, n, track) && Background(h, fg0, n)
    ensures TrackOk(h, fg0, n + 1, Some(Track(if track.Some? then track.value.startedAt else h[n].at, h[n].at)))
  {
    var i := OpensAt(h, fg0, n, track);
    var n1 := n + 1;
    forall i', j' | Open(h, fg0, i', j', n1) ensures i' == i && j' == n {
      OpenIsUnique(h, fg0, i, n, i', j', n1);
    }
  }

  /** The burst that the output at n belongs to. */
  lemma OpensAt(h: seq<Event>, fg0: bool, n: nat, track: Option<Track>) returns (i: int)
    requires InOrder(h) && StillOpen(h, fg0, n, track) && Background(h, fg0, n)
    ensures Open(h, fg0, i, n, n + 1)
    ensures h[i].at == if track.Some? then track.value.startedAt else h[n].at
  {
    if track.Some? {
      var b, j :| Open(h, fg0, b, j, n) && h[n].at < h[j].at + IDLE_MS;
      i := b;
      assert Joined(h, fg0, j, n);
      BurstGrows(h, fg0, b, j, n);
    } else {
      i := n;
      NothingToJoin(h, fg0, n);
    }
  }

  lemma NothingToJoin(h: seq<Event>, fg0: bool, n: nat)
    requires InOrder(h) && StillOpen(h, fg0, n, None) && Background(h, fg0, n)
    ensures Burst(h, fg0, n, n)
  {
    if Fed(h, fg0, 0, n) {
      var p :| 0 <= p < n && Joined(h, fg0, p, n);
      var b, j := RecentIsOpen(h, fg0, p, n);
    }
  }

  /** An event that is neither a background output nor a break leaves the open burst as it is. */
  lemma StaysOpen(h: seq<Event>, fg0: bool, n: nat, i: int, j: int)
    requires InOrder(h) && n < |h| && !Background(h, fg0, n)
    ensures Open(h, fg0, i, j, n + 1) <==>
      Open(h, fg0, i, j, n) && !Breaks(h, fg0, n) && h[n].at < h[j].at + IDLE_MS
  {
    if Open(h, fg0, i, j, n + 1) {
      assert j != n;
      assert !Breaks(h, fg0, n);
      assert h[n - 1].at <= h[n].at;
    }
  }

  lemma OtherTrack(h: seq<Event>, fg0: bool, n: nat, track: Option<Track>)
    requires InOrder(h) && StillOpen(h, fg0, n, track) && !Background(h, fg0, n)
    ensures TrackOk(h, fg0, n + 1, if Breaks(h, fg0, n) then None else track)
  {
    var next := n + 1;
    forall i, j
      ensures Open(h, fg0, i, j, next) <==>
        Open(h, fg0, i, j, n) && !Breaks(h, fg0, n) && h[n].at < h[j].at + IDLE_MS
    {
      StaysOpen(h, fg0, n, i, j);
    }
  }

  lemma {:induction false} StepTrack(h: seq<Event>, fg0: bool, n: nat, m: Machine, next: nat)
    requires InOrder(h) && n < |h| && next == n + 1
    requires TrackOk(h, fg0, n, m.track) && m.foreground == Foreground(h, fg0, n)
    ensures TrackOk(h, fg0, next, Step(m, h[n]).track)
  {
    FiredTrack(h, fg0, n, m);
    var t := FireDue(m, h[n].at).track;
    if Background(h, fg0, n) {
      OutputTrack(h, fg0, n, t);
    } else {
      OtherTrack(h, fg0, n, t);
    }
  }

  lemma {:induction false} TracksHistory(h: seq<Event>, fg0: bool, n: nat)
    requires InOrder(h) && n <= |h|
    ensures TrackOk(h, fg0, n, After(h, fg0, n).track)
  {
    if n > 0 {
      TracksHistory(h, fg0, n - 1);
      TracksNext(h, fg0, n);
    }
  }

  lemma TracksNext(h: seq<Event>, fg0: bool, n: nat)
    requires InOrder(h) && 0 < n <= |h| && TrackOk(h, fg0, n - 1, After(h, fg0, n - 1).track)
    ensures TrackOk(h, fg0, n, After(h, fg0, n).track)
  {
    var m := After(h, fg0, n - 1);
    var m' := Step(m, h[n - 1]);
    var k := n - 1;
    assert m.foreground == Foreground(h, fg0, k) by { ForegroundOk(h, fg0, k); }
    StepTrack(h, fg0, k, m, n);
    assert After(h, fg0, n) == m';
  }

  /** A report at event n comes from the burst that was open, whose timer is due. */
  lemma {:induction false} ReportComesFromTrack(h: seq<Event>, fg0: bool, j: int, n: nat)
    requires InOrder(h) && n < |h|
    ensures var m := After(h, fg0, n);
      Reportable(h, fg0, j, n) ==>
        && m.track.Some? && Due(m.track.value, h[n].at) && m.track.value.lastByteAt == h[j].at
        && h[j].at - m.track.value.startedAt >= MIN_BUSY_MS && !m.foreground
  {
    if Reportable(h, fg0, j, n) {
      TracksHistory(h, fg0, n);
      ForegroundOk(h, fg0, n);
      var i :| Burst(h, fg0, i, j) && h[j].at - h[i].at >= MIN_BUSY_MS;
      assert Open(h, fg0, i, j, n);
    }
  }

  /** Conversely, a timer that is due, after a long enough burst and in the background, is a report. */
  lemma DueTrackIsReport(h: seq<Event>, fg0: bool, n: nat) returns (j: int)
    requires InOrder(h) && n < |h|
    requires var m := After(h, fg0, n);
      && m.track.Some? && Due(m.track.value, h[n].at) && !m.foreground
      && m.track.value.lastByteAt - m.track.value.startedAt >= MIN_BUSY_MS
    ensures Reportable(h, fg0, j, n) && h[j].at == After(h, fg0, n).track.value.lastByteAt
  {
    TracksHistory(h, fg0, n);
    ForegroundOk(h, fg0, n);
    var i, b :| Open(h, fg0, i, b, n);
    j := b;
  }

  lemma UnreadNext(h: seq<Event>, fg0: bool, n: nat)
    requires n < |h|
    ensures Unread(h, fg0, n + 1) <==>
      (Unread(h, fg0, n) || exists j :: Reportable(h, fg0, j, n)) && !(h[n].Effect? && h[n].read)
  {
    var next := n + 1;
    if Unread(h, fg0, next) { UnreadBefore(h, fg0, n, next); }
    if !(h[n].Effect? && h[n].read) { UnreadAfter(h, fg0, n, next); }
  }

  lemma UnreadBefore(h: seq<Event>, fg0: bool, n: nat, next: nat)
    requires n < |h| && next == n + 1 && Unread(h, fg0, next)
    ensures (Unread(h, fg0, n) || exists j :: Reportable(h, fg0, j, n)) && !(h[n].Effect? && h[n].read)
  {
    var j, r :| r < next && Reportable(h, fg0, j, r) && UnreadSince(h, r, next);
    if r < n { assert UnreadSince(h, r, n); }
  }

  lemma UnreadAfter(h: seq<Event>, fg0: bool, n: nat, next: nat)
    requires n < |h| && next == n + 1 && !(h[n].Effect? && h[n].read)
    ensures (Unread(h, fg0, n) || exists j :: Reportable(h, fg0, j, n)) ==> Unread(h, fg0, next)
  {
    if Unread(h, fg0, n) {
      var j, r :| r < n && Reportable(h, fg0, j, r) && UnreadSince(h, r, n);
      assert UnreadSince(h, r, next);
    }
    if j :| Reportable(h, fg0, j, n) {
      assert UnreadSince(h, n, next);
    }
  }

  /** The machine's unread flag is the history's. */
  lemma {:induction false} UnreadIsHistory(h: seq<Event>, fg0: bool, n: nat)
    requires InOrder(h) && n <= |h|
    ensures After(h, fg0, n).unread <==> Unread(h, fg0, n)
  {
    if n > 0 {
      var k := n - 1;
      UnreadIsHistory(h, fg0, k);
      UnreadIsHistoryNext(h, fg0, k, n);
    }
  }

  lemma {:induction false} UnreadIsHistoryNext(h: seq<Event>, fg0: bool, n: nat, next: nat)
    requires InOrder(h) && n < |h| && next == n + 1 && (After(h, fg0, n).unread <==> Unread(h, fg0, n))
    ensures After(h, fg0, next).unread <==> Unread(h, fg0, next)
  {
    UnreadNext(h, fg0, n);
    FiresOnReport(h, fg0, n);
    ReactUnread(h, fg0, n, next);
  }

  lemma {:induction false} ReactUnread(h: seq<Event>, fg0: bool, n: nat, next: nat)
    requires InOrder(h) && n < |h| && next == n + 1
    ensures After(h, fg0, next).unread <==>
      FireDue(After(h, fg0, n), h[n].at).unread && !(h[n].Effect? && h[n].read)
  {
  }

  /** The due timer leaves the session unread exactly when it was, or there is something to report. */
  lemma {:induction false} FiresOnReport(h: seq<Event>, fg0: bool, n: nat)
    requires InOrder(h) && n < |h|
    ensures var m := After(h, fg0, n);
      FireDue(m, h[n].at).unread <==> m.unread || exists j :: Reportable(h, fg0, j, n)
  {
    var m := After(h, fg0, n);
    if j :| Reportable(h, fg0, j, n) {
      ReportComesFromTrack(h, fg0, j, n);
    } else if FireDue(m, h[n].at).unread && !m.unread {
      var j := DueTrackIsReport(h, fg0, n);
    }
  }

  /** Event by event, the notifier announces exactly the bursts that turn the session unread,
      each once, with the time of its last output. */
  lemma NotifiesExactlyTurns(h: seq<Event>, fg0: bool, n: nat)
    requires InOrder(h) && n < |h|
    ensures forall j :: TurnsUnread(h, fg0, j, n) ==>
      After(h, fg0, n + 1).notified == After(h, fg0, n).notified + [h[j].at]
    ensures (forall j :: !TurnsUnread(h, fg0, j, n)) ==>
      After(h, fg0, n + 1).notified == After(h, fg0, n).notified
  {
    var m := After(h, fg0, n);
    UnreadIsHistory(h, fg0, n);
    forall j | TurnsUnread(h, fg0, j, n)
      ensures After(h, fg0, n + 1).notified == m.notified + [h[j].at]
    {
      ReportComesFromTrack(h, fg0, j, n);
    }
    if After(h, fg0, n + 1).notified != m.notified {
      var j := DueTrackIsReport(h, fg0, n);
      assert TurnsUnread(h, fg0, j, n);
    }
  }
}
