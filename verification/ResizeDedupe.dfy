/** What the size cache amounts to over a whole run of manager calls.

    `Log` keeps the calls that did something beyond the cache: it drops exactly the resizes the
    manager skipped. The cache is then the last successful resize in the log since the last kill,
    and when tmux accepts every resize, the log between two kills is the requests between them
    with adjacent repeats removed. */
module ResizeDedupe {
  import opened Wrappers
  import opened TmuxManager

  datatype Call =
    | CallResize(sid: SessionId, size: Size, ok: bool)
    | CallKill(sid: SessionId)
    | CallAttach(sid: SessionId)
    | CallDetach(sid: SessionId, client: nat)
    | CallShutdown
    | CallClosePty(client: nat)      // a handler closes its session's pty itself

  function Perform(m: Mgr, c: Call): Mgr {
    match c
    case CallResize(sid, size, ok) => Resize(m, sid, size, ok)
    case CallKill(sid) => Kill(m, sid)
    case CallAttach(sid) => Attach(m, sid)
    case CallDetach(sid, client) => Detach(m, sid, client)
    case CallShutdown => Shutdown(m)
    case CallClosePty(client) => ClosePty(m, client)
  }

  function After(m: Mgr, calls: seq<Call>): Mgr {
    if calls == [] then m else Perform(After(m, calls[..|calls| - 1]), calls[|calls| - 1])
  }

  predicate Skipped(m: Mgr, c: Call) {
    c.CallResize? && Skips(m, c.sid, c.size)
  }

  function Log(m: Mgr, calls: seq<Call>): seq<Call> {
    if calls == [] then []
    else
      var before := calls[..|calls| - 1];
      var last := calls[|calls| - 1];
      Log(m, before) + if Skipped(After(m, before), last) then [] else [last]
  }

  // ---------------------------------------------------------------------------------------
  // The cache is the last success since the last kill

  predicate Succeeded(c: Call, sid: SessionId) {
    c.CallResize? && c.sid == sid && c.ok
  }

  predicate LastSuccess(log: seq<Call>, sid: SessionId, i: nat) {
    && i < |log| && Succeeded(log[i], sid)
    && forall j | i < j < |log| :: !Succeeded(log[j], sid) && log[j] != CallKill(sid)
  }

  ghost predicate LastSizeIs(log: seq<Call>, sid: SessionId, size: Size) {
    exists i: nat :: LastSuccess(log, sid, i) && log[i].size == size
  }

  /** A resize is skipped exactly when it asks for the size of the last successful one. */
  ghost predicate CacheTells(m: Mgr, log: seq<Call>, sid: SessionId) {
    forall size :: Skips(m, sid, size) <==> LastSizeIs(log, sid, size)
  }

  lemma OneLastSuccess(log: seq<Call>, sid: SessionId, i: nat, j: nat)
    requires LastSuccess(log, sid, i) && LastSuccess(log, sid, j)
    ensures i == j
  {
  }

  lemma LastSuccessGrows(log: seq<Call>, c: Call, sid: SessionId, i: nat)
    ensures LastSuccess(log + [c], sid, i) <==>
              if Succeeded(c, sid) then i == |log| else c != CallKill(sid) && LastSuccess(log, sid, i)
  {
    var more := log + [c];
    if Succeeded(c, sid) {
      if i < |log| { assert more[|log|] == c; }
    } else if LastSuccess(more, sid, i) {
      assert more[|log|] == c;
      forall j | i < j < |log| ensures !Succeeded(log[j], sid) && log[j] != CallKill(sid) { assert more[j] == log[j]; }
    } else if c != CallKill(sid) && LastSuccess(log, sid, i) {
      assert forall j | i < j < |more| :: !Succeeded(more[j], sid) && more[j] != CallKill(sid);
    }
  }

  /** For every session id and every sequence of calls. */
  lemma {:induction false} CacheIsLastSuccess(m: Mgr, calls: seq<Call>, sid: SessionId)
    requires sid !in m.lastSize
    ensures CacheTells(After(m, calls), Log(m, calls), sid)
  {
    if calls != [] {
      var before := calls[..|calls| - 1];
      CacheIsLastSuccess(m, before, sid);
      CacheStep(After(m, before), Log(m, before), calls[|calls| - 1], sid);
    }
  }

  lemma CacheStep(m: Mgr, log: seq<Call>, c: Call, sid: SessionId)
    requires CacheTells(m, log, sid)
    ensures CacheTells(Perform(m, c), log + if Skipped(m, c) then [] else [c], sid)
  {
    var m' := Perform(m, c);
    if Skipped(m, c) {
      assert log + [] == log;
    } else {
      forall size ensures Skips(m', sid, size) <==> LastSizeIs(log + [c], sid, size) {
        LastSizeGrows(log, c, sid, size);
        assert Skips(m, sid, size) <==> LastSizeIs(log, sid, size);
        match c
        case CallResize(s, _, _) =>
        case CallKill(s) =>
        case CallAttach(s) =>
        case CallDetach(s, client) =>
        case CallShutdown =>
        case CallClosePty(client) =>
      }
    }
  }

  lemma LastSizeGrows(log: seq<Call>, c: Call, sid: SessionId, size: Size)
    ensures LastSizeIs(log + [c], sid, size) <==>
              if Succeeded(c, sid) then c.size == size else c != CallKill(sid) && LastSizeIs(log, sid, size)
  {
    if Succeeded(c, sid) { LastSuccessGrows(log, c, sid, |log|); }
    if LastSizeIs(log + [c], sid, size) {
      var i: nat :| LastSuccess(log + [c], sid, i) && (log + [c])[i].size == size;
      LastSuccessGrows(log, c, sid, i);
    }
    if c != CallKill(sid) && LastSizeIs(log, sid, size) {
      var i: nat :| LastSuccess(log, sid, i) && log[i].size == size;
      LastSuccessGrows(log, c, sid, i);
      assert (log + [c])[i] == log[i];
    }
  }

  // ---------------------------------------------------------------------------------------
  // Adjacent repeats removed between kills

  /** The sizes asked for one session, cut at that session's kills. */
  function Segments(calls: seq<Call>, sid: SessionId): (r: seq<seq<Size>>)
    ensures |r| > 0
  {
    if calls == [] then [[]]
    else
      var before := Segments(calls[..|calls| - 1], sid);
      var k := |before| - 1;
      match calls[|calls| - 1]
      case CallResize(s, size, _) => if s == sid then before[k := before[k] + [size]] else before
      case CallKill(s) => if s == sid then before + [[]] else before
      case _ => before
  }

  function Dedupe(sizes: seq<Size>): (r: seq<Size>)
    ensures sizes == [] <==> r == []
    ensures sizes != [] ==> r[|r| - 1] == sizes[|sizes| - 1]
  {
    if |sizes| <= 1 then sizes
    else
      var k := |sizes| - 1;
      if sizes[k] == sizes[k - 1] then Dedupe(sizes[..k]) else Dedupe(sizes[..k]) + [sizes[k]]
  }

  function DedupeEach(segments: seq<seq<Size>>): seq<seq<Size>> {
    seq(|segments|, i requires 0 <= i < |segments| => Dedupe(segments[i]))
  }

  predicate NoRepeats(sizes: seq<Size>) {
    forall i | 0 < i < |sizes| :: sizes[i - 1] != sizes[i]
  }

  /** Dedupe leaves no adjacent repeats, and changes nothing where there are none. */
  lemma {:induction false} DedupeRemovesRepeats(sizes: seq<Size>)
    ensures NoRepeats(Dedupe(sizes))
    ensures NoRepeats(sizes) <==> Dedupe(sizes) == sizes
  {
    if |sizes| > 1 {
      var k := |sizes| - 1;
      DedupeRemovesRepeats(sizes[..k]);
      var d := Dedupe(sizes[..k]);
      assert sizes == sizes[..k] + [sizes[k]];
      DedupeNoLonger(sizes[..k]);
      if sizes[k] != sizes[k - 1] {
        assert NoRepeats(sizes) ==> NoRepeats(sizes[..k]);
        assert NoRepeats(sizes[..k]) ==> NoRepeats(sizes);
        assert (d + [sizes[k]])[..|d|] == d && sizes[..k] == sizes[..k];
        if d + [sizes[k]] == sizes { assert |d| == k && d == sizes[..k]; }
      }
    }
  }

  lemma {:induction false} DedupeNoLonger(sizes: seq<Size>)
    ensures |Dedupe(sizes)| <= |sizes|
  {
    if |sizes| > 1 { DedupeNoLonger(sizes[..|sizes| - 1]); }
  }

  predicate AllAccepted(calls: seq<Call>, sid: SessionId) {
    forall c | c in calls && c.CallResize? && c.sid == sid :: c.ok
  }

  /** The cache holds the last size of the current segment. */
  predicate CacheIsLastOf(m: Mgr, segments: seq<seq<Size>>, sid: SessionId)
    requires |segments| > 0
  {
    var current := segments[|segments| - 1];
    && (sid in m.lastSize <==> current != [])
    && (current != [] ==> m.lastSize[sid] == current[|current| - 1])
  }

  /** When tmux accepts every resize of a session, the commands it is given for that session are
      exactly the requests with adjacent repeats removed between kills, whatever else goes on. */
  lemma {:induction false} CommandsAreDedupedRequests(m: Mgr, calls: seq<Call>, sid: SessionId)
    requires sid !in m.lastSize && AllAccepted(calls, sid)
    ensures Segments(Log(m, calls), sid) == DedupeEach(Segments(calls, sid))
    ensures CacheIsLastOf(After(m, calls), Segments(calls, sid), sid)
  {
    if calls == [] {
      assert DedupeEach([[]]) == [[]];
    } else {
      var before := calls[..|calls| - 1];
      var last := calls[|calls| - 1];
      assert calls == before + [last] && last in calls;
      CommandsAreDedupedRequests(m, before, sid);
      SegmentsGrow(before, last, sid);
      SegmentsGrow(Log(m, before), last, sid);
      SegmentsStep(After(m, before), Segments(before, sid), last, sid);
      CacheOfSegmentsStep(After(m, before), Segments(before, sid), last, sid);
      assert Log(m, before) + [] == Log(m, before);
    }
  }

  /** One more call: what it adds to the deduped requests is what it adds to the log. */
  lemma SegmentsStep(m: Mgr, segments: seq<seq<Size>>, c: Call, sid: SessionId)
    requires |segments| > 0 && CacheIsLastOf(m, segments, sid)
    requires c.CallResize? && c.sid == sid ==> c.ok
    ensures DedupeEach(Grown(segments, c, sid)) ==
              if Skipped(m, c) then DedupeEach(segments) else Grown(DedupeEach(segments), c, sid)
  {
    if c.CallResize? && c.sid == sid {
      ResizeStep(m, segments, c);
    } else if c == CallKill(sid) {
      assert DedupeEach(segments + [[]]) == DedupeEach(segments) + [[]];
    }
  }

  lemma CacheOfSegmentsStep(m: Mgr, segments: seq<seq<Size>>, c: Call, sid: SessionId)
    requires |segments| > 0 && CacheIsLastOf(m, segments, sid)
    requires c.CallResize? && c.sid == sid ==> c.ok
    ensures CacheIsLastOf(Perform(m, c), Grown(segments, c, sid), sid)
  {
    match c
    case CallResize(s, size, ok) => if s == sid { ResizeStep(m, segments, c); }
    case CallKill(s) =>
    case CallAttach(s) =>
    case CallDetach(s, client) =>
    case CallShutdown =>
    case CallClosePty(client) =>
  }

  lemma ResizeStep(m: Mgr, segments: seq<seq<Size>>, c: Call)
    requires |segments| > 0 && c.CallResize? && c.ok && CacheIsLastOf(m, segments, c.sid)
    ensures DedupeEach(Grown(segments, c, c.sid)) ==
              if Skipped(m, c) then DedupeEach(segments) else Grown(DedupeEach(segments), c, c.sid)
    ensures CacheIsLastOf(Perform(m, c), Grown(segments, c, c.sid), c.sid)
  {
    DedupeExtends(segments, c.size);
  }

  function Grown(segments: seq<seq<Size>>, c: Call, sid: SessionId): (r: seq<seq<Size>>)
    requires |segments| > 0
    ensures |r| > 0
  {
    var k := |segments| - 1;
    if c.CallResize? && c.sid == sid then segments[k := segments[k] + [c.size]]
    else if c == CallKill(sid) then segments + [[]]
    else segments
  }

  lemma {:induction false} SegmentsGrow(calls: seq<Call>, c: Call, sid: SessionId)
    ensures Segments(calls + [c], sid) == Grown(Segments(calls, sid), c, sid)
  {
    assert (calls + [c])[..|calls|] == calls;
  }

  /** One more size in the current segment: dropped if it repeats the last one, kept otherwise. */
  lemma DedupeExtends(segments: seq<seq<Size>>, size: Size)
    requires |segments| > 0
    ensures var k := |segments| - 1; var d := DedupeEach(segments); var current := segments[k];
      DedupeEach(segments[k := current + [size]]) ==
        if current != [] && current[|current| - 1] == size then d else d[k := d[k] + [size]]
  {
    var k := |segments| - 1;
    var current := segments[k];
    assert (current + [size])[..|current|] == current;
    assert DedupeEach(segments[k := current + [size]]) ==
      DedupeEach(segments)[k := Dedupe(current + [size])];
    if current == [] {
      assert current + [size] == [size] && Dedupe(current) + [size] == [size];
    } else if current[|current| - 1] == size {
      assert DedupeEach(segments)[k := Dedupe(current)] == DedupeEach(segments);
    }
  }
}
