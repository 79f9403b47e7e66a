/** Filtered lists. */
module Lists {
  ghost predicate Increasing(at: seq<nat>) {
    forall k, l | 0 <= k < l < |at| :: at[k] < at[l]
  }

  /** `b` is what `p` selects of `a`, in the order of `a`: `at` has the places it came from. */
  ghost predicate SelectedAt<T(!new)>(a: seq<T>, b: seq<T>, p: T -> bool, at: seq<nat>) {
    && |at| == |b| && Increasing(at)
    && (forall k | 0 <= k < |at| :: at[k] < |a| && b[k] == a[at[k]] && p(b[k]))
    && (forall i: nat | i < |a| && p(a[i]) :: i in at)
  }

  ghost predicate Selected<T(!new)>(a: seq<T>, b: seq<T>, p: T -> bool) {
    exists at: seq<nat> :: SelectedAt(a, b, p, at)
  }

  function Later(at: seq<nat>): seq<nat> {
    seq(|at|, i requires 0 <= i < |at| => at[i] + 1)
  }

  lemma LaterIncreases(at: seq<nat>)
    requires Increasing(at)
    ensures Increasing(Later(at))
  {
  }

  lemma SelectedNil<T(!new)>(p: T -> bool)
    ensures Selected<T>([], [], p)
  {
    assert SelectedAt<T>([], [], p, []);
  }

  lemma SelectedCons<T(!new)>(a: seq<T>, rest: seq<T>, p: T -> bool)
    requires a != [] && Selected(a[1..], rest, p)
    ensures Selected(a, (if p(a[0]) then [a[0]] else []) + rest, p)
  {
    var at :| SelectedAt(a[1..], rest, p, at);
    LaterPlaces(a, rest, p, at);
    if p(a[0]) {
      Taken(a, rest, p, Later(at));
    } else {
      assert [] + rest == rest;
      Skipped(a, rest, p, Later(at));
    }
  }

  /** The places of all but the first element. */
  ghost predicate PlacesAfterFirst<T(!new)>(a: seq<T>, rest: seq<T>, p: T -> bool, at: seq<nat>) {
    && |at| == |rest| && Increasing(at)
    && (forall k | 0 <= k < |at| :: 0 < at[k] < |a| && rest[k] == a[at[k]] && p(rest[k]))
    && (forall i: nat | 0 < i < |a| && p(a[i]) :: i in at)
  }

  lemma Skipped<T(!new)>(a: seq<T>, rest: seq<T>, p: T -> bool, at: seq<nat>)
    requires a != [] && PlacesAfterFirst(a, rest, p, at) && !p(a[0])
    ensures Selected(a, rest, p)
  {
    assert SelectedAt(a, rest, p, at);
  }

  lemma Taken<T(!new)>(a: seq<T>, rest: seq<T>, p: T -> bool, at: seq<nat>)
    requires a != [] && PlacesAfterFirst(a, rest, p, at) && p(a[0])
    ensures Selected(a, [a[0]] + rest, p)
  {
    var b, all := [a[0]] + rest, [0] + at;
    forall k | 0 <= k < |all| ensures all[k] < |a| && b[k] == a[all[k]] && p(b[k]) {
      if k > 0 { assert all[k] == at[k - 1] && b[k] == rest[k - 1]; }
    }
    forall i: nat | i < |a| && p(a[i]) ensures i in all {
      if i > 0 { assert i in at; }
    }
    assert SelectedAt(a, b, p, all);
  }

  lemma LaterPlaces<T(!new)>(a: seq<T>, rest: seq<T>, p: T -> bool, at: seq<nat>)
    requires a != [] && SelectedAt(a[1..], rest, p, at)
    ensures PlacesAfterFirst(a, rest, p, Later(at))
  {
    forall i: nat | 0 < i < |a| && p(a[i]) ensures i in Later(at) {
      assert a[1..][i - 1] == a[i] && i - 1 in at;
      var k :| 0 <= k < |at| && at[k] == i - 1;
      assert Later(at)[k] == i;
    }
    forall k | 0 <= k < |at| ensures rest[k] == a[Later(at)[k]] { assert a[1..][at[k]] == a[at[k] + 1]; }
  }

  /** A selection has the selected elements and no others. */
  lemma SelectedHas<T(!new)>(a: seq<T>, b: seq<T>, p: T -> bool, x: T)
    requires Selected(a, b, p)
    ensures x in b <==> x in a && p(x)
  {
    var at :| SelectedAt(a, b, p, at);
    if x in a && p(x) {
      var i: nat :| i < |a| && a[i] == x;
      var k :| 0 <= k < |at| && at[k] == i;
      assert b[k] == x;
    }
  }

  /** There is only one selection. */
  lemma {:induction false} SelectedIsUnique<T(!new)>(a: seq<T>, b: seq<T>, c: seq<T>, p: T -> bool)
    requires Selected(a, b, p) && Selected(a, c, p)
    ensures b == c
  {
    var at :| SelectedAt(a, b, p, at);
    var bt :| SelectedAt(a, c, p, bt);
    SamePlaces(a, b, c, p, at, bt, 0);
  }

  /** The next place of one selection is a place of the other, not before its next one. */
  lemma NextPlace<T(!new)>(a: seq<T>, b: seq<T>, c: seq<T>, p: T -> bool, at: seq<nat>, bt: seq<nat>, k: nat)
    requires SelectedAt(a, b, p, at) && SelectedAt(a, c, p, bt)
    requires k < |at| && k <= |bt| && forall l | 0 <= l < k :: at[l] == bt[l]
    ensures k < |bt| && bt[k] <= at[k]
  {
    assert at[k] in bt && forall l | 0 <= l < k :: at[l] < at[k];
    var l :| 0 <= l < |bt| && bt[l] == at[k];
  }

  lemma {:induction false} SamePlaces<T(!new)>(a: seq<T>, b: seq<T>, c: seq<T>, p: T -> bool, at: seq<nat>,
                                               bt: seq<nat>, k: nat)
    requires SelectedAt(a, b, p, at) && SelectedAt(a, c, p, bt)
    requires k <= |at| && k <= |bt| && forall l | 0 <= l < k :: at[l] == bt[l]
    ensures b == c
    decreases |at| - k
  {
    if k < |bt| { NextPlace(a, c, b, p, bt, at, k); }
    if k < |at| {
      NextPlace(a, b, c, p, at, bt, k);
      SamePlaces(a, b, c, p, at, bt, k + 1);
    }
  }
}
