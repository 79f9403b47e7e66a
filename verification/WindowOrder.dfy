/** Window ids and the order the arbitration uses to break focus-time ties.

    JavaScript compares strings lexicographically by code unit.  The order is modelled as
    such and proved to be a strict total order, which is what makes the arbitration
    symmetric across windows. */
module WindowOrder {
  type WindowId = string

  /** a < b, as JavaScript's `<` on strings. */
  predicate StringLess(a: string, b: string) {
    if |b| == 0 then false
    else if |a| == 0 then true
    else a[0] < b[0] || (a[0] == b[0] && StringLess(a[1..], b[1..]))
  }

  /** Exactly one of a < b, a == b, b < a. */
  lemma {:induction false} StringLessTrichotomy(a: string, b: string)
    ensures StringLess(a, b) || a == b || StringLess(b, a)
    ensures !(StringLess(a, b) && StringLess(b, a))
    ensures StringLess(a, b) ==> a != b
  {
    if |a| == 0 || |b| == 0 {
    } else {
      StringLessTrichotomy(a[1..], b[1..]);
      assert a == [a[0]] + a[1..] && b == [b[0]] + b[1..];
    }
  }

  lemma {:induction false} StringLessTransitive(a: string, b: string, c: string)
    requires StringLess(a, b) && StringLess(b, c)
    ensures StringLess(a, c)
  {
    if |a| == 0 {
    } else {
      if a[0] == b[0] && b[0] == c[0] {
        StringLessTransitive(a[1..], b[1..], c[1..]);
      }
    }
  }

  /** A window with focus time `fa` and id `a` beats one with `fb` and `b`: newer focus first,
      then the greater id. */
  predicate Outranks(fa: nat, a: WindowId, fb: nat, b: WindowId) {
    fa > fb || (fa == fb && StringLess(b, a))
  }

  /** Of two different windows exactly one outranks the other, whichever window asks. */
  lemma OutranksTotal(fa: nat, a: WindowId, fb: nat, b: WindowId)
    ensures a != b ==> (Outranks(fa, a, fb, b) <==> !Outranks(fb, b, fa, a))
    ensures !Outranks(fa, a, fa, a)
  {
    StringLessTrichotomy(a, b);
    StringLessTrichotomy(a, a);
  }

  lemma OutranksTransitive(fa: nat, a: WindowId, fb: nat, b: WindowId, fc: nat, c: WindowId)
    requires Outranks(fa, a, fb, b) && Outranks(fb, b, fc, c)
    ensures Outranks(fa, a, fc, c)
  {
    if fa == fb && fb == fc {
      StringLessTransitive(c, b, a);
    }
  }
}
