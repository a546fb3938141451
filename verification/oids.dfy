/**
  Object identifiers and their ordering.

  The agent orders OIDs with the comparison of its OID value type: component
  by component, and a proper prefix before every OID it prefixes.
*/
module Oids {

  /** An OID: a sequence of non-negative arcs, e.g. 1.3.6.1.2.1.1.3.0. */
  type Oid = seq<nat>

  /** Three-way lexicographic comparison: negative, zero or positive. */
  function Cmp(a: Oid, b: Oid): (c: int)
    ensures -1 <= c <= 1
    ensures c == 0 <==> a == b
  {
    if a == [] && b == [] then 0
    else if a == [] then -1
    else if b == [] then 1
    else if a[0] < b[0] then -1
    else if a[0] > b[0] then 1
    else
      var c := Cmp(a[1..], b[1..]);
      assert c == 0 ==> a == [a[0]] + a[1..] == [b[0]] + b[1..] == b;
      c
  }

  /** `a` sorts strictly before `b`. */
  predicate Less(a: Oid, b: Oid) {
    Cmp(a, b) < 0
  }

  /** Swapping the operands negates the comparison. */
  lemma {:induction false} CmpAntisymmetric(a: Oid, b: Oid)
    ensures Cmp(b, a) == -Cmp(a, b)
  {
    if a != [] && b != [] && a[0] == b[0] {
      CmpAntisymmetric(a[1..], b[1..]);
    }
  }

  /** The strict order is transitive. */
  lemma {:induction false} CmpTransitive(a: Oid, b: Oid, c: Oid)
    requires Cmp(a, b) < 0 && Cmp(b, c) < 0
    ensures Cmp(a, c) < 0
  {
    if a != [] && b != [] && c != [] && a[0] == b[0] == c[0] {
      CmpTransitive(a[1..], b[1..], c[1..]);
    }
  }

  /** Less is a strict total order on OIDs. */
  lemma LessIsStrictTotalOrder(a: Oid, b: Oid, c: Oid)
    ensures !Less(a, a)
    ensures Less(a, b) ==> !Less(b, a)
    ensures a != b ==> Less(a, b) || Less(b, a)
    ensures Less(a, b) && Less(b, c) ==> Less(a, c)
  {
    CmpAntisymmetric(a, b);
    if Less(a, b) && Less(b, c) {
      CmpTransitive(a, b, c);
    }
  }

  /** `a` is a proper prefix of `b`. */
  predicate ProperPrefix(a: Oid, b: Oid) {
    |a| < |b| && a == b[..|a|]
  }

  /** `a` and `b` agree on their first `k` arcs and arc `k` of `a` is smaller. */
  predicate DiffersFirstAt(a: Oid, b: Oid, k: nat) {
    k < |a| && k < |b| && a[..k] == b[..k] && a[k] < b[k]
  }

  /** The first arc in which two OIDs differ decides their order. */
  lemma {:induction false} FirstDifferenceDecides(a: Oid, b: Oid, k: nat)
    requires DiffersFirstAt(a, b, k)
    ensures Less(a, b)
  {
    if k > 0 {
      assert a[0] == a[..k][0] == b[..k][0] == b[0];
      assert a[1..][..k - 1] == a[..k][1..] == b[..k][1..] == b[1..][..k - 1];
      FirstDifferenceDecides(a[1..], b[1..], k - 1);
    }
  }

  /**
    The order is lexicographic, arc by arc: `a` sorts before `b` exactly
    when `a` is a proper prefix of `b` or the first differing arc of `a`
    is the smaller one.
  */
  lemma {:induction false} LessIsLexicographic(a: Oid, b: Oid)
    ensures Less(a, b) <==> ProperPrefix(a, b) || exists k: nat :: DiffersFirstAt(a, b, k)
  {
    if Less(a, b) {
      if a == [] {
        assert ProperPrefix(a, b);
      } else if a[0] < b[0] {
        assert DiffersFirstAt(a, b, 0);
      } else {
        assert a[0] == b[0];
        LessIsLexicographic(a[1..], b[1..]);
        if ProperPrefix(a[1..], b[1..]) {
          assert a == [a[0]] + a[1..] == [b[0]] + b[1..][..|a| - 1] == b[..|a|];
        } else {
          var k: nat :| DiffersFirstAt(a[1..], b[1..], k);
          assert a[..k + 1] == [a[0]] + a[1..][..k] == [b[0]] + b[1..][..k] == b[..k + 1];
          assert DiffersFirstAt(a, b, k + 1);
        }
      }
    }
    if ProperPrefix(a, b) {
      PrefixFirst(a, b);
    }
    if exists k: nat :: DiffersFirstAt(a, b, k) {
      var k: nat :| DiffersFirstAt(a, b, k);
      FirstDifferenceDecides(a, b, k);
    }
  }

  /** A proper prefix sorts before every OID it prefixes. */
  lemma {:induction false} PrefixFirst(a: Oid, b: Oid)
    requires |a| < |b| && a == b[..|a|]
    ensures Less(a, b)
  {
    if a != [] {
      assert a[1..] == b[1..][..|a| - 1];
      PrefixFirst(a[1..], b[1..]);
    }
  }
}
