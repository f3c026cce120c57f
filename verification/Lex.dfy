/** Lexicographic order on sequences of numbers: the order of SNMP object identifiers
    and, read as child positions, document order. */
module Lex {

  /** A proper prefix comes first, otherwise the first position in which the two differ decides. */
  predicate Before(p: seq<nat>, q: seq<nat>) {
    q != [] && (p == [] || p[0] < q[0] || (p[0] == q[0] && Before(p[1..], q[1..])))
  }

  lemma {:induction false} BeforeIrreflexive(p: seq<nat>)
    ensures !Before(p, p)
  {
    if p != [] { BeforeIrreflexive(p[1..]); }
  }

  lemma {:induction false} BeforeTotal(p: seq<nat>, q: seq<nat>)
    ensures p == q || Before(p, q) || Before(q, p)
  {
    if p != [] && q != [] && p[0] == q[0] {
      BeforeTotal(p[1..], q[1..]);
      if p[1..] == q[1..] { assert p == [p[0]] + p[1..] && q == [q[0]] + q[1..]; }
    }
  }

  lemma {:induction false} BeforeTransitive(p: seq<nat>, q: seq<nat>, r: seq<nat>)
    requires Before(p, q) && Before(q, r)
    ensures Before(p, r)
  {
    if p != [] && p[0] == q[0] == r[0] { BeforeTransitive(p[1..], q[1..], r[1..]); }
  }

  lemma BeforeAsymmetric(p: seq<nat>, q: seq<nat>)
    requires Before(p, q)
    ensures !Before(q, p) && p != q
  {
    BeforeIrreflexive(p);
    if Before(q, p) { BeforeTransitive(p, q, p); }
  }

  /** A common prefix does not matter. */
  lemma {:induction false} BeforeShift(b: seq<nat>, p: seq<nat>, q: seq<nat>)
    ensures Before(b + p, b + q) <==> Before(p, q)
  {
    if b == [] {
      assert b + p == p && b + q == q;
    } else {
      assert (b + p)[1..] == b[1..] + p && (b + q)[1..] == b[1..] + q;
      BeforeShift(b[1..], p, q);
    }
  }

  /** Sequences that agree up to `k` are ordered by position `k`. */
  lemma BeforeAt(p: seq<nat>, q: seq<nat>, k: nat)
    requires k < |p| && k < |q| && p[..k] == q[..k] && p[k] < q[k]
    ensures Before(p, q)
  {
    BeforeShift(p[..k], p[k..], q[k..]);
    assert p == p[..k] + p[k..] && q == q[..k] + q[k..];
  }

  lemma BeforePrefix(p: seq<nat>, q: seq<nat>)
    requires |p| < |q| && q[..|p|] == p
    ensures Before(p, q)
  {
    BeforeShift(p, [], q[|p|..]);
    assert p == p + [] && q == p + q[|p|..];
  }

  /** The first position where two sequences differ decides. */
  lemma DecidedAt(p: seq<nat>, q: seq<nat>, k: nat)
    requires k < |p| && k < |q| && p[..k] == q[..k] && p[k] != q[k]
    ensures Before(p, q) <==> p[k] < q[k]
  {
    if p[k] < q[k] {
      BeforeAt(p, q, k);
    } else {
      BeforeAt(q, p, k);
      BeforeAsymmetric(q, p);
    }
  }

  ghost predicate Increasing(ps: seq<seq<nat>>) {
    forall i, j :: 0 <= i < j < |ps| ==> Before(ps[i], ps[j])
  }

  lemma HasMember(ps: seq<seq<nat>>)
    ensures ps == [] || exists p :: p in ps
  {
    if ps != [] { assert ps[0] in ps; }
  }

  /** Two increasing listings of the same members are the same listing. */
  lemma {:induction false} IncreasingUnique(ps: seq<seq<nat>>, qs: seq<seq<nat>>)
    requires Increasing(ps) && Increasing(qs)
    requires forall p :: p in ps <==> p in qs
    ensures ps == qs
  {
    if ps == [] {
      HasMember(qs);
    } else {
      assert ps[0] in qs && qs[0] in ps;
      var i :| 0 <= i < |qs| && qs[i] == ps[0];
      var j :| 0 <= j < |ps| && ps[j] == qs[0];
      if i > 0 && j > 0 {
        BeforeAsymmetric(ps[0], qs[0]);
      }
      assert ps[0] == qs[0];
      forall p ensures p in ps[1..] <==> p in qs[1..] {
        BeforeIrreflexive(ps[0]);
        assert p in ps <==> p == ps[0] || p in ps[1..];
        assert p in qs <==> p == qs[0] || p in qs[1..];
      }
      IncreasingUnique(ps[1..], qs[1..]);
    }
  }
}
