/** Document order in jquery.js: the fallback `sortOrder` comparator, `siblingCheck`, and
    `uniqueSort`, which sorts a result list with it and splices out repeated nodes. */
module DocumentOrder {
  import opened Dom
  import opened Lex

  // ----- Before is preorder

  /** The shape of a document. */
  datatype Tree = Tree(children: seq<Tree>)

  /** The addresses of `t` in the order of a preorder walk, `t` itself sitting at `base`. */
  function Preorder(t: Tree, base: Address): seq<Address>
    decreases t, 1
  {
    [base] + PreorderAll(t.children, base, 0)
  }

  function PreorderAll(ts: seq<Tree>, base: Address, k: nat): seq<Address>
    decreases ts, 0
  {
    if ts == [] then [] else Preorder(ts[0], base + [k]) + PreorderAll(ts[1..], base, k + 1)
  }

  ghost predicate Below(base: Address, p: Address) {
    |base| <= |p| && p[..|base|] == base
  }

  lemma {:induction false} PreorderIncreasing(t: Tree, base: Address)
    ensures Increasing(Preorder(t, base))
    ensures forall p <- Preorder(t, base) :: Below(base, p)
    decreases t, 1
  {
    PreorderAllIncreasing(t.children, base, 0);
    forall p | p in PreorderAll(t.children, base, 0) ensures Before(base, p) {
      BeforePrefix(base, p);
    }
  }

  lemma {:induction false} PreorderAllIncreasing(ts: seq<Tree>, base: Address, k: nat)
    ensures Increasing(PreorderAll(ts, base, k))
    ensures forall p <- PreorderAll(ts, base, k) :: |base| < |p| && p[..|base|] == base && k <= p[|base|]
    decreases ts, 0
  {
    if ts != [] {
      var first, rest := Preorder(ts[0], base + [k]), PreorderAll(ts[1..], base, k + 1);
      PreorderIncreasing(ts[0], base + [k]);
      PreorderAllIncreasing(ts[1..], base, k + 1);
      forall p | p in first ensures |base| < |p| && p[..|base|] == base && p[|base|] == k {
        assert Below(base + [k], p);
        assert p[..|base|] == p[..|base| + 1][..|base|];
        assert p[..|base| + 1][|base|] == k;
      }
      forall p, q | p in first && q in rest ensures Before(p, q) {
        BeforeAt(p, q, |base|);
      }
    }
  }

  /** What lies under the node at `p`, from its child `k` on. */
  ghost function UnderFrom(doc: Document, p: Address, k: nat): set<Address> {
    set q <- doc.at.Keys | |p| < |q| && q[..|p|] == p && k <= q[|p|]
  }

  lemma UnderFromShrinks(doc: Document, p: Address, k: nat)
    requires p + [k] in doc.at
    ensures |UnderFrom(doc, p + [k], 0)| < |UnderFrom(doc, p, k)| && |UnderFrom(doc, p, k + 1)| < |UnderFrom(doc, p, k)|
  {
    var c, all := p + [k], UnderFrom(doc, p, k);
    assert c in all && c !in UnderFrom(doc, c, 0) && c !in UnderFrom(doc, p, k + 1);
    forall q | q in UnderFrom(doc, c, 0) ensures q in all {
      assert q[..|p|] == q[..|p| + 1][..|p|];
      assert q[..|p| + 1][|p|] == k;
    }
    SmallerSet(UnderFrom(doc, c, 0), all, c);
    SmallerSet(UnderFrom(doc, p, k + 1), all, c);
  }

  lemma SmallerSet(a: set<Address>, b: set<Address>, x: Address)
    requires a <= b && x in b && x !in a
    ensures |a| < |b|
  {
    assert a + (b - a) == b && x in b - a;
  }

  /** The shape of the document at `p`, read off its addresses. */
  ghost function Shape(doc: Document, p: Address): Tree
    decreases |UnderFrom(doc, p, 0)|, 1
  {
    Tree(ShapeFrom(doc, p, 0))
  }

  ghost function ShapeFrom(doc: Document, p: Address, k: nat): seq<Tree>
    decreases |UnderFrom(doc, p, k)|, 0
  {
    if p + [k] !in doc.at then [] else
      UnderFromShrinks(doc, p, k);
      [Shape(doc, p + [k])] + ShapeFrom(doc, p, k + 1)
  }

  /** A preorder walk of that shape meets exactly the nodes of the document. */
  lemma {:induction false} ShapeLists(doc: Document, p: Address)
    requires doc.Valid() && p in doc.at
    ensures forall q :: q in Preorder(Shape(doc, p), p) <==> q in doc.at && Below(p, q)
    decreases |UnderFrom(doc, p, 0)|, 1
  {
    ShapeFromLists(doc, p, 0);
    forall q ensures q in doc.at && Below(p, q) <==> q == p || q in UnderFrom(doc, p, 0) {
      if q in doc.at && Below(p, q) && |q| == |p| { assert q[..|p|] == q; }
    }
  }

  lemma {:induction false} ShapeFromLists(doc: Document, p: Address, k: nat)
    requires doc.Valid() && p in doc.at
    ensures forall q :: q in PreorderAll(ShapeFrom(doc, p, k), p, k) <==> q in UnderFrom(doc, p, k)
    decreases |UnderFrom(doc, p, k)|, 0
  {
    if p + [k] !in doc.at {
      NoneUnder(doc, p, k);
    } else {
      UnderFromShrinks(doc, p, k);
      ShapeLists(doc, p + [k]);
      ShapeFromLists(doc, p, k + 1);
      forall q ensures q in UnderFrom(doc, p, k) <==> (q in doc.at && Below(p + [k], q)) || q in UnderFrom(doc, p, k + 1) {
        if |p| < |q| {
          assert q[..|p| + 1] == q[..|p|] + [q[|p|]];
        }
      }
    }
  }

  lemma NoneUnder(doc: Document, p: Address, k: nat)
    requires doc.Valid() && p + [k] !in doc.at
    ensures UnderFrom(doc, p, k) == {}
  {
    if q :| q in UnderFrom(doc, p, k) {
      PrefixIn(doc, q, |p| + 1);
      assert Up(q[..|p| + 1]) == p;
      EarlierSiblingIn(doc, q[..|p| + 1], k);
    }
  }

  // ----- the comparator

  /** Where the document puts `b` relative to `a`. */
  function Compare(doc: Document, a: Node, b: Node): int
    requires a in doc.path && b in doc.path
  {
    if a == b then 0 else if Before(doc.path[a], doc.path[b]) then -1 else 1
  }

  lemma {:induction false} PrefixIn(doc: Document, p: Address, k: nat)
    requires doc.Valid() && p in doc.at && k <= |p|
    ensures p[..k] in doc.at
  {
    if k == |p| {
      assert p[..k] == p;
    } else {
      assert Up(p) in doc.at && Up(p)[..k] == p[..k];
      PrefixIn(doc, Up(p), k);
    }
  }

  /** The ancestors of the node at `p`, root first, the node itself left out. */
  ghost function Ancestors(doc: Document, p: Address): (r: seq<Node>)
    requires doc.Valid() && p in doc.at
    ensures |r| == |p|
    ensures forall i :: 0 <= i < |p| ==> p[..i] in doc.at && r[i] == doc.at[p[..i]]
  {
    if p == [] then [] else
      assert forall i :: 0 <= i < |p| ==> p[..i] == Up(p)[..i];
      assert Up(p) in doc.at;
      Ancestors(doc, Up(p)) + [doc.at[Up(p)]]
  }

  /** Some node comes later than `a` under the same parent, and it is `b`. */
  ghost predicate LaterSibling(doc: Document, a: Node, b: Node)
    requires a in doc.path && b in doc.path
  {
    var p, q := doc.path[a], doc.path[b];
    p != [] && q != [] && Up(p) == Up(q) && p[|p| - 1] < q[|q| - 1]
  }

  ghost function Last(p: Address): int {
    if p == [] then -1 else p[|p| - 1]
  }

  /** Distinct nodes under one parent are ordered by their position. */
  lemma SiblingsDecide(doc: Document, p: Address, q: Address)
    requires doc.Valid() && p in doc.at && q in doc.at && p != q
    requires p != [] && q != [] && Up(p) == Up(q)
    ensures Before(p, q) <==> LaterSibling(doc, doc.at[p], doc.at[q])
  {
    assert p == Up(p) + [p[|p| - 1]] && q == Up(q) + [q[|q| - 1]];
    DecidedAt(p, q, |p| - 1);
  }

  /** Two paths from the root that part at level `i`, both going deeper. */
  lemma PartAt(doc: Document, p: Address, q: Address, i: nat)
    requires doc.Valid() && p in doc.at && q in doc.at && 0 < i <= |p| && i <= |q|
    requires p[..i - 1] == q[..i - 1] && p[..i] != q[..i]
    ensures p[..i] in doc.at && q[..i] in doc.at
    ensures Before(p, q) <==> LaterSibling(doc, doc.at[p[..i]], doc.at[q[..i]])
  {
    PrefixIn(doc, p, i);
    PrefixIn(doc, q, i);
    assert Up(p[..i]) == p[..i - 1] && Up(q[..i]) == q[..i - 1];
    SiblingsDecide(doc, p[..i], q[..i]);
    assert p[..i] == p[..i - 1] + [p[i - 1]] && q[..i] == q[..i - 1] + [q[i - 1]];
    DecidedAt(p, q, i - 1);
    DecidedAt(p[..i], q[..i], i - 1);
  }

  class Results {
    var items: seq<Node>

    constructor (items: seq<Node>)
      ensures this.items == items
    {
      this.items := items;
    }
  }

  /** No later entry belongs before an earlier one. */
  ghost predicate InOrder(doc: Document, s: seq<Node>) {
    && (forall n <- s :: n in doc.path)
    && forall i, j :: 0 <= i < j < |s| ==> Compare(doc, s[i], s[j]) <= 0
  }

  /** Document order without repetition. */
  ghost predicate StrictlyInOrder(doc: Document, s: seq<Node>) {
    && (forall n <- s :: n in doc.path)
    && forall i, j :: 0 <= i < j < |s| ==> Before(doc.path[s[i]], doc.path[s[j]])
  }

  function Paths(doc: Document, s: seq<Node>): (r: seq<Address>)
    requires forall n <- s :: n in doc.path
    ensures |r| == |s| && forall i :: 0 <= i < |s| ==> r[i] == doc.path[s[i]]
  {
    if s == [] then [] else [doc.path[s[0]]] + Paths(doc, s[1..])
  }

  function Keep(ps: seq<Address>, keep: set<Address>): seq<Address> {
    if ps == [] then [] else (if ps[0] in keep then [ps[0]] else []) + Keep(ps[1..], keep)
  }

  lemma {:induction false} KeepIncreasing(ps: seq<Address>, keep: set<Address>)
    requires Increasing(ps)
    ensures Increasing(Keep(ps, keep))
    ensures forall p :: p in Keep(ps, keep) <==> p in ps && p in keep
  {
    if ps != [] {
      KeepIncreasing(ps[1..], keep);
      assert ps == [ps[0]] + ps[1..];
      forall p | p in Keep(ps[1..], keep) ensures Before(ps[0], p) {
        assert p in ps[1..];
      }
    }
  }

  /** A strictly ordered list of nodes is the preorder walk of the document with all
      other nodes left out: set and order of the list determine it. */
  lemma StrictOrderIsPreorder(doc: Document, s: seq<Node>)
    requires doc.Valid() && StrictlyInOrder(doc, s)
    ensures Paths(doc, s) == Keep(Preorder(Shape(doc, []), []), set n <- s :: doc.path[n])
  {
    var t, ps, keep := Shape(doc, []), Paths(doc, s), set n <- s :: doc.path[n];
    PreorderIncreasing(t, []);
    KeepIncreasing(Preorder(t, []), keep);
    forall p ensures p in ps <==> p in Keep(Preorder(t, []), keep) {
      if p in keep {
        var n :| n in s && doc.path[n] == p;
        PrefixIn(doc, p, 0);
        ShapeLists(doc, []);
        var i :| 0 <= i < |s| && s[i] == n;
        assert ps[i] == p;
      }
    }
    IncreasingUnique(ps, Keep(Preorder(t, []), keep));
  }

  lemma CompareTransitive(doc: Document, a: Node, b: Node, c: Node)
    requires a in doc.path && b in doc.path && c in doc.path
    requires Compare(doc, a, b) <= 0 && Compare(doc, b, c) <= 0
    ensures Compare(doc, a, c) <= 0
    ensures Compare(doc, a, b) < 0 || Compare(doc, b, c) < 0 ==> Compare(doc, a, c) < 0
  {
    if a != b && b != c {
      BeforeTransitive(doc.path[a], doc.path[b], doc.path[c]);
      BeforeAsymmetric(doc.path[a], doc.path[c]);
    }
  }

  lemma CompareFlip(doc: Document, a: Node, b: Node)
    requires doc.Valid() && a in doc.path && b in doc.path && Compare(doc, a, b) > 0
    ensures Compare(doc, b, a) < 0 && a != b
  {
    BeforeTotal(doc.path[a], doc.path[b]);
  }

  /** `x` put into `s` at position `j`. */
  function Inserted(s: seq<Node>, x: Node, j: nat): (r: seq<Node>)
    requires j <= |s|
    ensures |r| == |s| + 1
    ensures forall k :: 0 <= k <= |s| ==> r[k] == if k < j then s[k] else if k == j then x else s[k - 1]
    ensures multiset(r) == multiset(s) + multiset{x}
  {
    assert s == s[..j] + s[j..];
    s[..j] + [x] + s[j..]
  }

  lemma InsertedPair(doc: Document, s: seq<Node>, x: Node, j: nat, a: nat, b: nat)
    requires InOrder(doc, s) && x in doc.path && j <= |s| && a < b <= |s|
    requires forall k :: j <= k < |s| ==> Compare(doc, x, s[k]) < 0
    requires j > 0 ==> Compare(doc, s[j - 1], x) <= 0
    ensures Inserted(s, x, j)[a] in doc.path && Inserted(s, x, j)[b] in doc.path
    ensures Compare(doc, Inserted(s, x, j)[a], Inserted(s, x, j)[b]) <= 0
  {
    hide Compare;
    if b < j {
      assert Compare(doc, s[a], s[b]) <= 0;
    } else if b == j {
      if a < j - 1 { CompareTransitive(doc, s[a], s[j - 1], x); }
    } else if a == j {
      assert Compare(doc, x, s[b - 1]) < 0;
    } else {
      assert Compare(doc, s[if a < j then a else a - 1], s[b - 1]) <= 0;
    }
  }

  lemma InsertedInOrder(doc: Document, s: seq<Node>, x: Node, j: nat)
    requires InOrder(doc, s) && x in doc.path && j <= |s|
    requires forall k :: j <= k < |s| ==> Compare(doc, x, s[k]) < 0
    requires j > 0 ==> Compare(doc, s[j - 1], x) <= 0
    ensures InOrder(doc, Inserted(s, x, j))
  {
    hide Compare;
    forall a, b | 0 <= a < b <= |s|
      ensures Compare(doc, Inserted(s, x, j)[a], Inserted(s, x, j)[b]) <= 0
    {
      InsertedPair(doc, s, x, j, a, b);
    }
  }

  /** An ordered list without repeated neighbours is strictly ordered. */
  lemma StrictIfNoNeighbours(doc: Document, s: seq<Node>)
    requires InOrder(doc, s)
    requires NoRepeats(s)
    ensures StrictlyInOrder(doc, s)
  {
    forall i, j | 0 <= i < j < |s| ensures Before(doc.path[s[i]], doc.path[s[j]]) {
      if i + 1 < j {
        CompareTransitive(doc, s[i], s[i + 1], s[j]);
      }
      assert Compare(doc, s[i], s[i + 1]) < 0;
    }
  }

  lemma SameMembers(s: seq<Node>, t: seq<Node>)
    requires multiset(s) == multiset(t)
    ensures forall n :: n in s <==> n in t
  {
    forall n ensures n in s <==> n in t {
      assert n in s <==> n in multiset(s);
      assert n in t <==> n in multiset(t);
    }
  }

  /** No entry equals its left neighbour. */
  ghost predicate NoRepeats(s: seq<Node>) {
    forall k :: 0 < k < |s| ==> s[k - 1] != s[k]
  }

  /** Equal neighbours were handed to the comparator. */
  ghost predicate RepeatsSeen(s: seq<Node>, compared: set<(Node, Node)>) {
    forall k :: 0 < k < |s| && s[k - 1] == s[k] ==> (s[k], s[k]) in compared
  }

  /** What any comparison sort leaves of `before`: the same entries in order, and where it leaves two equal ones side by
      side it has compared them, as nothing else tells it that they may stay so. */
  ghost predicate SortedFrom(doc: Document, before: seq<Node>, after: seq<Node>, compared: set<(Node, Node)>) {
    multiset(after) == multiset(before) && InOrder(doc, after) && RepeatsSeen(after, compared)
  }

  /** Splicing out a repeated neighbour keeps order and members. */
  lemma Splice(doc: Document, s: seq<Node>, i: nat)
    requires InOrder(doc, s) && 0 < i < |s| && s[i] == s[i - 1]
    ensures InOrder(doc, s[..i] + s[i + 1..])
    ensures (s[..i] + s[i + 1..])[..i] == s[..i]
    ensures forall n :: n in s <==> n in s[..i] + s[i + 1..]
  {
    assert s == s[..i] + [s[i]] + s[i + 1..];
    assert s[i - 1] in s[..i];
  }

  /** Where the siblings after `a` end before `b` is met, `b` is not one of them. */
  lemma NotLater(doc: Document, a: Node, b: Node, p: seq<nat>, at: nat)
    requires doc.Valid() && a in doc.path && b in doc.path && p == doc.path[a]
    requires p != [] ==> Up(p) + [at] !in doc.at
    requires LaterSibling(doc, a, b) ==> at <= Last(doc.path[b])
    ensures !LaterSibling(doc, a, b)
  {
    if at <= Last(doc.path[b]) {
      EarlierSiblingIn(doc, doc.path[b], at);
    }
  }

  class Sorter {
    const doc: Document
    const baseHasDuplicate: bool  // false where the engine's sort calls its comparator
    var hasDuplicate: bool
    ghost var compared: set<(Node, Node)>  // what the comparator was asked in the present sort

    constructor (doc: Document, baseHasDuplicate: bool)
      ensures this.doc == doc && this.baseHasDuplicate == baseHasDuplicate && !hasDuplicate
    {
      this.doc, this.baseHasDuplicate, hasDuplicate, compared := doc, baseHasDuplicate, false, {};
    }

    /** The flag tells whether the comparator was asked about a node and itself. */
    ghost predicate Noticed()
      reads this
    {
      hasDuplicate <==> baseHasDuplicate || exists pair <- compared :: pair.0 == pair.1
    }

    method SiblingCheck(a: Node, b: Node, ret: int) returns (r: int)
      requires doc.Valid() && a in doc.path && b in doc.path
      ensures r == if a == b then ret else if LaterSibling(doc, a, b) then -1 else 1
    {
      if a == b {
        return ret;
      }
      var cur := doc.Next(a);
      ghost var p := doc.path[a];
      ghost var todo := doc.Nodes();
      ghost var at: nat := if p == [] then 0 else p[|p| - 1] + 1;
      while cur != null
        invariant cur != null ==> p != [] && cur in todo && doc.path[cur] == Up(p) + [at]
        invariant cur == null && p != [] ==> Up(p) + [at] !in doc.at
        invariant p != [] ==> at > p[|p| - 1] && forall n <- doc.path :: n in todo || Last(doc.path[n]) < at
        invariant LaterSibling(doc, a, b) ==> at <= Last(doc.path[b])
        decreases todo
      {
        if cur == b {
          return -1;
        }
        assert LaterSibling(doc, a, b) && at == Last(doc.path[b]) ==> doc.path[b] == Up(p) + [at];
        todo := todo - {cur};
        at := at + 1;
        assert Right(doc.path[cur]) == Up(p) + [at];
        cur := doc.Next(cur);
      }
      NotLater(doc, a, b, p, at);
      r := 1;
    }

    /** The nodes above `n`, root first, gathered by walking up and unshifting. */
    method Above(n: Node) returns (up: seq<Node>)
      requires doc.Valid() && n in doc.path
      ensures up == Ancestors(doc, doc.path[n])
    {
      up := [];
      ghost var p := doc.path[n];
      ghost var k: nat := |p|;
      assert p[..k] == p;
      var cur := doc.Parent(n);
      while cur != null
        invariant k <= |p| && p[..k] in doc.at && up == Ancestors(doc, p)[k..]
        invariant if k == 0 then cur == null else cur != null && p[..k - 1] in doc.at && cur == doc.at[p[..k - 1]]
        decreases k
      {
        up := [cur] + up;
        k := k - 1;
        assert k > 0 ==> Up(p[..k]) == p[..k - 1];
        cur := doc.Parent(cur);
      }
    }

    method SortOrder(a: Node, b: Node) returns (r: int)
      requires doc.Valid() && a in doc.path && b in doc.path
      modifies `hasDuplicate, `compared
      ensures r == Compare(doc, a, b)
      ensures hasDuplicate == (old(hasDuplicate) || a == b)
      ensures compared == old(compared) + {(a, b)} && (old(Noticed()) ==> Noticed())
    {
      compared := compared + {(a, b)};
      if a == b {
        hasDuplicate := true;
        return 0;
      }
      ghost var p, q := doc.path[a], doc.path[b];
      var aup, bup := doc.Parent(a), doc.Parent(b);
      if aup == bup {
        r := SiblingCheck(a, b, 0);
        SiblingsDecide(doc, p, q);
        return;
      } else if aup == null {
        return -1;
      } else if bup == null {
        return 1;
      }
      var ap := Above(a);
      var bp := Above(b);
      r := WalkDown(a, b, ap, bp);
    }

    /** The end of `sortOrder`: walk down the two parent lists looking for a discrepancy. */
    method WalkDown(a: Node, b: Node, ap: seq<Node>, bp: seq<Node>) returns (r: int)
      requires doc.Valid() && a in doc.path && b in doc.path && a != b && doc.Parent(a) != doc.Parent(b)
      requires ap == Ancestors(doc, doc.path[a]) && bp == Ancestors(doc, doc.path[b]) && ap != [] && bp != []
      ensures r == Compare(doc, a, b)
    {
      ghost var p, q := doc.path[a], doc.path[b];
      var al, bl := |ap|, |bp|;
      var i := 0;
      while i < al && i < bl
        invariant i <= al && i <= bl && (i > 0 ==> p[..i - 1] == q[..i - 1])
      {
        if ap[i] != bp[i] {
          r := SiblingCheck(ap[i], bp[i], 0);
          PartAt(doc, p, q, i);
          return;
        }
        i := i + 1;
      }
      assert p[..al] == p && q[..bl] == q;
      assert p[..al - 1] == Up(p) && q[..bl - 1] == Up(q);
      if i == al {
        r := SiblingCheck(a, bp[i], -1);
        if a == bp[i] { BeforePrefix(p, q); } else { PartAt(doc, p, q, i); }
      } else {
        r := SiblingCheck(ap[i], b, 1);
        if ap[i] == b { BeforePrefix(q, p); BeforeAsymmetric(q, p); } else { PartAt(doc, p, q, i); }
      }
    }

    /** `results.sort( sortOrder )` as an insertion sort: the engine's own sort is not part of the repository. */
    method Sort(results: Results)
      requires doc.Valid() && (forall n <- results.items :: n in doc.path) && Noticed()
      modifies `hasDuplicate, `compared, results
      ensures SortedFrom(doc, old(results.items), results.items, compared) && Noticed()
    {
      var done := 0;
      while done < |results.items|
        invariant done <= |results.items|
        invariant multiset(results.items) == multiset(old(results.items))
        invariant forall n <- results.items :: n in doc.path
        invariant InOrder(doc, results.items[..done]) && RepeatsSeen(results.items[..done], compared) && Noticed()
      {
        ghost var was := results.items;
        var head := Insert(results.items[..done], results.items[done]);
        assert was == was[..done] + [was[done]] + was[done + 1..];
        results.items := head + results.items[done + 1..];
        SameMembers(was, results.items);
        done := done + 1;
        assert results.items[..done] == head;
      }
      assert results.items[..done] == results.items;
    }

    /** Insert `x` into the ordered `s`, comparing from the right. */
    method Insert(s: seq<Node>, x: Node) returns (r: seq<Node>)
      requires doc.Valid() && x in doc.path && InOrder(doc, s) && RepeatsSeen(s, compared) && Noticed()
      modifies `hasDuplicate, `compared
      ensures multiset(r) == multiset(s) + multiset{x} && |r| == |s| + 1
      ensures InOrder(doc, r) && RepeatsSeen(r, compared) && Noticed()
    {
      hide Compare;
      var j := |s|;
      while j > 0
        invariant 0 <= j <= |s|
        invariant forall k :: j <= k < |s| ==> Compare(doc, x, s[k]) < 0 && s[k] != x
        invariant old(compared) <= compared && Noticed()
      {
        var c := SortOrder(s[j - 1], x);
        if c <= 0 {
          break;
        }
        CompareFlip(doc, s[j - 1], x);
        j := j - 1;
      }
      InsertedInOrder(doc, s, x, j);
      r := Inserted(s, x, j);
    }

    method UniqueSort(results: Results)
      requires doc.Valid() && forall n <- results.items :: n in doc.path
      modifies `hasDuplicate, `compared, results
      ensures StrictlyInOrder(doc, results.items)
      ensures forall n :: n in results.items <==> n in old(results.items)
    {
      hasDuplicate, compared := baseHasDuplicate, {};
      Sort(results);
      AfterSort(results, old(results.items));
    }

    /** The end of `uniqueSort`, after any sort whatever that used the comparator. */
    method AfterSort(results: Results, ghost before: seq<Node>)
      requires SortedFrom(doc, before, results.items, compared) && Noticed()
      modifies results
      ensures StrictlyInOrder(doc, results.items)
      ensures forall n :: n in results.items <==> n in before
    {
      SameMembers(before, results.items);
      if hasDuplicate {
        SpliceRepeats(results);
      }
      StrictIfNoNeighbours(doc, results.items);
    }

    method SpliceRepeats(results: Results)
      requires InOrder(doc, results.items)
      modifies results
      ensures InOrder(doc, results.items) && NoRepeats(results.items)
      ensures forall n :: n in results.items <==> n in old(results.items)
    {
      var i := 1;
      while i < |results.items|
        invariant 0 < i
        invariant InOrder(doc, results.items)
        invariant forall k :: 0 < k < i && k < |results.items| ==> results.items[k - 1] != results.items[k]
        invariant forall n :: n in results.items <==> n in old(results.items)
        decreases |results.items| - i
      {
        if results.items[i] == results.items[i - 1] {
          Splice(doc, results.items, i);
          results.items := results.items[..i] + results.items[i + 1..];
          i := i - 1;
        }
        i := i + 1;
      }
    }
  }
}
