/** The `nth` branch of the CHILD filter of jquery.js: `:nth-child(first n + last)`,
    with the element positions cached on the nodes per filter pass. */
module NthChild {
  import opened Arithmetic
  import opened Dom

  /** JavaScript's `%` on whole numbers: the remainder takes the sign of the dividend. */
  function JsRemainder(a: int, b: int): int
    requires b != 0
  {
    if a >= 0 then AbsInt(a) % AbsInt(b) else -(AbsInt(a) % AbsInt(b))
  }

  /** The division behind it truncates: the remainder is smaller than the divisor and is on the dividend's side of zero. */
  lemma Truncates(a: int, b: int) returns (q: int)
    requires b != 0
    ensures var r := JsRemainder(a, b);
            a == b * q + r && AbsInt(r) < AbsInt(b) && (a >= 0 ==> r >= 0) && (a <= 0 ==> r <= 0)
  {
    var n, d := AbsInt(a), AbsInt(b);
    var m: int := n / d;
    Divided(n, d);
    q := if (a >= 0) == (b >= 0) then m else -m;
    SignsOut(b, m);
  }

  lemma Divided(n: nat, d: nat)
    requires d > 0
    ensures n == d * (n / d) + n % d && n % d < d
  {
  }

  lemma SignsOut(b: int, m: int)
    ensures b * -m == -(b * m) && -b * m == -(b * m)
  {
  }

  /** The arithmetic test on `diff`, the distance of the position from `last`. */
  predicate Accepts(diff: int, first: int) {
    if first == 0 then diff == 0
    else JsRemainder(diff, first) == 0 && diff as real / first as real >= 0.0
  }

  /** Position `index` is one of `last`, `first + last`, `2 first + last`, and so on. */
  ghost predicate OnProgression(index: int, first: int, last: int) {
    exists n: nat :: index == Term(first, last, n)
  }

  ghost function Term(first: int, last: int, n: nat): int { first * n + last }

  lemma QuotientSign(diff: int, first: int)
    requires first != 0
    ensures diff as real / first as real >= 0.0 <==> (diff >= 0 && first > 0) || (diff <= 0 && first < 0)
  {
    var q := diff as real / first as real;
    assert q * first as real == diff as real;
    if q >= 0.0 && first > 0 { assert q * first as real >= 0.0; }
    if q >= 0.0 && first < 0 { assert q * first as real <= 0.0; }
    if q < 0.0 && first > 0 { assert q * first as real < 0.0; }
    if q < 0.0 && first < 0 { assert q * first as real > 0.0; }
  }

  lemma MultipleGrows(d: nat, k: int)
    requires d > 0 && k != 0
    ensures d * k >= d || d * k < 0
  {
    if k >= 1 { assert d * k >= d * 1; } else { assert d * k <= d * -1; }
  }

  lemma NoRemainder(m: nat, d: nat)
    requires d > 0
    ensures m % d == 0 ==> exists n: nat :: Term(d, 0, n) == m
    ensures forall n: nat :: Term(d, 0, n) == m ==> m % d == 0
  {
    var q := m / d;
    assert m == d * q + m % d;
    if m % d == 0 {
      assert Term(d, 0, q) == m;
    }
    forall n: nat | Term(d, 0, n) == m ensures m % d == 0 {
      assert d * (n - q) == d * n - d * q;
      if n != q { MultipleGrows(d, n - q); }
    }
  }

  lemma AcceptedIsTerm(index: int, first: int, last: int)
    requires first != 0 && Accepts(index - last, first)
    ensures OnProgression(index, first, last)
  {
    var diff := index - last;
    QuotientSign(diff, first);
    NoRemainder(AbsInt(diff), AbsInt(first));
    var n: nat :| Term(AbsInt(first), 0, n) == AbsInt(diff);
    assert diff == first * n;
    assert Term(first, last, n) == index;
  }

  lemma TermIsAccepted(first: int, last: int, n: nat)
    requires first != 0
    ensures Accepts(Term(first, last, n) - last, first)
  {
    var diff := Term(first, last, n) - last;
    assert diff == first * n && Term(AbsInt(first), 0, n) == AbsInt(diff);
    QuotientSign(diff, first);
    NoRemainder(AbsInt(diff), AbsInt(first));
  }

  /** The truncating test decides membership in the progression, whatever the signs. */
  lemma AcceptsProgression(index: int, first: int, last: int)
    ensures Accepts(index - last, first) <==> OnProgression(index, first, last)
  {
    if first == 0 {
      assert Term(first, last, 0) == last;
    } else {
      if Accepts(index - last, first) { AcceptedIsTerm(index, first, last); }
      if n: nat :| index == Term(first, last, n) { TermIsAccepted(first, last, n); }
    }
  }

  // ----- positions and the cache

  /** How many of the children `0, .., k - 1` of the node at `base` are elements. */
  ghost function ElementsBefore(doc: Document, base: Address, k: nat): nat {
    if k == 0 then 0
    else ElementsBefore(doc, base, k - 1) +
         (if base + [k - 1] in doc.at && doc.at[base + [k - 1]].nodeType == 1 then 1 else 0)
  }

  /** The 1-based position of `n` among the elements under its parent. */
  ghost function Position(doc: Document, n: Node): nat
    requires n in doc.path && doc.path[n] != []
  {
    var p := doc.path[n];
    ElementsBefore(doc, Up(p), p[|p| - 1]) + 1
  }

  /** Where a parent carries the mark of `pass`, its children carry their true positions. */
  ghost predicate Sound(doc: Document, pass: int)
    requires doc.Valid()
    reads doc.path.Keys
  {
    forall n <- doc.path :: n.nodeType == 1 && doc.path[n] != [] && Up(doc.path[n]) in doc.at
                            && doc.at[Up(doc.path[n])].sizcache == pass ==>
      n.nodeIndex == Position(doc, n)
  }

  /** `n` is one of the first `k` children of `parent`. */
  ghost predicate IsChild(doc: Document, parent: Node, n: Node, k: nat)
    requires parent in doc.path && n in doc.path
  {
    var p := doc.path[n];
    p != [] && Up(p) == doc.path[parent] && p[|p| - 1] < k
  }

  /** How many nodes are not among the first `k` children of `parent`. */
  ghost function Others(doc: Document, parent: Node, k: nat): nat
    requires parent in doc.path
  {
    |set n <- doc.path | !IsChild(doc, parent, n, k)|
  }

  lemma NextChild(doc: Document, parent: Node, k: nat)
    requires doc.Valid() && parent in doc.path
    ensures doc.path[parent] + [k] in doc.at ==>
              forall n <- doc.path :: IsChild(doc, parent, n, k + 1) <==>
                IsChild(doc, parent, n, k) || n == doc.at[doc.path[parent] + [k]]
    ensures doc.path[parent] + [k] in doc.at ==> Others(doc, parent, k + 1) < Others(doc, parent, k)
    ensures doc.path[parent] + [k] !in doc.at ==>
              forall n <- doc.path :: IsChild(doc, parent, n, k) <==> doc.Parent(n) == parent
  {
    var c := doc.path[parent] + [k];
    if c in doc.at {
      forall n | n in doc.path && IsChild(doc, parent, n, k + 1) && !IsChild(doc, parent, n, k)
        ensures n == doc.at[c]
      {
        assert doc.path[n] == Up(doc.path[n]) + [k];
      }
      assert Up(c) == doc.path[parent];
      assert (set n <- doc.path | !IsChild(doc, parent, n, k + 1))
          == (set n <- doc.path | !IsChild(doc, parent, n, k)) - {doc.at[c]};
    } else {
      forall n | n in doc.path && doc.Parent(n) == parent ensures IsChild(doc, parent, n, k) {
        var p := doc.path[n];
        if p[|p| - 1] >= k { EarlierSiblingIn(doc, p, k); }
      }
    }
  }

  /** `node` is child `k` of `parent`, null past the last child. */
  ghost predicate Holds(doc: Document, parent: Node, k: nat, node: Node?)
    requires parent in doc.path
  {
    if node == null then doc.path[parent] + [k] !in doc.at
    else node in doc.path && doc.path[node] == doc.path[parent] + [k]
  }

  lemma ChildAt(doc: Document, parent: Node, k: nat, node: Node)
    requires doc.Valid() && parent in doc.path && node in doc.path && doc.path[node] == doc.path[parent] + [k]
    ensures Holds(doc, parent, k + 1, doc.Next(node))
    ensures Position(doc, node) == ElementsBefore(doc, doc.path[parent], k) + 1
    ensures Others(doc, parent, k + 1) < Others(doc, parent, k)
  {
    NextChild(doc, parent, k);
    assert Up(doc.path[node]) == doc.path[parent] && Right(doc.path[node]) == doc.path[parent] + [k + 1];
  }

  /** The first `k` children of `parent` carry their positions, all other nodes what they had. */
  ghost predicate Numbered(doc: Document, parent: Node, k: nat, before: map<Node, nat>)
    requires doc.Valid() && parent in doc.path && before.Keys == doc.path.Keys
    reads doc.path.Keys
  {
    forall n <- doc.path :: n.nodeIndex ==
      if n.nodeType == 1 && IsChild(doc, parent, n, k) then Position(doc, n) else before[n]
  }

  lemma AllNumbered(doc: Document, parent: Node, k: nat, before: map<Node, nat>)
    requires doc.Valid() && parent in doc.path && before.Keys == doc.path.Keys
    requires doc.path[parent] + [k] !in doc.at && Numbered(doc, parent, k, before)
    ensures forall n <- doc.path :: n.nodeIndex ==
              if n.nodeType == 1 && doc.Parent(n) == parent then Position(doc, n) else before[n]
  {
    NextChild(doc, parent, k);
  }

  /** One turn of the numbering loop, at child `k`. */
  method NumberChild(doc: Document, ghost parent: Node, node: Node, ghost k: nat, count: nat,
                     ghost before: map<Node, nat>) returns (next: nat)
    requires doc.Valid() && parent in doc.path && node in doc.path && before.Keys == doc.path.Keys
    requires doc.path[node] == doc.path[parent] + [k] && count == ElementsBefore(doc, doc.path[parent], k)
    requires Numbered(doc, parent, k, before)
    modifies node`nodeIndex
    ensures Numbered(doc, parent, k + 1, before) && next == ElementsBefore(doc, doc.path[parent], k + 1)
  {
    NextChild(doc, parent, k);
    ChildAt(doc, parent, k, node);
    next := count;
    if node.nodeType == 1 {
      next := count + 1;
      node.nodeIndex := next;
    }
  }

  ghost function Indices(doc: Document): map<Node, nat>
    reads doc.path.Keys
  {
    map n <- doc.path :: n.nodeIndex
  }

  /** Number the element children of `parent`. */
  method Number(doc: Document, parent: Node) returns (ghost k: nat)
    requires doc.Valid() && parent in doc.path
    modifies doc.path.Keys`nodeIndex
    ensures doc.path[parent] + [k] !in doc.at && Numbered(doc, parent, k, old(Indices(doc)))
  {
    ghost var before := Indices(doc);
    assert Numbered(doc, parent, 0, before);
    hide Position, IsChild, Others, Numbered;
    var count := 0;
    k := 0;
    var node := doc.FirstChild(parent);
    while node != null
      invariant Holds(doc, parent, k, node)
      invariant count == ElementsBefore(doc, doc.path[parent], k)
      invariant Numbered(doc, parent, k, before)
      decreases Others(doc, parent, k)
    {
      ChildAt(doc, parent, k, node);
      count := NumberChild(doc, parent, node, k, count, before);
      k := k + 1;
      node := doc.Next(node);
    }
  }

  /** A node without a parent never gets a position. */
  ghost predicate RootsBare(doc: Document)
    reads doc.path.Keys
  {
    forall n <- doc.path :: doc.path[n] == [] ==> n.nodeIndex == 0
  }

  /** What `:nth-child` means: the position is on the progression. Without a parent only `n` alone matches. */
  ghost predicate Keeps(doc: Document, elem: Node, first: int, last: int)
    requires elem in doc.path
  {
    if doc.path[elem] == [] then first == 1 && last == 0 else OnProgression(Position(doc, elem), first, last)
  }

  /** The `nth` test at `elem` in the filter pass `doneName`. Any number of passes may be open. */
  method Nth(doc: Document, elem: Node, first: int, last: int, doneName: int) returns (keep: bool)
    requires doc.Valid() && elem in doc.path && elem.nodeType == 1 && Sound(doc, doneName)
    requires RootsBare(doc)
    modifies doc.path.Keys
    ensures keep <==> Keeps(doc, elem, first, last)
    ensures RootsBare(doc) && forall pass: int :: old(Sound(doc, pass)) ==> Sound(doc, pass)
    ensures forall n <- doc.path :: n.sizcache == old(n.sizcache) || (n.sizcache == doneName && n == doc.Parent(elem))
    ensures !(first == 1 && last == 0) && doc.Parent(elem) != null ==> doc.Parent(elem).sizcache == doneName
  {
    if first == 1 && last == 0 {
      assert doc.path[elem] != [] ==> Position(doc, elem) == Term(first, last, Position(doc, elem));
      return true;
    }
    var parent := doc.Parent(elem);
    if parent != null && (parent.sizcache != doneName || elem.nodeIndex == 0) {
      ghost var before := Indices(doc);
      ghost var k := Number(doc, parent);
      AllNumbered(doc, parent, k, before);
      parent.sizcache := doneName;
    }
    if elem.nodeIndex == 0 {
      return false; // no position: the arithmetic on `undefined` gives no number
    }
    var diff := elem.nodeIndex - last;
    AcceptsProgression(elem.nodeIndex, first, last);
    if first == 0 {
      keep := diff == 0;
    } else {
      keep := JsRemainder(diff, first) == 0 && diff as real / first as real >= 0.0;
    }
  }
}
