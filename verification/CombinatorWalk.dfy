/** The descendant and general-sibling combinators of jquery.js: `dirCheck` and
    `dirNodeCheck` walk from every entry of the check set towards the root (or towards
    the first sibling), marking what they pass so that later entries stop early. */
module CombinatorWalk {
  import opened Dom
  import opened NthChild

  /** An entry of a check set: `false`, `true`, or a node. */
  datatype Entry = No | Yes | Elem(node: Node)

  /** What the combinator looks for: a tag name, one given node, or any other selector. */
  datatype Part =
    | Tag(name: string)
    | Identity(target: Node)
    | Selector(test: Node -> bool)

  /** What `match` becomes at node `n`, `No` when `n` is not a hit. */
  function Hit(part: Part, n: Node): Entry {
    match part
    case Tag(name) => if n.nodeName == name then Elem(n) else No
    case Identity(target) => if n.nodeType == 1 && n == target then Yes else No
    case Selector(test) => if n.nodeType == 1 && test(n) then Elem(n) else No
  }

  /** A hit is an element that passes, or any node of the tag name; it is answered by the node, but by `true` for a node that
      was asked for itself. */
  lemma HitMeans(part: Part, n: Node)
    ensures Hit(part, n) == No <==> match part
                                    case Tag(name) => n.nodeName != name
                                    case Identity(target) => n.nodeType != 1 || n != target
                                    case Selector(test) => n.nodeType != 1 || !test(n)
    ensures Hit(part, n) != No ==> Hit(part, n) == if part.Identity? then Yes else Elem(n)
  {
  }

  /** The cache-free search: the first hit at `n` or beyond it in direction `dir`. */
  ghost function Nearest(doc: Document, dir: Direction, part: Part, n: Node?): (r: Entry)
    requires doc.Valid() && (n == null || n in doc.path)
    ensures r.Elem? ==> r.node in doc.path
    decreases doc.Rank(dir, n)
  {
    if n == null then No
    else if Hit(part, n) != No then Hit(part, n)
    else
      doc.StepClimbs(dir, n);
      Nearest(doc, dir, part, doc.Step(dir, n))
  }

  /** `elem[dir]` for a check-set entry: `true` has no such property. */
  function Start(doc: Document, dir: Direction, e: Entry): (r: Node?)
    requires doc.Valid() && (e.Elem? ==> e.node in doc.path)
    ensures r != null ==> r in doc.path
  {
    if e.Elem? then doc.StepClimbs(dir, e.node); doc.Step(dir, e.node) else null
  }

  /** What the combinator owes for the check-set entry `e`: `true` has no `dir` property,
      a node is searched for strictly beyond itself. */
  ghost function Expected(doc: Document, dir: Direction, part: Part, e: Entry): Entry
    requires doc.Valid() && (e.Elem? ==> e.node in doc.path)
  {
    Nearest(doc, dir, part, Start(doc, dir, e))
  }

  /** The node `k` steps away from `n`, null once the walk has left the tree. */
  ghost function Far(doc: Document, dir: Direction, n: Node?, k: nat): (r: Node?)
    requires doc.Valid() && (n == null || n in doc.path)
    ensures r != null ==> r in doc.path
  {
    if n == null || k == 0 then n else
      doc.StepClimbs(dir, n);
      Far(doc, dir, doc.Step(dir, n), k - 1)
  }

  /** Nothing that the combinator looks for sits `k` steps from `n`. */
  ghost predicate MissAt(doc: Document, dir: Direction, part: Part, n: Node?, k: nat)
    requires doc.Valid() && (n == null || n in doc.path)
  {
    var f := Far(doc, dir, n, k);
    f == null || Hit(part, f) == No
  }

  /** The search result is the hit at the least number of steps, and `No` exactly when
      no number of steps reaches a hit. */
  lemma {:induction false} NearestIsLeast(doc: Document, dir: Direction, part: Part, n: Node?)
    requires doc.Valid() && (n == null || n in doc.path)
    ensures Nearest(doc, dir, part, n) == No <==> forall k: nat :: MissAt(doc, dir, part, n, k)
    ensures Nearest(doc, dir, part, n) != No ==>
              exists k: nat ::
                && !MissAt(doc, dir, part, n, k)
                && Nearest(doc, dir, part, n) == Hit(part, Far(doc, dir, n, k))
                && forall j: nat :: j < k ==> MissAt(doc, dir, part, n, j)
    decreases doc.Rank(dir, n)
  {
    hide Hit;
    if n == null {
    } else if Hit(part, n) != No {
      assert !MissAt(doc, dir, part, n, 0);
    } else {
      doc.StepClimbs(dir, n);
      var s := doc.Step(dir, n);
      NearestIsLeast(doc, dir, part, s);
      assert forall k: nat {:trigger MissAt(doc, dir, part, n, k)} ::
          k > 0 ==> MissAt(doc, dir, part, n, k) == MissAt(doc, dir, part, s, k - 1);
      if Nearest(doc, dir, part, s) != No {
        var k: nat :| && !MissAt(doc, dir, part, s, k)
                      && Nearest(doc, dir, part, s) == Hit(part, Far(doc, dir, s, k))
                      && forall j: nat :: j < k ==> MissAt(doc, dir, part, s, j);
        assert !MissAt(doc, dir, part, n, k + 1);
      }
    }
  }

  /** The marks of pass `pass` name finished entries that hold the right answer. */
  ghost predicate MarksAgree(doc: Document, dir: Direction, part: Part, pass: int, checkSet: array<Entry>, done: nat)
    requires doc.Valid()
    reads doc.path.Keys, checkSet
  {
    done <= checkSet.Length &&
    forall n <- doc.path :: n.sizcache == pass ==>
      n.sizset < done && checkSet[n.sizset] == Nearest(doc, dir, part, n)
  }

  /** The marks left by the walk of entry `i` that has come as far as `cur`. */
  ghost predicate MarksDuringWalk(doc: Document, dir: Direction, part: Part, pass: int,
                                  checkSet: array<Entry>, i: nat, cur: Node?)
    requires doc.Valid() && (cur == null || cur in doc.path)
    reads doc.path.Keys, checkSet
  {
    i <= checkSet.Length &&
    forall n <- doc.path :: n.sizcache == pass ==>
      if n.sizset == i
      then doc.Rank(dir, cur) < doc.Rank(dir, n) && Nearest(doc, dir, part, n) == Nearest(doc, dir, part, cur)
      else n.sizset < i && checkSet[n.sizset] == Nearest(doc, dir, part, n)
  }

  /** The marks left by the walk of entry `i` up to and including `cur`. */
  ghost predicate MarksVisited(doc: Document, dir: Direction, part: Part, pass: int,
                               checkSet: array<Entry>, i: nat, cur: Node)
    requires doc.Valid() && cur in doc.path
    reads doc.path.Keys, checkSet
  {
    i <= checkSet.Length &&
    forall n <- doc.path :: n.sizcache == pass ==>
      if n.sizset == i
      then doc.Rank(dir, cur) <= doc.Rank(dir, n) && Nearest(doc, dir, part, n) == Nearest(doc, dir, part, cur)
      else n.sizset < i && checkSet[n.sizset] == Nearest(doc, dir, part, n)
  }

  lemma VisitedStep(doc: Document, dir: Direction, part: Part, pass: int,
                    checkSet: array<Entry>, i: nat, cur: Node)
    requires doc.Valid() && cur in doc.path && MarksVisited(doc, dir, part, pass, checkSet, i, cur)
    ensures doc.Step(dir, cur) != null ==> doc.Step(dir, cur) in doc.path
    ensures doc.Rank(dir, doc.Step(dir, cur)) < doc.Rank(dir, cur)
    ensures if Hit(part, cur) == No
            then MarksDuringWalk(doc, dir, part, pass, checkSet, i, doc.Step(dir, cur))
            else MarksSettled(doc, dir, part, pass, checkSet, i, Hit(part, cur))
  {
    doc.StepClimbs(dir, cur);
    assert Nearest(doc, dir, part, cur) ==
           if Hit(part, cur) == No then Nearest(doc, dir, part, doc.Step(dir, cur)) else Hit(part, cur);
  }

  /** The marks once the walk of entry `i` has ended with `found`. */
  ghost predicate MarksSettled(doc: Document, dir: Direction, part: Part, pass: int,
                               checkSet: array<Entry>, i: nat, found: Entry)
    requires doc.Valid()
    reads doc.path.Keys, checkSet
  {
    i <= checkSet.Length &&
    forall n <- doc.path :: n.sizcache == pass ==>
      if n.sizset == i
      then Nearest(doc, dir, part, n) == found
      else n.sizset < i && checkSet[n.sizset] == Nearest(doc, dir, part, n)
  }

  /** What the combinator owes for the entry `e`: of a node, the hit at the least number of steps, but at least one, in
      direction `dir`, and `false` exactly if no number of steps reaches a hit; of anything else, `false`. */
  ghost predicate Owed(doc: Document, dir: Direction, part: Part, e: Entry, found: Entry)
    requires doc.Valid() && (e.Elem? ==> e.node in doc.path)
  {
    match e
    case Elem(n) =>
      && (found == No <==> forall k: nat :: k >= 1 ==> MissAt(doc, dir, part, n, k))
      && (found != No ==> exists k: nat :: HitFirstAt(doc, dir, part, n, k, found))
    case _ => found == No
  }

  /** `found` sits `k` steps from `n`, and nothing that the combinator looks for is closer, `n` itself not counted. */
  ghost predicate HitFirstAt(doc: Document, dir: Direction, part: Part, n: Node, k: nat, found: Entry)
    requires doc.Valid() && n in doc.path
  {
    && k >= 1 && !MissAt(doc, dir, part, n, k) && found == (if part.Identity? then Yes else Elem(Far(doc, dir, n, k)))
    && forall j: nat :: 1 <= j < k ==> MissAt(doc, dir, part, n, j)
  }

  lemma FarStep(doc: Document, dir: Direction, part: Part, n: Node, k: nat)
    requires doc.Valid() && n in doc.path && k >= 1
    ensures doc.Step(dir, n) != null ==> doc.Step(dir, n) in doc.path
    ensures Far(doc, dir, n, k) == Far(doc, dir, doc.Step(dir, n), k - 1)
    ensures MissAt(doc, dir, part, n, k) == MissAt(doc, dir, part, doc.Step(dir, n), k - 1)
  {
    doc.StepClimbs(dir, n);
  }

  lemma HitAt(doc: Document, dir: Direction, part: Part, n: Node?, k: nat)
    requires doc.Valid() && (n == null || n in doc.path) && !MissAt(doc, dir, part, n, k)
    ensures Far(doc, dir, n, k) != null
    ensures Hit(part, Far(doc, dir, n, k)) == if part.Identity? then Yes else Elem(Far(doc, dir, n, k))
  {
    HitMeans(part, Far(doc, dir, n, k));
  }

  /** The search that begins one step away finds what is owed. */
  lemma ExpectedIsOwed(doc: Document, dir: Direction, part: Part, e: Entry)
    requires doc.Valid() && (e.Elem? ==> e.node in doc.path)
    ensures Owed(doc, dir, part, e, Expected(doc, dir, part, e))
  {
    if e.Elem? {
      var n, s, found := e.node, doc.Step(dir, e.node), Expected(doc, dir, part, e);
      doc.StepClimbs(dir, n);
      NearestIsLeast(doc, dir, part, s);
      assert found == Nearest(doc, dir, part, s);
      hide Nearest, Expected, MissAt, Far, Hit;
      forall k: nat | k >= 1
        ensures MissAt(doc, dir, part, n, k) == MissAt(doc, dir, part, s, k - 1)
        ensures Far(doc, dir, n, k) == Far(doc, dir, s, k - 1)
      {
        FarStep(doc, dir, part, n, k);
      }
      if found == No {
        assert forall k: nat :: k >= 1 ==> MissAt(doc, dir, part, n, k);
      } else {
        var k: nat :| && !MissAt(doc, dir, part, s, k) && found == Hit(part, Far(doc, dir, s, k))
                      && forall j: nat :: j < k ==> MissAt(doc, dir, part, s, j);
        HitAt(doc, dir, part, s, k);
        assert !MissAt(doc, dir, part, n, k + 1);
        assert HitFirstAt(doc, dir, part, n, k + 1, found);
      }
    }
  }

  /** Where `k` steps lead: `k` levels up, or `k` places to the left. */
  lemma {:induction false} FarIs(doc: Document, dir: Direction, n: Node, k: nat)
    requires doc.Valid() && n in doc.path
    ensures var p := doc.path[n];
            match dir
            case ParentNode =>
              if k <= |p| then p[..|p| - k] in doc.at && Far(doc, dir, n, k) == doc.at[p[..|p| - k]] else Far(doc, dir, n, k) == null
            case PreviousSibling =>
              if k == 0 then Far(doc, dir, n, k) == n
              else if p == [] || k > p[|p| - 1] then Far(doc, dir, n, k) == null
              else Up(p) + [p[|p| - 1] - k] in doc.at && Far(doc, dir, n, k) == doc.at[Up(p) + [p[|p| - 1] - k]]
    decreases k
  {
    var p := doc.path[n];
    if k == 0 {
      assert p[..|p|] == p;
    } else {
      doc.StepClimbs(dir, n);
      var s := doc.Step(dir, n);
      if s != null {
        FarIs(doc, dir, s, k - 1);
        if dir == ParentNode {
          assert k <= |p| ==> Up(p)[..|p| - k] == p[..|p| - k];
        } else {
          assert Up(doc.path[s]) == Up(p);
          assert k == 1 ==> Up(p) + [p[|p| - 1] - k] == Left(p);
        }
      }
    }
  }

  /** Entry by entry, `after` is what the combinator owes for `before`. */
  ghost predicate AllOwed(doc: Document, dir: Direction, part: Part, before: seq<Entry>, after: seq<Entry>)
    requires doc.Valid()
  {
    && |before| == |after| && EntriesIn(doc, before)
    && forall i :: 0 <= i < |after| ==> Owed(doc, dir, part, before[i], after[i])
  }

  ghost predicate EntriesIn(doc: Document, entries: seq<Entry>) {
    forall e <- entries :: e.Elem? ==> e.node in doc.path
  }

  class Sizzle {
    const doc: Document
    var done: nat  // the next pass id

    /** Every mark in the document was left by an earlier pass. */
    ghost predicate Valid()
      reads this, doc.path.Keys
    {
      doc.Valid() && RootsBare(doc) && forall n <- doc.path :: n.sizcache < done
    }

    constructor (doc: Document)
      requires doc.Valid() && forall n <- doc.path :: n.sizcache < 0 && n.nodeIndex == 0
      ensures Valid() && this.doc == doc && done == 0
    {
      this.doc, done := doc, 0;
    }

    /** What a nested pass does at one node: leave its mark, or number the children first. */
    method Nested(n: Node, id: nat, index: nat, numbers: bool)
      requires Valid() && n in doc.path && id < done
      modifies doc.path.Keys
      ensures Valid()
      ensures forall m <- doc.path :: m.sizcache != id ==> m.sizcache == old(m.sizcache) && m.sizset == old(m.sizset)
      ensures forall pass: int :: pass != id && old(Sound(doc, pass)) ==> Sound(doc, pass)
    {
      ghost var before := Indices(doc);
      if numbers {
        ghost var k := Number(doc, n);
        AllNumbered(doc, n, k, before);
      } else {
        n.sizset := index;
      }
      n.sizcache := id;
    }

    /** `Sizzle.filter( cur, [elem] )`: its answer is `test(elem)`. Evaluating the selector may
        itself run any passes of its own, which leave marks and number children, each under a fresh id. */
    method Filter(test: Node -> bool, elem: Node) returns (keep: bool)
      requires Valid() && elem in doc.path
      modifies `done, doc.path.Keys
      ensures Valid() && old(done) <= done && keep == test(elem)
      ensures forall n <- doc.path :: n.sizcache < old(done) ==> n.sizcache == old(n.sizcache) && n.sizset == old(n.sizset)
      ensures forall pass: int :: pass < old(done) && old(Sound(doc, pass)) ==> Sound(doc, pass)
    {
      hide Sound;
      var entry := done;
      var visits: nat :| visits >= 0;
      for i := 0 to visits
        invariant Valid() && old(done) <= done
        invariant forall n <- doc.path :: n.sizcache < old(done) ==> n.sizcache == old(n.sizcache) && n.sizset == old(n.sizset)
        invariant forall pass: int :: pass < old(done) && old(Sound(doc, pass)) ==> Sound(doc, pass)
      {
        var more: nat :| more > 0;
        done := done + more;
        var back: nat :| back < done - entry;
        var n: Node, index: nat, numbers: bool :| n in doc.path;
        var id := done - 1 - back;
        Nested(n, id, index, numbers);
      }
      keep := test(elem);
    }

    /** What `dirCheck` finds at the element `elem`. */
    method Test(part: Part, elem: Node) returns (hit: Entry)
      requires Valid() && !part.Tag? && elem in doc.path && elem.nodeType == 1
      modifies `done, doc.path.Keys
      ensures Valid() && old(done) <= done && hit == Hit(part, elem)
      ensures forall n <- doc.path :: n.sizcache < old(done) ==> n.sizcache == old(n.sizcache) && n.sizset == old(n.sizset)
      ensures forall pass: int :: pass < old(done) && old(Sound(doc, pass)) ==> Sound(doc, pass)
    {
      hide Sound;
      if part.Identity? {
        hit := if elem == part.target then Yes else No;
      } else {
        var keep := Filter(part.test, elem);
        hit := if keep then Elem(elem) else No;
      }
    }

    method Mark(dir: Direction, ghost part: Part, doneName: nat, ghost checkSet: array<Entry>, i: nat,
                elem: Node, isXML: bool)
      requires Valid() && doneName < done && elem in doc.path && elem.sizcache != doneName
      requires MarksDuringWalk(doc, dir, part, doneName, checkSet, i, elem)
      modifies elem
      ensures Valid() && MarksVisited(doc, dir, part, doneName, checkSet, i, elem)
      ensures if elem.nodeType == 1 && !isXML then elem.sizcache == doneName && elem.sizset == i else unchanged(elem)
      ensures forall pass: int :: pass != doneName && old(Sound(doc, pass)) ==> Sound(doc, pass)
    {
      if elem.nodeType == 1 && !isXML {
        elem.sizcache, elem.sizset := doneName, i;
      }
    }

    /** One turn of the inner loop of `dirCheck` or `dirNodeCheck` for entry `i`, at a node that
        this pass has not marked: mark it, then test it. */
    method Visit(dir: Direction, part: Part, doneName: nat, checkSet: array<Entry>, i: nat,
                 elem: Node, isXML: bool) returns (hit: Entry)
      requires Valid() && doneName < done && elem in doc.path && elem.sizcache != doneName
      requires MarksDuringWalk(doc, dir, part, doneName, checkSet, i, elem)
      modifies `done, doc.path.Keys
      ensures Valid() && old(done) <= done && hit == Hit(part, elem)
      ensures doc.Step(dir, elem) != null ==> doc.Step(dir, elem) in doc.path
      ensures doc.Rank(dir, doc.Step(dir, elem)) < doc.Rank(dir, elem)
      ensures if hit == No
              then MarksDuringWalk(doc, dir, part, doneName, checkSet, i, doc.Step(dir, elem))
              else MarksSettled(doc, dir, part, doneName, checkSet, i, hit)
      ensures forall pass: int :: pass < old(done) && pass != doneName && old(Sound(doc, pass)) ==> Sound(doc, pass)
    {
      hide Sound;
      hit := No;
      Mark(dir, part, doneName, checkSet, i, elem, isXML);
      if part.Tag? {
        hit := if elem.nodeName == part.name then Elem(elem) else No;
      } else if elem.nodeType == 1 {
        hit := Test(part, elem);
      }
      VisitedStep(doc, dir, part, doneName, checkSet, i, elem);
    }

    /** The inner loop for entry `i`, started at `start`. */
    method Walk(dir: Direction, part: Part, doneName: nat, checkSet: array<Entry>, i: nat,
                start: Node?, isXML: bool) returns (found: Entry)
      requires Valid() && doneName < done && (start == null || start in doc.path)
      requires i < checkSet.Length && MarksAgree(doc, dir, part, doneName, checkSet, i)
      modifies `done, doc.path.Keys
      ensures Valid() && old(done) <= done && found == Nearest(doc, dir, part, start)
      ensures MarksSettled(doc, dir, part, doneName, checkSet, i, found)
      ensures forall pass: int :: pass < old(done) && pass != doneName && old(Sound(doc, pass)) ==> Sound(doc, pass)
    {
      hide Sound;
      var elem := start;
      while elem != null
        invariant elem == null || elem in doc.path
        invariant Nearest(doc, dir, part, elem) == Nearest(doc, dir, part, start)
        invariant MarksDuringWalk(doc, dir, part, doneName, checkSet, i, elem)
        invariant Valid() && old(done) <= done
        invariant forall pass: int :: pass < old(done) && pass != doneName && old(Sound(doc, pass)) ==> Sound(doc, pass)
        decreases doc.Rank(dir, elem)
      {
        if elem.sizcache == doneName {
          return checkSet[elem.sizset];
        }
        var hit := Visit(dir, part, doneName, checkSet, i, elem, isXML);
        if hit != No {
          return hit;
        }
        elem := doc.Step(dir, elem);
      }
      found := No;
    }

    /** Entry `i` of the check set: `false` stays, anything else becomes what the search finds. */
    method CheckEntry(dir: Direction, part: Part, doneName: nat, checkSet: array<Entry>, i: nat, isXML: bool)
      requires Valid() && doneName < done && i < checkSet.Length && MarksAgree(doc, dir, part, doneName, checkSet, i)
      requires checkSet[i].Elem? ==> checkSet[i].node in doc.path
      modifies `done, checkSet, doc.path.Keys
      ensures Valid() && old(done) <= done && MarksAgree(doc, dir, part, doneName, checkSet, i + 1)
      ensures Owed(doc, dir, part, old(checkSet[i]), checkSet[i]) && checkSet[..] == old(checkSet[..])[i := checkSet[i]]
      ensures forall pass: int :: pass < old(done) && pass != doneName && old(Sound(doc, pass)) ==> Sound(doc, pass)
    {
      var elem := checkSet[i];
      ExpectedIsOwed(doc, dir, part, elem);
      assert Nearest(doc, dir, part, null) == No;
      hide Sound, Nearest, Owed, Expected, Hit;
      if elem != No {
        var start := Start(doc, dir, elem);
        checkSet[i] := Walk(dir, part, doneName, checkSet, i, start, isXML);
      }
    }

    /** `dirCheck`, and for a tag name `dirNodeCheck`: the two differ only in how a node is tested. */
    method DirCheck(dir: Direction, part: Part, doneName: nat, checkSet: array<Entry>, isXML: bool)
      requires Valid() && doneName < done && EntriesIn(doc, checkSet[..])
      requires forall n <- doc.path :: n.sizcache != doneName
      modifies `done, checkSet, doc.path.Keys
      ensures Valid() && old(done) <= done && AllOwed(doc, dir, part, old(checkSet[..]), checkSet[..])
      ensures forall pass: int :: pass < old(done) && pass != doneName && old(Sound(doc, pass)) ==> Sound(doc, pass)
    {
      ghost var entries := checkSet[..];
      assert MarksAgree(doc, dir, part, doneName, checkSet, 0);
      hide Sound, Owed, MarksAgree;
      for i := 0 to checkSet.Length
        invariant AllOwed(doc, dir, part, entries[..i], checkSet[..i]) && checkSet[i..] == entries[i..]
        invariant MarksAgree(doc, dir, part, doneName, checkSet, i)
        invariant Valid() && old(done) <= done
        invariant forall pass: int :: pass < old(done) && pass != doneName && old(Sound(doc, pass)) ==> Sound(doc, pass)
      {
        assert checkSet[i] == entries[i];
        CheckEntry(dir, part, doneName, checkSet, i, isXML);
      }
      assert checkSet[..checkSet.Length] == checkSet[..] && entries[..checkSet.Length] == entries;
    }

    /** `Expr.relative[""]` with `dir` the parent and `Expr.relative["~"]` with `dir` the previous
        sibling: the pass id is fresh because every mark is below the counter. */
    method Relative(dir: Direction, part: Part, checkSet: array<Entry>, isXML: bool)
      requires Valid() && EntriesIn(doc, checkSet[..])
      modifies `done, checkSet, doc.path.Keys
      ensures Valid() && old(done) < done
      ensures AllOwed(doc, dir, part, old(checkSet[..]), checkSet[..])
      ensures EntriesIn(doc, checkSet[..])
      ensures forall pass: int :: pass < old(done) && old(Sound(doc, pass)) ==> Sound(doc, pass)
    {
      hide Sound;
      var doneName := done;
      done := done + 1;
      DirCheck(dir, part, doneName, checkSet, isXML);
    }
  }
}
