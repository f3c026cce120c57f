/** The document that the selector engine of jquery.js walks over.
    A node object carries the marks the engine writes on it; the links between
    nodes (parentNode, previousSibling, nextSibling, firstChild) are read off the
    node's address, the list of child positions that leads to it from the root. */
module Dom {

  class Node {
    const nodeType: int     // 1 for an element
    const nodeName: string  // in lower case
    var sizcache: int       // pass that last marked this node, negative before any pass
    var sizset: nat         // index into the checkSet of that pass
    var nodeIndex: nat      // 1-based position among the element siblings, 0 before any pass

    constructor (nodeType: int, nodeName: string)
      ensures this.nodeType == nodeType && this.nodeName == nodeName
      ensures sizcache == -1 && nodeIndex == 0
    {
      this.nodeType, this.nodeName := nodeType, nodeName;
      sizcache, sizset, nodeIndex := -1, 0, 0;
    }
  }

  type Address = seq<nat>

  datatype Direction = ParentNode | PreviousSibling

  datatype Document = Document(path: map<Node, Address>, at: map<Address, Node>) {

    /** The addresses form a tree: with a node come its parent and its earlier siblings. */
    ghost predicate Valid() {
      && (forall n {:trigger path[n]} :: n in path ==> path[n] in at && at[path[n]] == n)
      && (forall p {:trigger at[p]} :: p in at ==> at[p] in path && path[at[p]] == p)
      && (forall p {:trigger Up(p)} :: p in at && p != [] ==> Up(p) in at)
      && (forall p {:trigger Left(p)} :: p in at && p != [] && p[|p| - 1] > 0 ==> Left(p) in at)
    }

    function Nodes(): set<Node> { path.Keys }

    function Lookup(p: Address): (r: Node?) {
      if p in at then at[p] else null
    }

    function Parent(n: Node): (r: Node?)
      requires n in path
    {
      if path[n] == [] then null else Lookup(Up(path[n]))
    }

    function Previous(n: Node): (r: Node?)
      requires n in path
    {
      var p := path[n];
      if p == [] || p[|p| - 1] == 0 then null else Lookup(Left(p))
    }

    function Next(n: Node): (r: Node?)
      requires n in path
    {
      if path[n] == [] then null else Lookup(Right(path[n]))
    }

    function FirstChild(n: Node): (r: Node?)
      requires n in path
    {
      Lookup(path[n] + [0])
    }

    function Step(dir: Direction, n: Node): (r: Node?)
      requires n in path
    {
      match dir
      case ParentNode => Parent(n)
      case PreviousSibling => Previous(n)
    }

    /** How many steps in direction `dir` are left before the walk falls off the tree. */
    ghost function Rank(dir: Direction, n: Node?): nat
      requires n == null || n in path
    {
      if n == null then 0 else
      match dir
      case ParentNode => |path[n]| + 1
      case PreviousSibling => if path[n] == [] then 1 else path[n][|path[n]| - 1] + 1
    }

    lemma StepClimbs(dir: Direction, n: Node)
      requires Valid() && n in path
      ensures Step(dir, n) != null ==> Step(dir, n) in path
      ensures Rank(dir, Step(dir, n)) < Rank(dir, n)
    {
      var p := path[n];
      if dir == PreviousSibling && p != [] && p[|p| - 1] > 0 {
        assert Left(p)[|p| - 1] == p[|p| - 1] - 1;
      }
    }
  }

  function Up(p: Address): Address
    requires p != []
  {
    p[..|p| - 1]
  }

  function Left(p: Address): Address
    requires p != [] && p[|p| - 1] > 0
  {
    p[..|p| - 1] + [p[|p| - 1] - 1]
  }

  function Right(p: Address): Address
    requires p != []
  {
    p[..|p| - 1] + [p[|p| - 1] + 1]
  }

  lemma {:induction false} EarlierSiblingIn(doc: Document, p: Address, k: nat)
    requires doc.Valid() && p in doc.at && p != [] && k <= p[|p| - 1]
    ensures Up(p) + [k] in doc.at
    decreases p[|p| - 1]
  {
    if k == p[|p| - 1] {
      assert Up(p) + [k] == p;
    } else {
      assert Left(p) in doc.at && Up(Left(p)) == Up(p);
      EarlierSiblingIn(doc, Left(p), k);
    }
  }
}
