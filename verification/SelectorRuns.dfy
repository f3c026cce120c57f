/** Runs of the selector engine: filters are opened, their `nth` tests and the combinators are called in any order,
    all on the marks that the others left. */
module SelectorRuns {
  import opened Dom
  import opened NthChild
  import opened CombinatorWalk

  /** A `:nth-child` filter is parsed, one parsed earlier is tried at an element, or a combinator is applied. */
  datatype Call =
    | Parse(first: int, last: int)
    | Try(filter: nat, elem: Node)
    | Combine(dir: Direction, part: Part, entries: seq<Entry>, isXML: bool)

  datatype Answer = Opened(id: int) | Kept(keep: bool) | Became(entries: seq<Entry>)

  /** Only filters that were parsed before are tried, on elements of the document. */
  ghost predicate Fits(doc: Document, calls: seq<Call>, i: nat)
    requires i < |calls|
  {
    match calls[i]
    case Parse(_, _) => true
    case Try(filter, elem) => filter < i && calls[filter].Parse? && elem in doc.path && elem.nodeType == 1
    case Combine(_, _, entries, _) => EntriesIn(doc, entries)
  }

  /** The answer to call `i` is what the selector means, whatever was called before. */
  ghost predicate Right(doc: Document, calls: seq<Call>, i: nat, answer: Answer)
    requires doc.Valid() && i < |calls| && Fits(doc, calls, i)
  {
    match calls[i]
    case Parse(_, _) => answer.Opened?
    case Try(filter, elem) => answer.Kept? && (answer.keep <==> Keeps(doc, elem, calls[filter].first, calls[filter].last))
    case Combine(dir, part, entries, _) => answer.Became? && AllOwed(doc, dir, part, entries, answer.entries)
  }

  /** The filters opened so far can still trust the marks that carry their pass ids. */
  ghost predicate Trusted(s: Sizzle, answers: seq<Answer>)
    requires s.Valid()
    reads s, s.doc.path.Keys
  {
    forall a <- answers :: a.Opened? ==> a.id < s.done && Sound(s.doc, a.id)
  }

  method Answered(s: Sizzle, calls: seq<Call>, i: nat, answers: seq<Answer>) returns (answer: Answer)
    requires s.Valid() && i < |calls| && Fits(s.doc, calls, i) && Trusted(s, answers)
    requires |answers| == i && forall j :: 0 <= j < i && calls[j].Parse? ==> answers[j].Opened?
    modifies s`done, s.doc.path.Keys
    ensures s.Valid() && Trusted(s, answers + [answer]) && Right(s.doc, calls, i, answer)
  {
    match calls[i]
    case Parse(_, _) =>
      assert Sound(s.doc, s.done);
      hide Sound;
      answer := Opened(s.done);
      s.done := s.done + 1;
    case Try(filter, elem) =>
      hide Sound, Keeps;
      var keep := Nth(s.doc, elem, calls[filter].first, calls[filter].last, answers[filter].id);
      answer := Kept(keep);
    case Combine(dir, part, entries, isXML) =>
      hide Sound, AllOwed;
      var checkSet := new Entry[|entries|](k requires 0 <= k < |entries| => entries[k]);
      assert checkSet[..] == entries;
      s.Relative(dir, part, checkSet, isXML);
      answer := Became(checkSet[..]);
  }

  /** Any calls in any order, any number of filters being open at once: every answer is the right one. */
  method Run(s: Sizzle, calls: seq<Call>) returns (answers: seq<Answer>)
    requires s.Valid() && forall i :: 0 <= i < |calls| ==> Fits(s.doc, calls, i)
    modifies s`done, s.doc.path.Keys
    ensures s.Valid() && |answers| == |calls|
    ensures forall i :: 0 <= i < |calls| ==> Right(s.doc, calls, i, answers[i])
  {
    answers := [];
    while |answers| < |calls|
      invariant |answers| <= |calls| && s.Valid() && Trusted(s, answers)
      invariant forall i :: 0 <= i < |answers| ==> Right(s.doc, calls, i, answers[i])
    {
      var answer := Answered(s, calls, |answers|, answers);
      answers := answers + [answer];
    }
  }
}
