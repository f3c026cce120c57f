# Plethora verification model

Plethora publishes the metrics of a group of modules: through an SNMP agent with a generated MIB, and as graphs in a web page.
This project models the algorithms behind both and proves what they promise.

- **Selectors** (jquery.js). `Dom.dfy` is the tree that the selector engine walks, with the marks it leaves on nodes.
  `CombinatorWalk.dfy` is the memoised walk of the descendant and sibling combinators, `NthChild.dfy` the `nth-child` filter
  with its cached positions, `SelectorRuns.dfy` any run of the two on the same marks, `DocumentOrder.dfy` the fallback comparator
  and `uniqueSort`.
- **Deferreds** (jquery.js). `DeferredState.dfy` has the state of callback lists, Deferreds and one `when` call and the
  invariants of every reachable state; `DeferredSteps.dfy` shows that each elementary change keeps them; `DeferredCallbacks.dfy`
  says what can be told of callbacks before they run; `Deferred.dfy` is the code, with callbacks that re-enter it and throw;
  `DeferredRuns.dfy` draws the conclusions about all runs.
- **Ajax** (jquery.js). `Prefilters.dfy` is the recursive dispatch of prefilters and transports.
- **Plots** (jquery.flot.js). `Canvas.dfy` is the list of drawing calls; `Clipping.dfy` and `LinePlot.dfy` draw clipped lines,
  `AreaPlot.dfy`, `AreaShape.dfy` and `AreaSeries.dfy` the filled areas; `AxisTicks.dfy` chooses ranges and ticks,
  `NearbyItem.dfy` maps coordinates and finds the item under the mouse.
- **Canvas emulation** (excanvas.js). `Excanvas.dfy` has matrices, saved states and curves.
- **Metrics** (Java). `MetricIndex.dfy` and `SnmpAgent.dfy` answer GET and GETNEXT, `MibEngine.dfy` generates the MIB,
  `NameResolver.dfy` builds and splits full names, `MetricsReader.dfy` reads definitions from a property map.

`Lex.dfy` is the lexicographic order that document order and object identifiers share, `Arithmetic.dfy` has the
arithmetic facts, `Wrappers.dfy` a value that may be missing.

Numbers of the plotting and drawing code are reals: rounding, NaN and infinities are not modelled. Calls into code that is not
part of the repository are parameters: selector tests, filters of the user, `sqrt`, string functions of the Java library. A
user's callback on a deferred is any finite list of calls on deferreds, each with or without a handler for what it throws.

## Where the code falls short

- Exceptions end the firing of a callback list: callbacks after the one that throws stay in the list until the next `done`, and a
  `when` that waits for one of them stays pending (`DeferredRuns.ThrowLeavesUnrun`, `StalledWhen`). Exactly what stands behind
  the callback that threw is left (`LeftBehind`), and the result of `when` is resolved exactly if every promise is and no slot
  callback is among what is left (`WhenByHistory`). Both promises are kept in every run of a program in which, by its text, no
  function throws or makes a call that is not offered (`Session`).
- GETNEXT on identifiers more than two numbers below the metrics root restarts the walk (`SnmpAgent.AdvancesExactly`).
- A metric or module with an empty name makes GET throw and so ends walks early (`SnmpAgent.AnswersExactly`, `WalkVisitsAll`).
- The MIB declares `false(2)`, the agent sends 0 (`MibEngine.SyntaxAgreement`), and sections name their parents by descriptors
  while module lines carry raw names (`MibEngine.ParentLabelResolves`).
- If a number occurs twice among the enterprise's identifiers with two names, the lines for it in the MIB do not say what was
  configured (`MibEngine.ChainAsGiven`).
- Names do not come back if a module has a dot or a metric ends in one (`NameResolver.RoundTrip`).
- A metric with attributes but no value and no definite type stops the reading of the whole file
  (`MetricsReader.DescriptionAlone`; the exact condition is in `ProcessMetricsConfig`).
- On an axis with a transform and no inverse transform the search under the mouse leaves out close points: there is a mouse
  position at which it loses one within the radius exactly if the transform moves a point of an accepted series
  (`NearbyItem.Search.LosesNoneExactly`; `MissesPoint` and `TransformWithoutInverse` are searches that miss it). A comment in the
  search says that `<=` lets the last of several equally close points win; the code has `<`, and the first one wins
  (src/main/resources/web/js/lib/jquery.flot.js:2295-2297).
- Where a range per tick below one is rounded up to the next power of ten, labels show one decimal too many, as in 1.0
  (`AxisTicks.LabelsShow`).
- Between 3 and 3.75 times a power of ten the step of an axis is 5 times that power, not the nearer 2.5
  (`AxisTicks.ChosenIsNearest`).

## Model

| member | source | states |
|---|---|---|
| CombinatorWalk.Sizzle.Relative | src/main/resources/web/js/lib/jquery.js:3715-3741 | The descendant and general-sibling combinators replace every node of the check set by the hit at the least number of steps, at least one, along `dir` from it, and by `false` exactly if no number of steps reaches a hit; `true` and `false` become `false`. This holds for any tree, any check set with repeated entries and any selector; the pass id is new because all marks are below the counter |
| CombinatorWalk.Sizzle.DirCheck | src/main/resources/web/js/lib/jquery.js:4558-4630 | `dirCheck` and `dirNodeCheck`: with a pass id no node carries, marking nodes and reusing `checkSet[sizset]` changes no answer, even if the selector test itself runs other passes that overwrite marks; positions cached by earlier `nth-child` passes stay true wherever they are still trusted |
| CombinatorWalk.Sizzle.CheckEntry | src/main/resources/web/js/lib/jquery.js:4595-4628 | One entry becomes what the combinator owes for it, strictly beyond the node itself; all others are left alone, and the marks tell the truth about the entries up to this one |
| CombinatorWalk.Sizzle.Walk | src/main/resources/web/js/lib/jquery.js:4600-4627 | One inner loop finds the nearest match from its start node and leaves marks that tell the truth about the entries they point to |
| CombinatorWalk.Sizzle.Visit | src/main/resources/web/js/lib/jquery.js:4606-4624 | A node is marked before it is tested; the walk goes on with marks that still agree with the search result it is going to have, and moves strictly towards the end of the tree |
| CombinatorWalk.Sizzle.Mark | src/main/resources/web/js/lib/jquery.js:4606-4610 | An element outside XML gets the pass id and the number of the entry, any other node stays as it is; all marks stay below the counter |
| CombinatorWalk.Sizzle.Filter | src/main/resources/web/js/lib/jquery.js:4618 | Any number of passes run from inside a selector test leave the marks of earlier passes alone or replace them with newer ids, and where they number children the numbers are true |
| CombinatorWalk.Sizzle.Nested | src/main/resources/web/js/lib/jquery.js:4060-4069 | What such a pass does at a node: leave its mark, or number the children first; what any other pass cached there stays true |
| CombinatorWalk.Sizzle.Test | src/main/resources/web/js/lib/jquery.js:4612-4621 | The test gives a match exactly for the node that was asked for, or for a node the selector accepts |
| CombinatorWalk.NearestIsLeast | src/main/resources/web/js/lib/jquery.js:4591-4630 | The search result is the match at the least number of steps; it is `false` exactly if no number of steps reaches a match |
| CombinatorWalk.ExpectedIsOwed | src/main/resources/web/js/lib/jquery.js:4591-4630 | A search that begins one step away from a node finds the hit at the least number of steps from that node, the node itself not counted |
| CombinatorWalk.FarIs | src/main/resources/web/js/lib/jquery.js:4565 | Where `k` steps lead: to the ancestor `k` levels up, or to the sibling `k` places to the left, and out of the tree beyond the root or the first sibling |
| CombinatorWalk.HitMeans | src/main/resources/web/js/lib/jquery.js:4612-4621 | A hit is a node of the tag name, the element asked for, or an element that the selector accepts; it is answered by the node, the second by `true` |
| CombinatorWalk.VisitedStep | src/main/resources/web/js/lib/jquery.js:4624 | Marks that agree with the walk up to a node agree with it one step further, or with its result |
| DocumentOrder.Sorter.SortOrder | src/main/resources/web/js/lib/jquery.js:4209-4262 | The fallback comparator returns -1, 0 or 1 as the first node is before, the same as or after the second one in document order, for any two nodes of one tree, and records a duplicate exactly if they are the same |
| DocumentOrder.Sorter.SiblingCheck | src/main/resources/web/js/lib/jquery.js:4264-4280 | `-1` exactly if the second node is a later sibling of the first; `ret` for the same node |
| DocumentOrder.Sorter.Above | src/main/resources/web/js/lib/jquery.js:4234-4246 | Walking up and unshifting gives the ancestors, root first |
| DocumentOrder.Sorter.WalkDown | src/main/resources/web/js/lib/jquery.js:4248-4261 | Where two ancestor lists part, the siblings there decide; if none parts, the shorter one is an ancestor and comes first |
| DocumentOrder.PartAt | src/main/resources/web/js/lib/jquery.js:4252-4256 | Two nodes are in document order exactly as the siblings are at which their paths from the root part |
| DocumentOrder.SiblingsDecide | src/main/resources/web/js/lib/jquery.js:4222-4224 | Distinct nodes under one parent are in document order exactly as one is a later sibling of the other |
| DocumentOrder.NotLater | src/main/resources/web/js/lib/jquery.js:4269-4279 | A walk over the later siblings that ends without meeting a node shows that it is none of them |
| DocumentOrder.CompareTransitive | src/main/resources/web/js/lib/jquery.js:4209-4262 | The order that the comparator computes is transitive, strictly so where one of the steps is strict |
| DocumentOrder.PreorderIncreasing | src/main/resources/web/js/lib/jquery.js:4209-4262 | The preorder walk of any tree visits addresses in increasing lexicographic order: the order used as document order is preorder |
| DocumentOrder.ShapeLists | src/main/resources/web/js/lib/jquery.js:4209-4262 | The shape read off the addresses of a document: its preorder walk from any node meets exactly the nodes at or below that node |
| DocumentOrder.ShapeFromLists | src/main/resources/web/js/lib/jquery.js:4209-4262 | The same for the children from some position on |
| DocumentOrder.StrictOrderIsPreorder | src/main/resources/web/js/lib/jquery.js:3469-3484 | A strictly ordered list is the preorder walk of the document with all other nodes left out, so set and order determine it |
| DocumentOrder.Sorter.UniqueSort | src/main/resources/web/js/lib/jquery.js:3469-3484 | `uniqueSort` returns the same set of nodes, strictly increasing in document order, so without duplicates |
| DocumentOrder.Sorter.AfterSort | src/main/resources/web/js/lib/jquery.js:3474-3484 | After any sort whatever that left a permutation in order and compared the equal entries it left side by side: the rest of `uniqueSort` leaves the same set of nodes, strictly increasing in document order |
| DocumentOrder.Sorter.SpliceRepeats | src/main/resources/web/js/lib/jquery.js:3474-3480 | Splicing out an entry that equals its left neighbour leaves order and members and no repetition |
| DocumentOrder.Splice | src/main/resources/web/js/lib/jquery.js:3475-3479 | One splice keeps order, members and the part already checked |
| DocumentOrder.StrictIfNoNeighbours | src/main/resources/web/js/lib/jquery.js:3474-3480 | In an ordered list it is enough to compare neighbours: without repeated neighbours it is strictly ordered |
| DocumentOrder.Sorter.Sort | src/main/resources/web/js/lib/jquery.js:3472 | Such a sort exists: an insertion sort with the comparator gives a permutation in order, has compared the equal entries it left side by side, and the flag tells exactly whether a node was compared with itself |
| DocumentOrder.Sorter.Insert | src/main/resources/web/js/lib/jquery.js:3472 | One insertion keeps the order and what is known of equal neighbours |
| Lex.BeforeTransitive | src/main/resources/web/js/lib/jquery.js:4209-4262 | Document order, like the order of object identifiers, is transitive |
| Lex.BeforeTotal | src/main/resources/web/js/lib/jquery.js:4209-4262 | Of two different positions one is before the other |
| Lex.BeforeAsymmetric | src/main/resources/web/js/lib/jquery.js:4209-4262 | Two positions are never each before the other |
| Lex.IncreasingUnique | src/main/resources/web/js/lib/jquery.js:3469-3484 | Two increasing listings of the same members are the same listing |
| NthChild.AcceptsProgression | src/main/resources/web/js/lib/jquery.js:4071-4078 | The test with JavaScript's truncating remainder and the sign of the quotient accepts an index exactly if it is `first * n + last` for some n >= 0, whatever the signs |
| NthChild.Truncates | src/main/resources/web/js/lib/jquery.js:4077 | The remainder is that of a division that truncates: smaller than the divisor, and on the dividend's side of zero |
| NthChild.Nth | src/main/resources/web/js/lib/jquery.js:4048-4079 | The answer is whether the true 1-based position of the element among its element siblings lies on the progression; an element without parent passes exactly for `first` 1 and `last` 0; the parent then carries the pass id; every filter pass, open or finished, whose cached numbers were right still has right ones afterwards |
| NthChild.Number | src/main/resources/web/js/lib/jquery.js:4060-4066 | The numbering loop ends and gives each element child of the parent its position, and changes no other node |
| NthChild.NumberChild | src/main/resources/web/js/lib/jquery.js:4062-4066 | One turn numbers one child if it is an element |
| NthChild.NextChild | src/main/resources/web/js/lib/jquery.js:4062 | Following `nextSibling` from `firstChild` reaches all children of the parent and no others |
| NthChild.AcceptedIsTerm | src/main/resources/web/js/lib/jquery.js:4077 | What the test accepts is a term of the progression |
| NthChild.TermIsAccepted | src/main/resources/web/js/lib/jquery.js:4077 | Every term of the progression is accepted |
| SelectorRuns.Run | src/main/resources/web/js/lib/jquery.js:3828-3829 | Any sequence of calls, filters parsed and tried in any order with any number of them open at once, and combinators in between: every `nth-child` test is answered by the true position, and every combinator gives what a cache-free search gives; a newly parsed filter can trust its id because no node carries it |
| SelectorRuns.Answered | src/main/resources/web/js/lib/jquery.js:3828-3829 | One call of such a run: it is answered right, and every filter that was parsed so far can still trust the marks that carry its id |
| Deferred.World.ResolveWith | src/main/resources/web/js/lib/jquery.js:857-877 | On a list that can fire: it is then resolved with this context and these arguments; there is an exception exactly if the history says that a callback threw, and without one nothing is left. If the callbacks up to the first that throws only return or throw, what is left is exactly what follows that one, whatever it is. Callbacks that cannot throw by their text, whatever they re-enter, make no exception and stay so. On any other list nothing happens. All invariants hold afterwards, and nothing registered, run or resolved is forgotten |
| Deferred.World.Fire | src/main/resources/web/js/lib/jquery.js:860-863 | The `while` loop ends, also when callbacks add callbacks or resolve other lists; it leaves nothing unless a callback threw, and then what that can be told to be from the callbacks alone |
| Deferred.World.Start | src/main/resources/web/js/lib/jquery.js:858-859 | `firing` is set and the resolution becomes the first one |
| Deferred.World.Finish | src/main/resources/web/js/lib/jquery.js:871-874 | The `finally` block: `fired` is set, and the history keeps which callback threw |
| Deferred.World.Done | src/main/resources/web/js/lib/jquery.js:828-854 | On a cancelled list nothing happens; on one that is not resolved the functions are appended, those in nested arrays included, in order; on a resolved one they are appended and run at once with the first resolution, which stays in force |
| Deferred.World.AddAll | src/main/resources/web/js/lib/jquery.js:840-848 | The loop over the arguments with its recursion for arrays appends the flattened functions |
| Deferred.World.Collect | src/main/resources/web/js/lib/jquery.js:836-848 | `done` up to the point where it resolves again: the flattened functions are appended and `fired` is taken |
| Deferred.World.Call | src/main/resources/web/js/lib/jquery.js:861-863 | Running one callback, whatever it calls, moves it from the list to the end of what has run, and keeps the invariants; a user's function that throws nothing has done all it says; the remaining work gets smaller |
| Deferred.World.Take | src/main/resources/web/js/lib/jquery.js:955-957 | What a callback of the library itself does first: cancel the other list of its Deferred, or store a value, an array for several, and count down |
| Deferred.World.RunBody | src/main/resources/web/js/lib/jquery.js:861-863 | User code is any sequence of calls on deferreds, with exceptions caught or not: it ends and keeps the invariants; without an exception every call of it has taken effect: its functions are registered, its list is resolved or cancelled |
| Deferred.World.Act | src/main/resources/web/js/lib/jquery.js:918-938 | Calls that a promise or a Deferred does not offer throw and change nothing: resolving the result of `when`, cancelling a list of a Deferred; what user code catches goes no further; a cancelled list is empty, and functions added to a list that can still fire wait there in order |
| Deferred.World.When | src/main/resources/web/js/lib/jquery.js:944-977 | `when` on two or more arguments, from whatever state its arguments are in, keeps the invariants whether or not a callback throws in between, and forgets nothing of what its arguments have registered, run or been resolved with; if none of them is settled yet, each promise has got one slot callback and one `deferred.reject`, and nothing else has changed |
| Deferred.World.NextArgument | src/main/resources/web/js/lib/jquery.js:961-968 | One round of the loop: a plain argument is counted, a promise gets its two callbacks |
| Deferred.World.Subscribe | src/main/resources/web/js/lib/jquery.js:963-965 | Both callbacks of one promise are added, in this order |
| Deferred.World.SubscribeDone | src/main/resources/web/js/lib/jquery.js:963-965 | The slot callback is added to the done list of an argument that is not rejected, and runs at once if the argument is resolved; otherwise nothing else changes |
| Deferred.World.SubscribeFail | src/main/resources/web/js/lib/jquery.js:963-965 | `deferred.reject` is added to the fail list of an argument that is not resolved, and runs at once if the argument is rejected; otherwise nothing else changes |
| Deferred.World.SlotFilled | src/main/resources/web/js/lib/jquery.js:957-959 | The result is resolved when the last value is in, and not before |
| Deferred.World.Refire | src/main/resources/web/js/lib/jquery.js:849-851 | `done` resolves again with what it took from `fired`, which puts it back |
| Deferred.World.Attach | src/main/resources/web/js/lib/jquery.js:828-848 | `done` with one callback, up to the point where it would resolve again |
| Deferred.World.constructor | src/main/resources/web/js/lib/jquery.js:902-941 | New Deferreds, each list with the `cancel` of the other as first callback, and plain lists: all invariants hold |
| DeferredSteps.BeginKeeps | src/main/resources/web/js/lib/jquery.js:858-859 | Setting `firing` keeps all invariants, and a list of a Deferred that has run nothing still has its `cancel` callback first |
| DeferredSteps.EndKeeps | src/main/resources/web/js/lib/jquery.js:871-874 | Setting `fired` at the end of a firing, also after an exception, keeps all invariants |
| DeferredSteps.ApplyKeeps | src/main/resources/web/js/lib/jquery.js:861-862 | Taking a callback off the list and doing what it does first keeps all invariants but for the list on which `resolveWith` follows |
| DeferredSteps.KeepRunning | src/main/resources/web/js/lib/jquery.js:861-863 | A firing list goes on firing with the same resolution through anything its callbacks do |
| DeferredSteps.PushKeeps | src/main/resources/web/js/lib/jquery.js:836-848 | Adding user callbacks, with `fired` taken away for the moment, keeps all invariants but that this list is open |
| DeferredSteps.CancelKeeps | src/main/resources/web/js/lib/jquery.js:891-895 | A user's `cancel` keeps all invariants |
| DeferredSteps.PlainKeeps | src/main/resources/web/js/lib/jquery.js:966-967 | Counting a plain argument keeps `count` equal to the unprocessed arguments plus the pending promises |
| DeferredSteps.AddSlotKeeps | src/main/resources/web/js/lib/jquery.js:963-965 | Adding the slot callback of a promise keeps all invariants but that its done list is open while `fired` is taken away |
| DeferredSteps.AddRejectKeeps | src/main/resources/web/js/lib/jquery.js:963-965 | Adding `deferred.reject` to its fail list does so too |
| DeferredSteps.SlotFits | src/main/resources/web/js/lib/jquery.js:957-959 | `count` at zero means that the result can be resolved with the values |
| DeferredSteps.RejectFits | src/main/resources/web/js/lib/jquery.js:880-883 | The reject callback hands on what the argument was rejected with; its context becomes that object's promise if it has one |
| DeferredSteps.UserFits | src/main/resources/web/js/lib/jquery.js:918-930 | A user may resolve any list but those of the result of `when` |
| DeferredSteps.NotResolving | src/main/resources/web/js/lib/jquery.js:858 | A `resolveWith` that finds the list cancelled, resolved or firing leaves everything in order |
| DeferredRuns.RunsInOrder | src/main/resources/web/js/lib/jquery.js:815-899 | In every reachable state each callback of a list has run at most once, in the order of registration, with the first resolution; on a list that is not cancelled the others still wait in the list, in order |
| DeferredRuns.NeverBoth | src/main/resources/web/js/lib/jquery.js:902-941 | In every reachable state done and fail callbacks of one Deferred have not both run; it is not both resolved and rejected; the list that is resolved has cancelled the other one and not the reverse |
| DeferredRuns.LeftBehind | src/main/resources/web/js/lib/jquery.js:860-874 | The promise that no callback of a resolved list that was never cancelled stays unrun, exactly: in every reachable state what waits in such a list is what stands behind the callback that threw in its last firing, so something is left unrun exactly if a callback threw and was not the last |
| DeferredRuns.LeftUnrun | src/main/resources/web/js/lib/jquery.js:860-874 | For callbacks that return or throw at once that can be told beforehand: none is left exactly if none but the last throws |
| DeferredRuns.ThrowLeavesUnrun | src/main/resources/web/js/lib/jquery.js:860-874 | A run in which a callback throws and the next one stays unrun in a resolved list that was never cancelled |
| DeferredRuns.Session | src/main/resources/web/js/lib/jquery.js:815-977 | Any program that uses deferreds, calls `when`, and goes on to use deferreds, with callbacks that re-enter: if `when` gets through, its result is resolved exactly if every promise is and no slot callback stands behind a callback that threw; slot by slot it is resolved with the plain argument, with the single value of the promise, with the array of its values, or with `undefined` for none; and rejected with the arguments of one that was rejected, in its context or that context's promise. A part of the program that throws nothing has done all it says. If no function of the program can throw, which is read off its text, then nothing throws in the whole run, nothing waits in a settled list, and the result is resolved exactly if every promise is, and rejected exactly if one of them is |
| DeferredRuns.Opening | src/main/resources/web/js/lib/jquery.js:815-941 | The part of such a program before `when` |
| DeferredRuns.Closing | src/main/resources/web/js/lib/jquery.js:944-977 | `when` and the part after it |
| DeferredRuns.WhenByHistory | src/main/resources/web/js/lib/jquery.js:944-977 | In every reachable state in which no list is firing and `when` is through, its result is resolved exactly if every promise among the arguments is and no slot callback stands behind a callback that threw |
| DeferredRuns.CalmIsQuiet | src/main/resources/web/js/lib/jquery.js:860-874 | Where no callback can throw, nothing waits in a settled list once no list is firing |
| DeferredCallbacks.CalmApply | src/main/resources/web/js/lib/jquery.js:861-862 | Taking the next callback off a list leaves a state in which still no callback can throw |
| DeferredCallbacks.CalmFlatten | src/main/resources/web/js/lib/jquery.js:838-846 | Functions that cannot throw stay so when `done` collects them from nested arrays |
| DeferredCallbacks.FlattenInOrder | src/main/resources/web/js/lib/jquery.js:838-846 | `done` adds the functions among its arguments, those of nested arrays in their places, in the order in which they stand there: in lexicographic order of their positions, all of them and none twice |
| DeferredCallbacks.TookStays | src/main/resources/web/js/lib/jquery.js:815-899 | What a call has done stays done, whatever follows |
| DeferredRuns.WhenExact | src/main/resources/web/js/lib/jquery.js:944-977 | Once `when` has returned, its result is resolved exactly if every promise among the arguments is and no slot callback was left behind; if nothing was cut short, exactly if every promise is, and rejected exactly if one of them is; it is resolved with its promise and the values in the order of the arguments, and rejected with the arguments of one that was rejected, in its context or that context's promise |
| DeferredRuns.StalledWhen | src/main/resources/web/js/lib/jquery.js:944-977 | A run: a function that throws is added to a Deferred, `when` is called on it and a constant, the Deferred is resolved. Every promise is resolved, and the result stays pending, with the slot callback left behind in the list |
| DeferredRuns.ResolvedMeans | src/main/resources/web/js/lib/jquery.js:955-958 | Slot i of a resolved result holds the value of argument i: a plain argument, the value a promise was resolved with, the array of several, `undefined` for none |
| DeferredRuns.SlotsTaken | src/main/resources/web/js/lib/jquery.js:955-959 | When the result is resolved no slot callback waits anywhere |
| DeferredRuns.SomeRejected | src/main/resources/web/js/lib/jquery.js:962-972 | If some argument is rejected and nothing was cut short, the result is rejected, not resolved |
| DeferredRuns.CancelledBy | src/main/resources/web/js/lib/jquery.js:932-933 | A list of a Deferred is cancelled only by the resolution of the other one |
| Prefilters.Request.Dispatch | src/main/resources/web/js/lib/jquery.js:6144-6181 | Recursive dispatch ends, with any redirecting filters; no list is taken up twice in a request; for prefilters every filter of every list taken up has been called once and in order, no other filter, every redirection was followed or led to a list already taken up, and the catch-all list came too; for transports the answer is the first transport of the list, else of the catch-all list, and no call follows it |
| Prefilters.Request.Inspect | src/main/resources/web/js/lib/jquery.js:6144-6181 | One level of the recursion: the same for the lists that this call is the first to take up; the measure is the number of known types not taken up yet |
| Prefilters.Request.Step | src/main/resources/web/js/lib/jquery.js:6158-6171 | One round of the loop calls the next filter and follows a redirection if there is one to follow |
| Prefilters.Request.TakeUp | src/main/resources/web/js/lib/jquery.js:6147-6154 | Taking up a list leaves one type fewer to take up if the type is known |
| Prefilters.Request.CallFilter | src/main/resources/web/js/lib/jquery.js:6159-6166 | A redirection is followed exactly for prefilters and to a type that is new; it is put in front of `dataTypes` |
| Prefilters.Request.FewerLeft | src/main/resources/web/js/lib/jquery.js:6144-6181 | The termination measure: taking up a known type makes it smaller |
| Prefilters.Untouched | src/main/resources/web/js/lib/jquery.js:6150-6159 | No filter of a list is called before the list is taken up |
| Prefilters.InOrderMeans | src/main/resources/web/js/lib/jquery.js:6157-6159 | In the log of a request every call comes after its list was taken up and after as many calls on that list as its number says |
| Prefilters.FollowedMeans | src/main/resources/web/js/lib/jquery.js:6161-6169 | Every redirection in the log leads to one of the types in question |
| Prefilters.FirstTransport | src/main/resources/web/js/lib/jquery.js:6158 | Where the loop over transports stops: the first answer that is an object |
| Clipping.ClipExact | src/main/resources/web/js/lib/jquery.flot.js:1731-1786 | Clipping is exact: what is drawn is the part of the segment inside the rectangle of the axes, point for point, and a segment is skipped only if no point of it is inside |
| Clipping.ClipRuns | src/main/resources/web/js/lib/jquery.flot.js:1731-1786 | The clipped segment runs the same way as the segment, and an end of the segment that is inside stays an end |
| Clipping.InsideStays | src/main/resources/web/js/lib/jquery.flot.js:1731-1786 | Between two points inside nothing is clipped |
| Clipping.ClipLowExact | src/main/resources/web/js/lib/jquery.flot.js:1731-1744 | The step for the lower bound keeps exactly the points that are not below it, and never divides by zero |
| Clipping.ClipHighExact | src/main/resources/web/js/lib/jquery.flot.js:1746-1758 | The step for the upper bound keeps exactly the points that are not above it |
| Clipping.ClipXExact | src/main/resources/web/js/lib/jquery.flot.js:1760-1786 | The two steps for x keep exactly the points between the bounds |
| Clipping.ClipXRuns | src/main/resources/web/js/lib/jquery.flot.js:1760-1786 | The steps for x alone keep the way of running and the ends in range, too |
| LinePlot.PlotLine | src/main/resources/web/js/lib/jquery.flot.js:1718-1796 | The lines on the canvas are exactly the clipped segments between consecutive points that are not gaps, in order and each in its own direction: the pen is at the start of each segment when it is drawn; and three points in a row that are inside are drawn by two joining `lineTo` calls without a move between them |
| LinePlot.DrawSegment | src/main/resources/web/js/lib/jquery.flot.js:1788-1793 | One segment: the pen is moved exactly if it is elsewhere, and then drawn to the end |
| LinePlot.GoesOn | src/main/resources/web/js/lib/jquery.flot.js:1786-1793 | Where the last two points were inside the next segment joins on without a move |
| LinePlot.ReadRows | src/main/resources/web/js/lib/jquery.flot.js:1724-1729 | Reading two consecutive rows of the flat array stays inside it |
| AreaPlot.PlotLineArea | src/main/resources/web/js/lib/jquery.flot.js:1798-1938 | The loop with its turning points ends on every point array with gaps, and draws one polygon per stretch from a visible edge to the next gap, in order, forward along the top and back along the bottom |
| AreaPlot.StepOn | src/main/resources/web/js/lib/jquery.flot.js:1812-1876 | An ordinary step of the sweep, forward or back, draws the edge it passes and keeps the account of the sweep |
| AreaPlot.TurnAt | src/main/resources/web/js/lib/jquery.flot.js:1819-1825 | At a gap the sweep turns: the area so far is the top of the polygon |
| AreaPlot.Filled | src/main/resources/web/js/lib/jquery.flot.js:1827-1835 | Back at the start the drawing is that polygon, and the sweep goes on behind the gap |
| AreaPlot.NothingLeft | src/main/resources/web/js/lib/jquery.flot.js:1809-1810 | When the loop breaks no area is open and none is left |
| AreaPlot.DrawEdge | src/main/resources/web/js/lib/jquery.flot.js:1841-1937 | Clipping an edge in x and drawing it, opening an area if none is open |
| AreaPlot.StepReads | src/main/resources/web/js/lib/jquery.flot.js:1814-1816 | What the two points read at the current index say about the edge between them |
| AreaSeries.FillSeries | src/main/resources/web/js/lib/jquery.flot.js:1798-1938 | From the point array to the drawing: the stretches filled are in order and apart, each goes from an edge in sight over points that are there to the next missing one, and no edge in sight is outside them; the calls added to the canvas are one path per stretch, begun at the base line, along the upper edges, back along the lower edges, and filled, with only moves and lines in between; and every edge is drawn as it should be |
| AreaSeries.EdgeLine | src/main/resources/web/js/lib/jquery.flot.js:1841-1937 | What is drawn for an edge, upper or lower: its part in the visible range of x with the heights clamped to the visible range, point for point, from its start to its end and never back; a path begun there begins at the visible height closest to zero, under the first point |
| AreaSeries.ReadsPoints | src/main/resources/web/js/lib/jquery.flot.js:1814-1816 | The rows that the sweep reads are those of the flat array, and nothing outside it |
| AreaSeries.PathIsFilled | src/main/resources/web/js/lib/jquery.flot.js:1827-1876 | The path of a stretch begins with `beginPath`, ends with `fill`, and has only moves and lines in between |
| AreaSeries.InSightIsDrawn | src/main/resources/web/js/lib/jquery.flot.js:1841-1869 | An edge is drawn exactly if some point of it is in the visible range of x |
| AreaSeries.PathsAgree | src/main/resources/web/js/lib/jquery.flot.js:1798-1938 | The paths that the sweep draws are those of the stretches, read off the array |
| AreaShape.OutlineIsClamped | src/main/resources/web/js/lib/jquery.flot.js:1878-1937 | The line drawn for an edge is the edge with its heights clamped to the visible range, point for point |
| AreaShape.OutlineFollows | src/main/resources/web/js/lib/jquery.flot.js:1878-1937 | The line drawn for an edge follows the edge from end to end and never goes back |
| AreaShape.BaseLineClosest | src/main/resources/web/js/lib/jquery.flot.js:1801 | The base line of an area is the visible height closest to zero |
| AreaShape.SpansCover | src/main/resources/web/js/lib/jquery.flot.js:1798-1938 | Every visible edge is in one of the areas |
| AreaShape.SpansInOrder | src/main/resources/web/js/lib/jquery.flot.js:1798-1938 | The areas come in order and apart from each other, so no edge is in two of them |
| AreaShape.AreasArePaths | src/main/resources/web/js/lib/jquery.flot.js:1798-1938 | The drawing is one filled path per area |
| AreaShape.AreasAllFilled | src/main/resources/web/js/lib/jquery.flot.js:1827-1876 | Every path that is begun is filled exactly once before the next is begun, nothing is drawn outside a path, and none is open at the end |
| AreaShape.SketchDraws | src/main/resources/web/js/lib/jquery.flot.js:1871-1937 | Edges begin a path with a move and otherwise draw lines only |
| AreaShape.SketchCoherent | src/main/resources/web/js/lib/jquery.flot.js:1838-1839 | An edge is visible only between two points that are there |
| AxisTicks.Axis.SetRange | src/main/resources/web/js/lib/jquery.flot.js:1060-1097 | With a margin that is not negative the range is proper exactly if the wanted ends are in order or equal, and covers what it was made from; equal ends always give a proper range; for ends in order and any margin it is proper exactly if the margin leaves something of it; ends that the user set stay, and autoscaling does not cross zero; the widening of a single value and the padding are stated |
| AxisTicks.Padding | src/main/resources/web/js/lib/jquery.flot.js:1082-1094 | Which margins, negative ones included, leave something of a range when one end or both are moved by them |
| AxisTicks.PadIsShare | src/main/resources/web/js/lib/jquery.flot.js:1081-1090 | What a margin adds is a share of the range: shares add up, and that of 1 is the whole range |
| AxisTicks.Axis.SetupTickGeneration | src/main/resources/web/js/lib/jquery.flot.js:1274-1323 | The step is 1, 2, 2.5 or 5 times a power of ten, or `minTickSize` if that is more, or the user's; the range takes less than 1.5 times as many steps as ticks were asked for, and at least 0.6 times as many exactly if `tickDecimals` allows so small a step; without limits it is the nearest such number exactly if the range per tick is not between 3 and 3.75 times a power of ten; labels have exactly the decimals that the step needs, and one too many exactly where a range per tick below one is rounded up to the next power of ten |
| AxisTicks.Round | src/main/resources/web/js/lib/jquery.flot.js:1280-1298 | The rounding itself, for any cap on the decimals |
| AxisTicks.LabelsShow | src/main/resources/web/js/lib/jquery.flot.js:1280-1303 | How many decimals the labels get, for every range per tick |
| AxisTicks.ChosenIsNearest | src/main/resources/web/js/lib/jquery.flot.js:1283-1296 | Which range per tick is rounded to the nearest nice number |
| AxisTicks.FloorLog10 | src/main/resources/web/js/lib/jquery.flot.js:1276 | The exponent e with 10^e <= delta < 10^(e+1) exists and is found |
| AxisTicks.FloorInBase | src/main/resources/web/js/lib/jquery.flot.js:2595-2597 | The greatest multiple of the base that is not above the number |
| AxisTicks.Axis.Generate | src/main/resources/web/js/lib/jquery.flot.js:1306-1319 | The generator ends; ticks are evenly spaced from the floor of the minimum on, and only the last one is not below the maximum |
| AxisTicks.Axis.SetTicks | src/main/resources/web/js/lib/jquery.flot.js:1371-1401 | Ticks are those given, numbers or pairs with a text, or those generated, in order; a tick without a text of its own is labelled with its formatted value |
| AxisTicks.Axis.SnapRangeToTicks | src/main/resources/web/js/lib/jquery.flot.js:1403-1411 | Snapping widens an end that the user did not set to the outermost tick, and no more |
| AxisTicks.Axis.Setup | src/main/resources/web/js/lib/jquery.flot.js:1004-1015 | Range, ticks and snapping together: the range is proper, with a margin that is not negative it covers the data, and both ends that the user set stay; with autoscaling it ends on the first and the last tick, of which only the last reaches the end before snapping; all ticks are multiples of the step, whole in the last decimal of their labels, and the labels have no decimal too many but in the case stated |
| NearbyItem.Search.Find | src/main/resources/web/js/lib/jquery.flot.js:2251-2336 | The item found is the closest point among those not left out for their coordinates, the first of them in the order of the search; only if there is none, the last bar under the mouse of the first series that has one |
| NearbyItem.Search.CandidateIs | src/main/resources/web/js/lib/jquery.flot.js:2277-2299 | Which points the search takes into account: those of accepted series drawn with points or lines that are, drawn without the transform, within the radius in both directions, or have an inverse transform there, and whose squared distance in pixels is below that of the radius plus one |
| NearbyItem.Search.NearestWins | src/main/resources/web/js/lib/jquery.flot.js:2251-2302 | Where no axis has a transform that moves a point and no inverse of it: if some point of an accepted series lies within the active radius, the item found is such a point and no point of any accepted series is closer in pixels |
| NearbyItem.Search.LosesNoneExactly | src/main/resources/web/js/lib/jquery.flot.js:2265-2287 | The search loses no point within the radius, wherever the mouse is, exactly if every axis without inverse transform leaves the coordinates of all points of accepted series as they are |
| NearbyItem.PruningExact | src/main/resources/web/js/lib/jquery.flot.js:2265-2287 | On one axis: no mouse position within the radius of a point leaves the point out exactly if there is an inverse transform or the transform does not move the coordinate |
| NearbyItem.PrunedIsFar | src/main/resources/web/js/lib/jquery.flot.js:2265-2287 | With an inverse transform no point is left out; without one, a point is left out exactly if it would be more than the radius away in pixels, drawn without the transform |
| NearbyItem.Search.Lost | src/main/resources/web/js/lib/jquery.flot.js:2265-2287 | For every point that an axis without inverse transform moves there is a mouse position within the radius of it at which the search leaves it out |
| NearbyItem.MissesPoint | src/main/resources/web/js/lib/jquery.flot.js:2251-2336 | The search run: for any series of a single point that the x axis moves, there is a mouse position within the radius of it at which nothing is found |
| NearbyItem.TransformWithoutInverse | src/main/resources/web/js/lib/jquery.flot.js:2251-2336 | The search run on a tenfold axis: a point exactly under the mouse is not found |
| NearbyItem.Search.ScanPoints | src/main/resources/web/js/lib/jquery.flot.js:2277-2302 | The loop over the points of one series keeps the closest candidate |
| NearbyItem.Search.ScanBars | src/main/resources/web/js/lib/jquery.flot.js:2304-2321 | The loop over the bars of one series finds the last one under the mouse |
| NearbyItem.InsideIsOnBar | src/main/resources/web/js/lib/jquery.flot.js:2304-2319 | On axes without transforms a bar is taken to be under the mouse exactly if the mouse is on it as it is drawn: between base and value in one direction, and across its width, beside the value or around it, in the other |
| NearbyItem.AxisMaps | src/main/resources/web/js/lib/jquery.flot.js:813-844 | The ends of the range are drawn at the edges of the plot area, y upwards; a transform that falls turns them round |
| NearbyItem.BackAndForth | src/main/resources/web/js/lib/jquery.flot.js:832-843 | Canvas and data coordinates convert back and forth on a linear axis, and wherever the inverse transform undoes the transform |
| Excanvas.MatrixMultiply | src/main/resources/web/js/lib/excanvas.js:212-227 | The three loops compute the matrix product entry by entry into a new matrix |
| Excanvas.MultiplyComposes | src/main/resources/web/js/lib/excanvas.js:212-227 | The product of matrices with third column (0, 0, 1) has that column again and is the composition of the transforms |
| Excanvas.MapThen | src/main/resources/web/js/lib/excanvas.js:212-227 | Composing two transforms maps a point as one after the other does |
| Excanvas.Context.GetCoords | src/main/resources/web/js/lib/excanvas.js:779-785 | A point is drawn where all transforms applied since the start or the last `setTransform` take it, the latest first, in canvas units |
| Excanvas.ProductMaps | src/main/resources/web/js/lib/excanvas.js:779-785 | The product of any sequence of transforms maps a point as they do in turn |
| Excanvas.Context.Do | src/main/resources/web/js/lib/excanvas.js:787-880 | Every call keeps all matrices affine, the saved ones too, and does what the composition of transforms says |
| Excanvas.Context.Perform | src/main/resources/web/js/lib/excanvas.js:787-880 | Every run of calls, up to the first that throws, keeps all matrices affine and does what the composition of transforms says |
| Excanvas.Context.Save | src/main/resources/web/js/lib/excanvas.js:787-793 | `save` pushes the state and goes on with an equal matrix |
| Excanvas.Context.Restore | src/main/resources/web/js/lib/excanvas.js:795-798 | `restore` brings back the last saved state; with none saved it throws and changes nothing |
| Excanvas.Context.SetM | src/main/resources/web/js/lib/excanvas.js:811-825 | A new matrix leaves the saved ones alone; the line scale is the root of its effect on areas |
| Excanvas.Context.Concat | src/main/resources/web/js/lib/excanvas.js:827-870 | A transform is applied before those in force |
| Excanvas.Context.SetTransform | src/main/resources/web/js/lib/excanvas.js:872-880 | `setTransform` forgets the transforms in force |
| Excanvas.TransformsMean | src/main/resources/web/js/lib/excanvas.js:827-870 | What the calls do to a point: a translation shifts it, a rotation turns it about the origin, a scaling stretches it along the axes, a transform maps it, before it is drawn as before the call |
| Excanvas.SetTransformMeans | src/main/resources/web/js/lib/excanvas.js:872-880 | After `setTransform` a point is drawn where that transform alone takes it, ten times as fine and half a unit off |
| Excanvas.AreaScales | src/main/resources/web/js/lib/excanvas.js:818-824 | The number whose root becomes the line scale is the factor by which the matrix enlarges every triangle |
| Excanvas.BalancedRestores | src/main/resources/web/js/lib/excanvas.js:787-798 | Whatever balanced calls stand between `save` and its `restore`, transform, paint state and saved states are what they were |
| Excanvas.SavedStay | src/main/resources/web/js/lib/excanvas.js:787-798 | No run of calls without a `restore` too many touches the states saved before it |
| Excanvas.Context.QuadraticCurveTo | src/main/resources/web/js/lib/excanvas.js:369-386 | The cubic segment that is added, from the current point and the transformed points |
| Excanvas.QuadraticIsDrawn | src/main/resources/web/js/lib/excanvas.js:369-386 | At every parameter that segment is the quadratic curve with the transformed control points; from a current point set with the same matrix it is where the matrix takes the curve asked for |
| Excanvas.CubicIsQuadratic | src/main/resources/web/js/lib/excanvas.js:376-383 | The computed control points give the same curve, at every parameter |
| Excanvas.CoordsOfCurve | src/main/resources/web/js/lib/excanvas.js:373-374 | Transforming a point of the curve is the same as transforming its control points |
| SnmpAgent.GetNextIsSuccessor | src/main/java/com/hackorama/plethora/server/snmp/OidToMetricBridge.java:41-58 | For the metrics root and identifiers of up to two numbers below it, GETNEXT returns the lexicographically least module or metric after it, bound to the module's name or the metric's stored value, which is also what GET returns for it; the end of the view exactly if there is none; an exception only where GET on that object throws (section 4.1.3 of RFC 1157) |
| SnmpAgent.GetMeans | src/main/java/com/hackorama/plethora/server/snmp/OidToMetricBridge.java:23-39 | GET on a module answers its name; on a metric what is stored under its full name: a text as that text, a number of up to 32 bits as that number and a longer one as its low 32 bits, true as 1, false as 0, nothing as no such object; an empty name makes it throw |
| SnmpAgent.GetElsewhere | src/main/java/com/hackorama/plethora/server/snmp/OidToMetricBridge.java:23-39 | GET on the root and its `.0` answers the description, on any other identifier of up to two numbers no such object; further down the first two numbers decide |
| SnmpAgent.AdvancesExactly | src/main/java/com/hackorama/plethora/server/snmp/SnmpAgent.java:222-235 | GETNEXT goes forward to the right object exactly for identifiers of at most two numbers, those before every module, and an empty service: deeper identifiers restart the walk |
| SnmpAgent.WalkVisitsAll | src/main/java/com/hackorama/plethora/server/snmp/SnmpAgent.java:222-235 | A walk from any such identifier ends, sees objects only, in increasing order and so none twice, and sees all of them exactly if GET throws on none of them |
| SnmpAgent.AnswersExactly | src/main/java/com/hackorama/plethora/server/MetricService.java:88-98 | GET throws on a metric exactly if its name or that of its module is empty |
| SnmpAgent.ReplyIsExpected | src/main/java/com/hackorama/plethora/server/snmp/OidToMetricBridge.java:41-65 | The 32-bit index arithmetic of GETNEXT never goes astray, not even where it wraps |
| SnmpAgent.NextNodeIsSuccessor | src/main/java/com/hackorama/plethora/server/snmp/OidToMetricBridge.java:60-80 | The arithmetic on the numbering finds the lexicographic successor |
| SnmpAgent.WalkShrinks | src/main/java/com/hackorama/plethora/server/snmp/OidToMetricBridge.java:41-58 | Each step of a walk leaves fewer objects ahead |
| MibEngine.Engine.BuildMib | src/main/java/com/hackorama/plethora/server/snmp/MIBEngine.java:92-114 | Generation fails exactly if a listed metric is not in the store; otherwise the text is the header, the chain of the enterprise's identifiers each under the one before, the subtree root under the last of them, the modules numbered from 1, the metrics of each module numbered from 1, and the end line |
| MibEngine.Engine.GenerateMib | src/main/java/com/hackorama/plethora/server/snmp/MIBEngine.java:64-90 | In the generated text the enterprise's identifiers have the configured names, each under the one before, exactly if no number is configured with two names |
| MibEngine.ChainAsGiven | src/main/java/com/hackorama/plethora/server/snmp/MIBEngine.java:69-102 | The map of names is keyed by number, so the chain is as configured exactly if a number that occurs twice has the same name both times |
| MibEngine.Engine.MakeOidMap | src/main/java/com/hackorama/plethora/server/snmp/MIBEngine.java:69-90 | The numbers after the sixth are kept in order, and each is mapped to its last name, or to the default where there is none |
| MibEngine.BuildModules | src/main/java/com/hackorama/plethora/server/snmp/MIBEngine.java:116-122 | Module ids are positions counted from 1; an empty line follows |
| MibEngine.BuildAllMetrics | src/main/java/com/hackorama/plethora/server/snmp/MIBEngine.java:106-111 | One section per metric of each module, numbered within the module; a metric that is not in the store stops it |
| MibEngine.BuildMetrics | src/main/java/com/hackorama/plethora/server/snmp/MIBEngine.java:107-110 | One section per metric of the module, numbered from 1, exactly if all of them are in the store |
| MibEngine.BuildMetric | src/main/java/com/hackorama/plethora/server/snmp/MIBEngine.java:124-130 | A section is appended exactly if the metric's properties are there, with a stock description where none is given; null is dereferenced otherwise |
| MibEngine.MibAgreesWithGet | src/main/java/com/hackorama/plethora/server/snmp/MIBEngine.java:92-130 | The pair of ids that generation gives a metric is an object of the agent, GET on it returns the value stored under that metric's full name, and the section has that entry's description and the syntax for its type |
| MibEngine.SectionDescribes | src/main/java/com/hackorama/plethora/server/snmp/MIBEngine.java:124-134 | A section has the stored description, or a stock one if that is empty, and the syntax for the stored type |
| MibEngine.EveryObjectHasSection | src/main/java/com/hackorama/plethora/server/snmp/OidToMetricBridge.java:23-58 | Every object that the agent knows below a module has its section, made from the same metric |
| MibEngine.ModuleId | src/main/java/com/hackorama/plethora/server/snmp/MIBEngine.java:116-122 | A module has exactly one id, the position that the agent counts |
| MibEngine.SectionsAre | src/main/java/com/hackorama/plethora/server/snmp/MIBEngine.java:106-111 | The sections are those of the listed metrics, each with its own position |
| MibEngine.ParentLabelResolves | src/main/java/com/hackorama/plethora/server/snmp/MIBEngine.java:116-130 | The parent label of a section names the line of its module exactly if the module's name is alphanumeric, not reserved and at most 64 characters long |
| MibEngine.DescriptorFixpoint | src/main/java/com/hackorama/plethora/server/snmp/Template.java:61-71 | A name is its own descriptor exactly if it is alphanumeric, not reserved and at most 64 characters long |
| MibEngine.NeverReserved | src/main/java/com/hackorama/plethora/server/snmp/Template.java:61-71 | A descriptor is the letters and digits of the name, after `metric` if they are a reserved word, cut after 64; it is never a reserved word itself |
| MibEngine.KeepsLetters | src/main/java/com/hackorama/plethora/server/snmp/Template.java:61-71 | Stripping a name keeps what stays of each part, in order |
| MibEngine.KeepsLetter | src/main/java/com/hackorama/plethora/server/snmp/Template.java:61-71 | Of single characters exactly letters and digits stay |
| MibEngine.UpperIs | src/main/java/com/hackorama/plethora/server/snmp/Transformer.java:16-21 | Upper case changes small letters to capitals and nothing else |
| MibEngine.SyntaxAgreement | src/main/java/com/hackorama/plethora/server/snmp/MIBEngine.java:45-53 | The value that is sent belongs to the syntax that the section declares exactly for metrics with a value other than `false`: the MIB says `false(2)`, the agent sends 0 |
| NameResolver.RoundTrip | src/main/java/com/hackorama/plethora/common/data/NameResolver.java:18-74 | Module and metric come back from the full name built from them exactly if the module has no dot and the metric does not end in one, dots inside the metric notwithstanding |
| NameResolver.FullNamesDiffer | src/main/java/com/hackorama/plethora/common/data/NameResolver.java:25-30 | Different pairs have different full names, as long as modules have no dot |
| NameResolver.JoinSplit | src/main/java/com/hackorama/plethora/common/data/NameResolver.java:62-74 | Splitting and joining again loses nothing but dots at the end |
| NameResolver.GetStringElementsAfter | src/main/java/com/hackorama/plethora/common/data/NameResolver.java:62-74 | The loop joins the pieces from the index on |
| NameResolver.ResolveMetric | src/main/java/com/hackorama/plethora/common/data/NameResolver.java:18-23 | `null` exactly for names that are not valid; otherwise the joined pieces behind the second one |
| NameResolver.ValidNameIs | src/main/java/com/hackorama/plethora/common/data/NameResolver.java:39-44 | Valid names are the root alone and those that go on after it with a dot |
| NameResolver.SplitFull | src/main/java/com/hackorama/plethora/common/data/NameResolver.java:50-60 | How a full name splits: the root first, no piece with a dot, and for a module without dots that module and the pieces of the metric |
| MetricsReader.Reader.ProcessMetricsConfig | src/main/java/com/hackorama/plethora/channel/PropertiesMetricsReader.java:57-68 | In whatever order the keys come: the loop fails exactly if some name that is defined and new has no value and no definite type, and otherwise the store is the initial one with one metric per new non-empty name, each determined by the map alone |
| MetricsReader.Reader.AddMetric | src/main/java/com/hackorama/plethora/channel/PropertiesMetricsReader.java:98-119 | The type follows from the value where none or no valid one is given, which throws for a missing value; an empty name adds nothing |
| MetricsReader.StoredMetric | src/main/java/com/hackorama/plethora/channel/PropertiesMetricsReader.java:64-119 | What is stored for a name: its display name, description and level as given under either spelling, trimmed, or the defaults; the type that is given if it is definite, otherwise what the value looks like; and the value as text, as a number that is 0 where it does not parse, or as a flag that is set by `true` and `1` only |
| MetricsReader.GetMetricNameFromPropertyKey | src/main/java/com/hackorama/plethora/channel/PropertiesMetricsReader.java:143-153 | The name that a key belongs to |
| MetricsReader.AttributeKeys | src/main/java/com/hackorama/plethora/channel/PropertiesMetricsReader.java:143-153 | The attribute keys of a metric, in both spellings, lead to its name; any other key is a name itself |
| MetricsReader.DescriptionAlone | src/main/java/com/hackorama/plethora/channel/PropertiesMetricsReader.java:98-119 | A description without a value is enough to fail |

## Left out

- Drawing itself, the document object model, events, ajax transports, style sheets and browser workarounds: foreign calls. The
  model keeps the list of drawing calls and the shape of the tree.
- Parsing of selectors and of the `nth-child` formula: it sits in regular expressions. Combinators get the parsed part.
- Native `compareDocumentPosition` and `sourceIndex` comparators: only the fallback is modelled. Nodes of different trees are not.
- DocumentOrder.Sorter.UniqueSort: runs an insertion sort, as the engine's own sort is not part of the repository; what follows the sort is stated for any sort (`AfterSort`).
- CombinatorWalk.Sizzle.Filter: the inside of a selector test is any number of passes with new ids that mark nodes and number children; what the selector means is a parameter.
- Deferred.World.When: one `when` call is observed in a world of other deferreds; with fewer than two arguments `when` only passes its argument on.
- Deferred.World.RunBody: a callback's calls are fixed in advance and do not depend on its arguments; runs without end are covered by their finite parts, since the invariants hold after every call.
- `then`, `resolve`, `reject` and `isResolved` of deferreds are short cuts for what is modelled.
- Prefilters.Request.Inspect: filters that register further filters or change `options.dataTypes` themselves are not modelled, nor a first data type that is named like a property every object has.
- Flat point arrays are modelled as such in `LinePlot` and `AreaPlot`; in `NearbyItem` they are sequences of points.
- AreaPlot.PlotLineArea: the fill colour and the flat `lineTo` calls that repeat a point are kept as calls, not as pixels.
- AxisTicks.Axis.SetupTickGeneration: time axes and `alignTicksWithAxis` are left out; the number of ticks to aim for is a parameter, as it comes from a square root of the canvas size; a negative `tickSize` and a range that is not proper are not covered, the code then loops for ever or takes the logarithm of a negative number.
- `processData` of jquery.flot.js: over several series the second pass uses the format of the last one, so exact bounds hold in narrow cases only.
- Excanvas.Context.QuadraticCurveTo: without a current point the control points are not numbers, which the model records as missing.
- The test for finite matrices in `setM`, arcs, gradients and images of excanvas.js.
- Object identifiers of the system group, where GETNEXT pairs the next identifier with the current value, and those outside both subtrees.
- The immediate mode of `MetricService`, which asks the modules for values; the sets of modules and metrics stay fixed during a walk.
- MibEngine.Engine.BuildMib: the text is a sequence of lines with their parts; the layout of the templates, and line breaks inside descriptions, sit in string templates and a regular expression.
- MibEngine.Engine.MakeOidMap: gets the configured strings already split, and the numbers parsed.
- `OptionString`: builder and reader use different character positions.
- MetricsReader.Reader.ProcessMetricsConfig: what the store holds after a failure depends on the order of keys; only that the reading fails does not.
- Files, network, JMX, SIGAR, encryption, threads and logging, the C++ and Python clients and the HTML formatters.
