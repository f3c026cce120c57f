/** What holds of deferred objects in every state that any run reaches: the lists one by one, the two
    lists of a Deferred, and `when`. */
module DeferredRuns {
  import opened DeferredState
  import opened DeferredCallbacks
  import opened DeferredSteps
  import opened Deferred
  import opened Wrappers

  /** Never both: done callbacks and fail callbacks of one Deferred. */
  lemma NeverBoth(s: Setup, st: State, k: nat)
    requires Inv(s, st, -1) && k < s.pairs
    ensures st.hist[k].ran == [] || st.hist[s.pairs + k].ran == []
    ensures st.hist[k].first.None? || st.hist[s.pairs + k].first.None?
    ensures st.hist[k].first.Some? ==> st.lists[s.pairs + k].cancelled && !st.lists[k].cancelled
    ensures st.hist[s.pairs + k].first.Some? ==> st.lists[k].cancelled && !st.lists[s.pairs + k].cancelled
  {
    assert PairInv(s, st, k, -1) && PairInv(s, st, s.pairs + k, -1);
    hide PairsInv, SlotsInv, ValuesInv, RejectInv;
  }

  /** In the order they were added, each at most once, all with the first resolution; those of a list that
      is not cancelled and not in the middle of firing are run or still wait in the list. */
  lemma RunsInOrder(s: Setup, st: State, d: nat)
    requires Inv(s, st, -1) && d < |st.lists|
    ensures |st.hist[d].ran| == |st.hist[d].heard| <= |st.hist[d].registered|
    ensures forall j :: 0 <= j < |st.hist[d].ran| ==>
        st.hist[d].ran[j] == st.hist[d].registered[j] && st.hist[d].first == Some(st.hist[d].heard[j])
    ensures !st.lists[d].cancelled ==> st.hist[d].registered[|st.hist[d].ran|..] == st.lists[d].callbacks
  {
    assert ListInv(st.lists[d], st.hist[d], false);
    hide PairsInv, SlotsInv, ValuesInv, RejectInv, ListsInv;
  }

  ghost predicate Resolved(st: State, d: nat)
    requires d < |st.hist|
  {
    st.hist[d].first.Some?
  }

  /** Nothing waits in a settled list of an argument: no firing is under way, and none was cut short. */
  ghost predicate Quiet(s: Setup, st: State)
    requires Sized(s, st)
  {
    forall i: nat :: i < |s.args| && s.args[i].Promise? ==> QuietAt(s, st, i)
  }

  ghost predicate QuietAt(s: Setup, st: State, i: nat)
    requires Sized(s, st) && i < |s.args| && s.args[i].Promise?
  {
    var k := s.args[i].k;
    (Resolved(st, k) ==> st.lists[k].callbacks == []) && (Resolved(st, s.pairs + k) ==> st.lists[s.pairs + k].callbacks == [])
  }

  ghost predicate ArgResolved(s: Setup, st: State, i: nat)
    requires Sized(s, st) && i < |s.args|
  {
    s.args[i].Promise? ==> Resolved(st, s.args[i].k)
  }

  ghost predicate ArgRejected(s: Setup, st: State, i: nat)
    requires Sized(s, st) && i < |s.args|
  {
    s.args[i].Promise? && Resolved(st, s.pairs + s.args[i].k)
  }

  /** `v` is the value of argument `i`: itself, or what its promise was resolved with, an array of it if it is several values. */
  ghost predicate IsValueOf(s: Setup, st: State, i: nat, v: Value)
    requires Sized(s, st) && i < |s.args| && ArgResolved(s, st, i)
  {
    match s.args[i]
    case Plain(w) => v == w
    case Promise(k) =>
      var args := st.hist[k].first.value.args;
      (|args| == 0 ==> v == Undefined) && (|args| == 1 ==> v == args[0]) && (|args| > 1 ==> v == Array(args))
  }

  ghost predicate EveryResolved(s: Setup, st: State)
    requires Sized(s, st)
  {
    forall i: nat :: i < |s.args| ==> ArgResolved(s, st, i)
  }

  ghost predicate AnyRejected(s: Setup, st: State)
    requires Sized(s, st)
  {
    exists i: nat :: i < |s.args| && ArgRejected(s, st, i)
  }

  /** The result is resolved with its promise as context and the values of the arguments, in their order. */
  ghost predicate Delivered(s: Setup, st: State)
    requires Sized(s, st)
  {
    && st.hist[s.result].first == Some(Firing(s.promise, st.slots)) && |st.slots| == |s.args|
    && forall i: nat :: i < |s.args| ==> ArgResolved(s, st, i) && IsValueOf(s, st, i, st.slots[i])
  }

  /** The result is rejected with what one of the arguments was rejected with; the context is kept, but for an object that has
      a `promise` method it becomes its promise. */
  ghost predicate RejectedLikeOne(s: Setup, st: State)
    requires Sized(s, st) && Resolved(st, s.pairs + s.result)
  {
    exists i: nat :: i < |s.args| && ArgRejected(s, st, i)
      && HandedOn(s, st.hist[s.pairs + s.args[i].k].first.value, st.hist[s.pairs + s.result].first.value)
  }

  ghost predicate HandedOn(s: Setup, from: Firing, to: Firing) {
    && to.args == from.args && (from.context !in s.promises ==> to.context == from.context)
    && (from.context in s.promises ==> to.context == s.promises[from.context])
  }

  lemma ResolvedMeans(s: Setup, st: State, i: nat)
    requires Inv(s, st, -1) && st.todo == 0 && Resolved(st, s.result) && i < |s.args|
    ensures Sized(s, st) && ArgResolved(s, st, i) && |st.slots| == |s.args| && IsValueOf(s, st, i, st.slots[i])
  {
    assert ValueAt(s, st, i) && st.pending == {};
    hide PairsInv, RejectInv, ListsInv, ValuesInv;
  }

  /** A pending argument that was resolved still has its slot callback in the list. */
  lemma PendingWaits(s: Setup, st: State, i: nat)
    requires Inv(s, st, -1) && i in st.pending && i < |s.args| && s.args[i].Promise? && Resolved(st, s.args[i].k)
    ensures Slot(i) in st.lists[s.args[i].k].callbacks
  {
    assert SlotAwaits(s, st, i) && s.args[i] in s.args;
    NeverBoth(s, st, s.args[i].k);
    hide PairsInv, RejectInv, ListsInv, ValuesInv, SlotsInv;
  }

  /** The slot callback of no promise is left behind in its list. */
  ghost predicate NoSlotLeft(s: Setup, st: State)
    requires Sized(s, st)
  {
    forall i: nat :: i < |s.args| && s.args[i].Promise? ==> Slot(i) !in st.lists[s.args[i].k].callbacks
  }

  lemma PendingUnresolved(s: Setup, st: State, i: nat)
    requires Inv(s, st, -1) && Sized(s, st) && i in st.pending && NoSlotLeft(s, st)
    ensures i < |s.args| && !ArgResolved(s, st, i)
  {
    assert i < |s.args| && s.args[i].Promise?;
    hide Inv;
    if ArgResolved(s, st, i) {
      PendingWaits(s, st, i);
    }
  }

  lemma SlotsTaken(s: Setup, st: State)
    requires Inv(s, st, -1) && Sized(s, st) && st.todo == 0 && Resolved(st, s.result)
    ensures NoSlotLeft(s, st)
  {
    hide PairsInv, RejectInv, ListsInv, ValuesInv, SlotAwaits;
    assert st.pending == {};
    forall i: nat | i < |s.args| && s.args[i].Promise? ensures Slot(i) !in st.lists[s.args[i].k].callbacks {
      assert s.args[i] in s.args;
      assert SlotPlaced(s, st, s.args[i].k);
    }
  }

  lemma QuietLeavesNone(s: Setup, st: State)
    requires Sized(s, st) && Quiet(s, st) && EveryResolved(s, st)
    ensures NoSlotLeft(s, st)
  {
    forall i: nat | i < |s.args| && s.args[i].Promise? ensures Slot(i) !in st.lists[s.args[i].k].callbacks {
      assert QuietAt(s, st, i) && ArgResolved(s, st, i);
    }
  }

  lemma RejectedMeans(s: Setup, st: State)
    requires Inv(s, st, -1) && Sized(s, st) && Resolved(st, s.pairs + s.result)
    ensures RejectedLikeOne(s, st) && AnyRejected(s, st)
  {
    hide PairsInv, ListsInv, ValuesInv, SlotsInv;
    assert SomeRejectedWith(s, st, st.hist[s.pairs + s.result].first.value);
    var i: nat :| RejectedWith(s, st, i, st.hist[s.pairs + s.result].first.value);
    assert ArgRejected(s, st, i);
  }

  /** Only the partner that has been resolved cancels a list of a Deferred. */
  lemma CancelledBy(s: Setup, st: State, d: nat)
    requires Inv(s, st, -1) && d < 2 * s.pairs && st.lists[d].cancelled
    ensures Resolved(st, s.Partner(d))
  {
    var p := s.Partner(d);
    assert PairInv(s, st, d, -1) && ListInv(st.lists[p], st.hist[p], false);
    hide PairsInv, RejectInv, ListsInv, ValuesInv, SlotsInv;
    assert st.hist[p].heard[0] in st.hist[p].heard;
  }

  lemma NonePending(s: Setup, st: State)
    requires Inv(s, st, -1) && st.todo == 0 && st.pending == {}
    ensures Resolved(st, s.result) || st.lists[s.result].cancelled
  {
    hide PairsInv, RejectInv, ListsInv, ValuesInv;
  }

  /** All promises resolved: the result cannot have been cancelled, so it is resolved. */
  lemma AllResolved(s: Setup, st: State)
    requires Inv(s, st, -1) && Sized(s, st) && st.todo == 0 && NoSlotLeft(s, st) && EveryResolved(s, st)
    ensures Resolved(st, s.result)
  {
    hide Inv, NoSlotLeft, ArgResolved;
    if i: nat :| i in st.pending {
      PendingUnresolved(s, st, i);
      assert false;
    }
    NonePending(s, st);
    if !Resolved(st, s.result) {
      CancelledBy(s, st, s.result);
      RejectedMeans(s, st);
      var i: nat :| i < |s.args| && ArgRejected(s, st, i);
      NotBoth(s, st, i);
    }
  }

  lemma NotBoth(s: Setup, st: State, i: nat)
    requires Inv(s, st, -1) && Sized(s, st) && i < |s.args| && ArgRejected(s, st, i)
    ensures !ArgResolved(s, st, i)
  {
    hide Inv;
    assert s.args[i] in s.args;
    NeverBoth(s, st, s.args[i].k);
  }

  lemma RejectedSettles(s: Setup, st: State, i: nat)
    requires Inv(s, st, -1) && Sized(s, st) && st.rtodo == 0 && Quiet(s, st) && i < |s.args| && ArgRejected(s, st, i)
    ensures Resolved(st, s.pairs + s.result) || st.lists[s.pairs + s.result].cancelled
    ensures !ArgResolved(s, st, i)
  {
    hide PairsInv, SlotsInv, ValuesInv, ListsInv;
    assert s.args[i] in s.args;
    NeverBoth(s, st, s.args[i].k);
    assert QuietAt(s, st, i) && RejectAwaits(s, st, i, -1);
  }

  /** Some promise rejected: the result is rejected. */
  lemma SomeRejected(s: Setup, st: State)
    requires Inv(s, st, -1) && Sized(s, st) && st.todo == st.rtodo == 0 && Quiet(s, st) && AnyRejected(s, st)
    ensures Resolved(st, s.pairs + s.result)
  {
    hide Inv, Quiet, ArgRejected;
    var i: nat :| i < |s.args| && ArgRejected(s, st, i);
    RejectedSettles(s, st, i);
    if !Resolved(st, s.pairs + s.result) {
      CancelledBy(s, st, s.pairs + s.result);
      ResolvedMeans(s, st, i);
    }
  }

  lemma Delivers(s: Setup, st: State)
    requires Inv(s, st, -1) && Sized(s, st) && st.todo == 0 && Resolved(st, s.result)
    ensures Delivered(s, st) && EveryResolved(s, st)
  {
    hide PairsInv, RejectInv, ListsInv, ValuesInv;
    forall i: nat | i < |s.args| ensures ArgResolved(s, st, i) && IsValueOf(s, st, i, st.slots[i]) {
      ResolvedMeans(s, st, i);
    }
  }

  /** Once `when` has returned, its promise is resolved exactly if every promise among the arguments is and their slot callbacks
      have run; with nothing left waiting, it is resolved exactly if all of them are, and rejected exactly if one of them is. */
  lemma WhenExact(s: Setup, st: State)
    requires Inv(s, st, -1) && Sized(s, st) && st.todo == st.rtodo == 0
    ensures Resolved(st, s.result) <==> EveryResolved(s, st) && NoSlotLeft(s, st)
    ensures Quiet(s, st) ==> (Resolved(st, s.result) <==> EveryResolved(s, st))
    ensures Quiet(s, st) ==> (Resolved(st, s.pairs + s.result) <==> AnyRejected(s, st))
    ensures Resolved(st, s.result) ==> Delivered(s, st)
    ensures Resolved(st, s.pairs + s.result) ==> RejectedLikeOne(s, st)
  {
    hide PairsInv, RejectInv, ListsInv, ValuesInv, SlotsInv, Quiet, NoSlotLeft, EveryResolved, AnyRejected, Delivered, RejectedLikeOne;
    if Resolved(st, s.result) {
      Delivers(s, st);
      SlotsTaken(s, st);
    }
    if Resolved(st, s.pairs + s.result) {
      RejectedMeans(s, st);
    }
    if Quiet(s, st) && EveryResolved(s, st) {
      QuietLeavesNone(s, st);
    }
    if EveryResolved(s, st) && NoSlotLeft(s, st) {
      AllResolved(s, st);
    }
    if Quiet(s, st) && AnyRejected(s, st) {
      SomeRejected(s, st);
    }
  }

  // ----- callbacks left unrun

  /** No list is in the middle of firing, as when no call on deferreds is under way. */
  ghost predicate AtRest(st: State) { forall d :: 0 <= d < |st.lists| ==> !st.lists[d].firing }

  /** What stands behind the callback whose exception ended the last firing. */
  ghost function Behind(h: History): seq<Callback>
    requires h.stopped < |h.registered|
  {
    if h.stopped < 0 then [] else h.registered[h.stopped + 1..]
  }

  /** In every reachable state, what waits in a resolved list that is not cancelled is exactly what stands behind the
      callback that threw: something is left unrun exactly if one threw and was not the last. */
  lemma LeftBehind(s: Setup, st: State, d: nat)
    requires Inv(s, st, -1) && d < |st.lists| && st.lists[d].fired.Some? && !st.lists[d].cancelled
    ensures st.hist[d].stopped < |st.hist[d].registered| && st.lists[d].callbacks == Behind(st.hist[d])
    ensures st.lists[d].callbacks != [] <==> st.hist[d].stopped >= 0 && st.hist[d].stopped + 1 < |st.hist[d].registered|
    ensures st.hist[d].stopped >= 0 ==> st.hist[d].stopped + 1 == |st.hist[d].ran|
  {
    var h, l := st.hist[d], st.lists[d];
    assert ListInv(l, h, false);
    if d < 2 * s.pairs { assert PairInv(s, st, d, -1); }
    hide PairsInv, SlotsInv, ValuesInv, RejectInv, ListsInv;
    assert h.registered[|h.ran|..] == l.callbacks;
    if h.stopped < 0 && h.registered == [] {
      assert l.callbacks == [];
    }
  }

  /** Callbacks that return or throw at once: none is left exactly if none but the last throws. */
  lemma {:induction false} LeftUnrun(cbs: seq<Callback>)
    ensures AfterThrow(cbs) == [] <==> forall i :: 0 <= i < |cbs| - 1 ==> !Throws(cbs[i])
  {
    if cbs != [] {
      var rest := cbs[1..];
      LeftUnrun(rest);
      if Throws(cbs[0]) {
      } else if AfterThrow(rest) == [] {
        forall i | 0 <= i < |cbs| - 1 ensures !Throws(cbs[i]) {
          assert i > 0 ==> cbs[i] == rest[i - 1];
        }
      } else {
        var i :| 0 <= i < |rest| - 1 && Throws(rest[i]);
        assert Throws(cbs[i + 1]);
      }
    }
  }

  /** The promise that no callback of a resolved, never cancelled list stays unrun is not kept: an exception ends the firing. */
  method ThrowLeavesUnrun(s: Setup) returns (w: World, d: nat, g: Function)
    requires s.Valid()
    ensures fresh(w) && w.Valid() && d < |w.lists| && !w.lists[d].cancelled && !w.lists[d].firing
    ensures w.lists[d].fired.Some? && w.lists[d].callbacks == [User(g)]
  {
    hide Inv, Fits, SimpleToThrow, AfterThrow;
    w := new World(s, 1);
    d := 2 * s.pairs;
    g := Function(1, []);
    var thrower := Thrower();
    ThrowerFirst(g);
    var threw := w.Done(d, [Fn(thrower), Fn(g)]);
    assert w.lists[d].callbacks == [User(thrower), User(g)];
    UserFits(s, w.St(), d, Firing(Undefined, []));
    Reopen(s, w.St(), d);
    threw := w.ResolveWith(d, Firing(Undefined, []));
    Waiting(s, w.St(), d);
  }

  function Thrower(): Function { Function(0, [Throw]) }

  lemma Waiting(s: Setup, st: State, d: nat)
    requires Inv(s, st, -1) && d < |st.lists| && st.lists[d].callbacks != [] && st.lists[d].fired.Some?
    ensures !st.lists[d].cancelled && !st.lists[d].firing
  {
    assert ListInv(st.lists[d], st.hist[d], false);
    hide PairsInv, SlotsInv, ValuesInv, RejectInv, ListsInv;
  }

  lemma ThrowerFirst(g: Function)
    ensures Flatten([Fn(Thrower()), Fn(g)]) == [User(Thrower()), User(g)]
    ensures SimpleToThrow([User(Thrower()), User(g)]) && AfterThrow([User(Thrower()), User(g)]) == [User(g)]
  {
    assert [Fn(Thrower()), Fn(g)][1..] == [Fn(g)] && [Fn(g)][1..] == [];
    assert Flatten([Fn(g)]) == [User(g)];
    assert [User(Thrower()), User(g)][1..] == [User(g)];
  }

  // ----- whole runs

  /** The slot callback of no promise stands behind a callback that threw. */
  ghost predicate NoSlotBehind(s: Setup, st: State)
    requires Sized(s, st)
  {
    forall i: nat :: i < |s.args| && s.args[i].Promise? ==>
      var h := st.hist[s.args[i].k]; h.stopped < |h.registered| && Slot(i) !in Behind(h)
  }

  /** At rest a resolved list is settled, and what waits there is what stands behind the callback that threw. */
  lemma RestMeans(s: Setup, st: State, k: nat)
    requires Inv(s, st, -1) && AtRest(st) && k < s.pairs && Resolved(st, k)
    ensures st.hist[k].stopped < |st.hist[k].registered| && st.lists[k].callbacks == Behind(st.hist[k])
  {
    assert ListInv(st.lists[k], st.hist[k], false);
    NeverBoth(s, st, k);
    LeftBehind(s, st, k);
  }

  /** At rest, with `when` through: its result is resolved exactly if every promise among the arguments is, and no slot
      callback stands behind a callback that threw. */
  lemma WhenByHistory(s: Setup, st: State)
    requires Inv(s, st, -1) && Sized(s, st) && st.todo == st.rtodo == 0 && AtRest(st)
    ensures Resolved(st, s.result) <==> EveryResolved(s, st) && NoSlotBehind(s, st)
    ensures Resolved(st, s.result) ==> Delivered(s, st)
    ensures Resolved(st, s.pairs + s.result) ==> RejectedLikeOne(s, st)
  {
    WhenExact(s, st);
    hide Delivered, RejectedLikeOne;
    if EveryResolved(s, st) {
      forall i: nat | i < |s.args| && s.args[i].Promise?
        ensures st.hist[s.args[i].k].stopped < |st.hist[s.args[i].k].registered|
                && st.lists[s.args[i].k].callbacks == Behind(st.hist[s.args[i].k])
      {
        assert ArgResolved(s, st, i) && s.args[i] in s.args;
        RestMeans(s, st, s.args[i].k);
      }
    }
    hide Inv, Behind;
  }

  /** Calm callbacks leave nothing waiting in a resolved list. */
  lemma CalmIsQuiet(s: Setup, st: State)
    requires Inv(s, st, -1) && Sized(s, st) && AtRest(st) && Calm(s, st.lists)
    ensures Quiet(s, st)
  {
    forall i: nat | i < |s.args| && s.args[i].Promise? ensures QuietAt(s, st, i) {
      var k := s.args[i].k;
      assert s.args[i] in s.args;
      assert ListInv(st.lists[k], st.hist[k], false) && ListInv(st.lists[s.pairs + k], st.hist[s.pairs + k], false);
      assert CalmList(s, |st.lists|, st.lists[k]) && CalmList(s, |st.lists|, st.lists[s.pairs + k]);
    }
  }

  /** What `when` promises about its result. */
  ghost predicate WhenKept(s: Setup, st: State)
    requires Sized(s, st)
  {
    && (Resolved(st, s.result) <==> EveryResolved(s, st))
    && (Resolved(st, s.pairs + s.result) <==> AnyRejected(s, st))
    && (Resolved(st, s.result) ==> Delivered(s, st))
    && (Resolved(st, s.pairs + s.result) ==> RejectedLikeOne(s, st))
  }

  lemma RestGoesOn(a: State, b: State)
    requires AtRest(a) && Grows(a, b)
    ensures AtRest(b) && |a.lists| == |b.lists|
  {
  }

  /** The part of a program before `when`. */
  method Opening(s: Setup, plain: nat, before: seq<Action>) returns (w: World, threw: bool)
    requires s.Valid()
    ensures fresh(w) && w.s == s && w.Valid() && AtRest(w.St()) && w.todo == w.rtodo == |s.args|
    ensures |w.lists| == |w.hist| == 2 * s.pairs + plain && (!threw ==> AllTook(s, before, w.St()))
    ensures CalmBody(s, 2 * s.pairs + plain, before) ==> !threw && Calm(s, w.lists)
  {
    w := new World(s, plain);
    hide Inv, Calm, CalmBody, Extends, AtRest, AllTook;
    ghost var st := w.St();
    threw := w.RunBody(before);
    Onward(s, st, w.St());
  }

  /** The call of `when`, and the part of the program after it. */
  method Closing(w: World, after: seq<Action>) returns (through: bool, threw: bool)
    requires w.Valid() && AtRest(w.St()) && w.todo == w.rtodo == |w.s.args| && |w.lists| == |w.hist|
    modifies w
    ensures w.Valid() && Sized(w.s, w.St()) && AtRest(w.St()) && Grows(old(w.St()), w.St()) && (through ==> w.todo == w.rtodo == 0)
    ensures |w.lists| == |w.hist| == |old(w.lists)| && (!threw ==> AllTook(w.s, after, w.St()))
    ensures old(Calm(w.s, w.lists)) && CalmBody(w.s, |old(w.lists)|, after) ==> through && !threw && Calm(w.s, w.lists)
  {
    hide Inv, Calm, CalmBody, Extends, Grows, AtRest, AllTook, Sized, Unsettled, Subscribed;
    ghost var start := w.St();
    threw := w.When();
    RestGoesOn(start, w.St());
    ghost var st := w.St();
    through := !threw;
    threw := w.RunBody(after);
    Onward(w.s, st, w.St());
    ExtendsGrows(st, w.St());
    GrowsTransitive(start, st, w.St());
  }

  /** Any program that uses deferreds, calls `when`, and goes on to use deferreds. If `when` gets through, its result is resolved
      exactly if every promise is and no slot callback stands behind a callback that threw; it is resolved with the values of
      the arguments, and rejected with what one of them was rejected with. A part of the program that throws nothing has done all
      it says. If neither part can throw, which can be told from its text, no callback throws in the whole run, nothing
      waits in any resolved list, and `when` keeps all it promises. */
  method Session(s: Setup, plain: nat, before: seq<Action>, after: seq<Action>) returns (w: World, through: bool, threw: (bool, bool))
    requires s.Valid()
    ensures fresh(w) && w.s == s && w.Valid() && Sized(s, w.St()) && AtRest(w.St())
    ensures through ==> (Resolved(w.St(), s.result) <==> EveryResolved(s, w.St()) && NoSlotBehind(s, w.St()))
    ensures through && Resolved(w.St(), s.result) ==> Delivered(s, w.St())
    ensures through && Resolved(w.St(), s.pairs + s.result) ==> RejectedLikeOne(s, w.St())
    ensures (!threw.0 ==> AllTook(s, before, w.St())) && (!threw.1 ==> AllTook(s, after, w.St()))
    ensures CalmBody(s, 2 * s.pairs + plain, before) && CalmBody(s, 2 * s.pairs + plain, after) ==>
              through && !threw.0 && !threw.1 && Calm(s, w.lists) && Quiet(s, w.St()) && WhenKept(s, w.St())
  {
    hide Inv, Calm, CalmBody, Quiet, EveryResolved, NoSlotBehind, Sized, AtRest, WhenKept, Resolved, AllTook, Delivered, RejectedLikeOne;
    var first, second: bool;
    w, first := Opening(s, plain, before);
    ghost var st := w.St();
    through, second := Closing(w, after);
    if !first { AllTookStays(s, before, st, w.St()); }
    threw := (first, second);
    if through {
      WhenByHistory(s, w.St());
    }
    if CalmBody(s, 2 * s.pairs + plain, before) && CalmBody(s, 2 * s.pairs + plain, after) {
      CalmIsQuiet(s, w.St());
      Kept(s, w.St());
    }
  }

  lemma Onward(s: Setup, a: State, b: State)
    requires Inv(s, b, -1) && Extends(a, b) && AtRest(a)
    ensures AtRest(b) && |a.lists| == |b.lists| && Sized(s, b) && a.todo == b.todo && a.rtodo == b.rtodo
  {
    InvSized(s, b, -1);
    RestGoesOn(a, b);
  }

  lemma Kept(s: Setup, st: State)
    requires Inv(s, st, -1) && Sized(s, st) && st.todo == st.rtodo == 0 && Quiet(s, st)
    ensures WhenKept(s, st)
  {
    WhenExact(s, st);
    hide Inv, Quiet;
  }

  // ----- a `when` that never settles

  function OneAndAConstant(): Setup { Setup(2, [Promise(0), Plain(Undefined)], 1, Object(1), map[]) }

  /** The condition cannot be dropped. A throwing callback is added to a Deferred, `when` is called on it and a constant, then
      the Deferred is resolved: every promise among the arguments is resolved, and the result of `when` stays pending, with the
      slot callback left behind the callback that threw. */
  method StalledWhen() returns (w: World)
    ensures fresh(w) && w.s == OneAndAConstant() && w.Valid() && Sized(w.s, w.St())
    ensures w.todo == w.rtodo == 0 && EveryResolved(w.s, w.St()) && !Resolved(w.St(), w.s.result) && !Resolved(w.St(), w.s.pairs + w.s.result)
    ensures w.lists[0].callbacks == [Slot(0)] && !w.lists[0].firing
  {
    var s := OneAndAConstant();
    w := new World(s, 0);
    hide Inv, Fits, Grows, Extends, Calm, Subscribed, Unsettled, SimpleToThrow, AfterThrow, SomeThrows, EveryResolved, Flatten, ArgsSize, Weight;
    ThrowerAlone();
    var threw := w.Done(0, [Fn(Thrower())]);
    ghost var asked := w.St();
    WaitedIs(s, asked);
    threw := w.When();
    ghost var waited := w.St();
    UserFits(s, waited, 0, Firing(Undefined, []));
    Reopen(s, waited, 0);
    threw := w.ResolveWith(0, Firing(Undefined, []));
    ExtendsMeans(waited, w.St(), 0);
    InvSized(s, w.St(), -1);
    Waiting(s, w.St(), 0);
    StalledMeans(s, w.St());
  }

  lemma ThrowerAlone()
    ensures Flatten([Fn(Thrower())]) == [User(Thrower())]
    ensures var cbs := [CancelOther, User(Thrower()), Slot(0)]; SimpleToThrow(cbs) && AfterThrow(cbs) == [Slot(0)]
  {
    assert [Fn(Thrower())][1..] == [];
    var cbs := [CancelOther, User(Thrower()), Slot(0)];
    assert cbs[1..] == [User(Thrower()), Slot(0)] && cbs[1..][1..] == [Slot(0)];
  }

  /** What `when` leaves in the done list of the promise. */
  lemma WaitedIs(s: Setup, st: State)
    requires s == OneAndAConstant() && Sized(s, st) && st.todo == st.rtodo == 2
    requires forall d: nat :: d < 4 ==> st.lists[d].fired.None? && !st.lists[d].cancelled
    requires st.lists[0].callbacks == [CancelOther, User(Thrower())]
    ensures Unsettled(s, st) && Subscribed(s, st, 0).count == 1
    ensures Subscribed(s, st, 0).lists[0] == st.lists[0].(callbacks := [CancelOther, User(Thrower()), Slot(0)])
  {
    assert Subscribed(s, st, 2).count == 2;
    assert Subscribed(s, st, 1) == CountPlain(Subscribed(s, st, 2));
    assert Subscribed(s, st, 0) == AddReject(AddSlot(Subscribed(s, st, 1), 0, 0), 0, 2);
  }

  lemma StalledMeans(s: Setup, st: State)
    requires s == OneAndAConstant() && Inv(s, st, -1) && Sized(s, st) && st.todo == st.rtodo == 0
    requires st.lists[0].callbacks == [Slot(0)] && Resolved(st, 0)
    ensures EveryResolved(s, st) && !Resolved(st, s.result) && !Resolved(st, s.pairs + s.result)
  {
    hide Inv;
    WhenExact(s, st);
    assert Slot(0) in st.lists[s.args[0].k].callbacks;
    if AnyRejected(s, st) {
      var i: nat :| i < |s.args| && ArgRejected(s, st, i);
      NeverBoth(s, st, 0);
    }
  }
}
