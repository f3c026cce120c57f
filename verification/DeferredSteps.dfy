/** Every elementary change of the state of the deferred objects keeps the invariants. */
module DeferredSteps {
  import opened DeferredState
  import opened Wrappers

  ghost predicate Sized(s: Setup, st: State) {
    s.Valid() && |st.hist| == |st.lists| && 2 * s.pairs <= |st.lists|
  }

  lemma InvSized(s: Setup, st: State, open: int)
    requires Inv(s, st, open)
    ensures Sized(s, st)
  {
  }

  /** `open` is over: nothing is called after all. */
  lemma NotResolving(s: Setup, st: State, d: nat, f: Firing)
    requires Inv(s, st, d) && d < |st.lists| && Fits(s, st, d, f) && !Idle(st.lists[d])
    ensures Inv(s, st, -1)
  {
    assert PairsInv(s, st, -1) by {
      forall e: nat | e < 2 * s.pairs ensures PairInv(s, st, e, -1) {
        assert PairInv(s, st, e, d);
      }
    }
    hide PairsInv;
  }

  /** The slots are as they were, and resolutions are not forgotten. */
  lemma SameValues(s: Setup, st: State, st': State)
    requires Sized(s, st) && Sized(s, st') && |st.lists| == |st'.lists| && st'.slots == st.slots && |st.slots| == |s.args|
    requires forall d :: 0 <= d < |st.lists| && st.hist[d].first.Some? ==> st'.hist[d].first == st.hist[d].first
    requires st.pending <= st'.pending
    requires st'.todo == st.todo || (st'.todo == st.todo - 1 < |s.args| && (s.args[st'.todo].Plain? || st'.todo in st'.pending))
    requires ValuesInv(s, st)
    ensures ValuesInv(s, st')
  {
    forall i: nat | i < |s.args| ensures ValueAt(s, st', i) {
      assert ValueAt(s, st, i);
    }
  }

  // ----- begin

  lemma BeginLists(s: Setup, st: State, d: nat, f: Firing)
    requires Sized(s, st) && ListsInv(st, d) && d < |st.lists| && Fits(s, st, d, f) && Idle(st.lists[d])
    ensures ListsInv(Begin(st, d, f), -1)
  {
  }

  lemma BeginPairs(s: Setup, st: State, d: nat, f: Firing)
    requires Sized(s, st) && ListsInv(st, d) && PairsInv(s, st, d) && d < |st.lists| && Fits(s, st, d, f) && Idle(st.lists[d])
    ensures PairsInv(s, Begin(st, d, f), if d < 2 * s.pairs && st.hist[d].ran == [] then d else -1)
    ensures d < 2 * s.pairs && st.hist[d].ran == [] ==> st.lists[d].callbacks != []
  {
    var st', o := Begin(st, d, f), if d < 2 * s.pairs && st.hist[d].ran == [] then d else -1;
    forall e: nat | e < 2 * s.pairs ensures PairInv(s, st', e, o) {
      assert PairInv(s, st, e, d);
    }
    if d < 2 * s.pairs { assert PairInv(s, st, d, d); }
  }

  lemma BeginSlots(s: Setup, st: State, d: nat, f: Firing)
    requires Sized(s, st) && SlotsInv(s, st, d) && ValuesInv(s, st) && d < |st.lists|
    requires Fits(s, st, d, f) && Idle(st.lists[d])
    ensures SlotsInv(s, Begin(st, d, f), -1) && ValuesInv(s, Begin(st, d, f))
  {
    var st' := Begin(st, d, f);
    SameValues(s, st, st');
    forall e: nat | e < |st.lists| ensures SlotPlaced(s, st', e) {
      assert SlotPlaced(s, st, e);
    }
    forall i | i in st.pending ensures SlotAwaits(s, st', i) {
      assert SlotAwaits(s, st, i);
    }
  }

  lemma BeginReject(s: Setup, st: State, d: nat, f: Firing)
    requires Sized(s, st) && RejectInv(s, st, d) && d < |st.lists| && Fits(s, st, d, f) && Idle(st.lists[d])
    ensures RejectInv(s, Begin(st, d, f), -1)
  {
    var st' := Begin(st, d, f);
    SameSource(s, st, st');
    forall i: nat | st.rtodo <= i < |s.args| && s.args[i].Promise? ensures RejectAwaits(s, st', i, -1) {
      assert RejectAwaits(s, st, i, d);
    }
  }

  lemma BeginKeeps(s: Setup, st: State, d: nat, f: Firing)
    requires Inv(s, st, d) && d < |st.lists| && Fits(s, st, d, f) && Idle(st.lists[d])
    ensures Sized(s, Begin(st, d, f)) && Running(s, Begin(st, d, f), d, f)
    ensures d < 2 * s.pairs && st.hist[d].ran == [] ==> st.lists[d].callbacks != []
    ensures st.hist[d].first.Some? ==> st.hist[d].first == Some(f)
  {
    BeginLists(s, st, d, f);
    BeginPairs(s, st, d, f);
    BeginSlots(s, st, d, f);
    BeginReject(s, st, d, f);
    Relax(s, Begin(st, d, f), d);
    hide PairsInv, RejectInv, SlotsInv, ValuesInv, ListsInv;
  }

  /** Nothing open is more than something open. */
  lemma Relax(s: Setup, st: State, d: int)
    requires Sized(s, st)
    ensures ListsInv(st, -1) ==> ListsInv(st, d)
    ensures SlotsInv(s, st, -1) ==> SlotsInv(s, st, d)
    ensures RejectInv(s, st, -1) ==> RejectInv(s, st, d)
    ensures PairsInv(s, st, -1) ==> PairsInv(s, st, d)
  {
    if PairsInv(s, st, -1) {
      forall e: nat | e < 2 * s.pairs ensures PairInv(s, st, e, d) {
        assert PairInv(s, st, e, -1);
      }
    }
  }

  // ----- end

  lemma EndPairs(s: Setup, st: State, d: nat, f: Firing, threw: bool)
    requires Sized(s, st) && PairsInv(s, st, -1) && d < |st.lists| && (threw ==> st.hist[d].ran != [])
    ensures PairsInv(s, End(st, d, f, threw), -1)
  {
    forall e: nat | e < 2 * s.pairs ensures PairInv(s, End(st, d, f, threw), e, -1) {
      assert PairInv(s, st, e, -1);
    }
  }

  lemma EndKeeps(s: Setup, st: State, d: nat, f: Firing, threw: bool)
    requires Running(s, st, d, f) && (d < 2 * s.pairs ==> st.hist[d].ran != [])
    requires if threw then st.hist[d].ran != [] else st.lists[d].callbacks == []
    ensures Inv(s, End(st, d, f, threw), -1) && End(st, d, f, threw).hist[d].first == Some(f)
  {
    EndPairs(s, st, d, f, threw);
    EndOthers(s, st, d, f, threw);
    hide PairsInv, RejectInv, SlotsInv, ValuesInv;
  }

  /** A list goes on firing through whatever its callbacks do. */
  lemma KeepRunning(s: Setup, st: State, st': State, d: nat, f: Firing)
    requires Running(s, st, d, f) && Inv(s, st', -1) && Extends(st, st')
    ensures Running(s, st', d, f) && Sized(s, st') && d < |st'.lists| == |st.lists|
  {
    Relax(s, st', d);
    hide PairsInv, RejectInv, SlotsInv, ValuesInv, ListsInv;
  }

  lemma EndOthers(s: Setup, st: State, d: nat, f: Firing, threw: bool)
    requires Sized(s, st) && SlotsInv(s, st, -1) && ValuesInv(s, st) && RejectInv(s, st, -1) && d < |st.lists|
    requires threw ==> st.hist[d].ran != []
    ensures SlotsInv(s, End(st, d, f, threw), -1) && ValuesInv(s, End(st, d, f, threw)) && RejectInv(s, End(st, d, f, threw), -1)
  {
    var st' := End(st, d, f, threw);
    SameSource(s, st, st');
    SameValues(s, st, st');
    forall e: nat | e < |st.lists| ensures SlotPlaced(s, st', e) {
      assert SlotPlaced(s, st, e);
    }
    forall i | i in st.pending ensures SlotAwaits(s, st', i) {
      assert SlotAwaits(s, st, i);
    }
    forall i: nat | st.rtodo <= i < |s.args| && s.args[i].Promise? ensures RejectAwaits(s, st', i, -1) {
      assert RejectAwaits(s, st, i, -1);
    }
  }

  // ----- a user's additions

  ghost predicate UserOnly(cbs: seq<Callback>) { forall cb <- cbs :: cb.User? }

  lemma PushPairs(s: Setup, st: State, d: nat, cbs: seq<Callback>, o: int)
    requires Sized(s, st) && PairsInv(s, st, -1) && d < |st.lists| && CancelOther !in cbs
    ensures PairsInv(s, Push(st, d, cbs), o)
  {
    forall e: nat | e < 2 * s.pairs ensures PairInv(s, Push(st, d, cbs), e, o) {
      assert PairInv(s, st, e, -1);
    }
  }

  lemma PushLists(s: Setup, st: State, d: nat, cbs: seq<Callback>)
    requires Sized(s, st) && ListsInv(st, -1) && d < |st.lists| && !st.lists[d].cancelled
    ensures ListsInv(Push(st, d, cbs), Window(st, d))
  {
    var h, l := st.hist[d], st.lists[d];
    assert h.registered + cbs == h.ran + (l.callbacks + cbs);
  }

  lemma OnceAppend(a: seq<Callback>, b: seq<Callback>)
    requires SlotsOnce(a) && UserOnly(b)
    ensures SlotsOnce(a + b)
  {
    var c := a + b;
    forall j: nat, j': nat | j < j' < |c| && c[j].Slot? ensures c[j] != c[j'] {
      assert j' >= |a| ==> c[j'] in b;
      assert j >= |a| ==> c[j] in b;
    }
  }

  lemma PushSlots(s: Setup, st: State, d: nat, cbs: seq<Callback>, o: int)
    requires Sized(s, st) && SlotsInv(s, st, -1) && ValuesInv(s, st) && d < |st.lists| && UserOnly(cbs)
    ensures SlotsInv(s, Push(st, d, cbs), o) && ValuesInv(s, Push(st, d, cbs))
  {
    var st' := Push(st, d, cbs);
    SameValues(s, st, st');
    forall e: nat | e < |st.lists| ensures SlotPlaced(s, st', e) {
      assert SlotPlaced(s, st, e) && SlotPlaced(s, st, d);
      OnceAppend(st.lists[d].callbacks, cbs);
    }
    forall i | i in st.pending ensures SlotAwaits(s, st', i) {
      assert SlotAwaits(s, st, i);
    }
  }

  lemma PushReject(s: Setup, st: State, d: nat, cbs: seq<Callback>, o: int)
    requires Sized(s, st) && RejectInv(s, st, -1) && d < |st.lists| && RejectResult !in cbs
    ensures RejectInv(s, Push(st, d, cbs), o)
  {
    var st' := Push(st, d, cbs);
    SameSource(s, st, st');
    forall i: nat | st.rtodo <= i < |s.args| && s.args[i].Promise? ensures RejectAwaits(s, st', i, o) {
      assert RejectAwaits(s, st, i, -1);
    }
  }

  /** Rejections are not forgotten. */
  lemma SameSource(s: Setup, st: State, st': State)
    requires Sized(s, st) && Sized(s, st') && |st.lists| == |st'.lists| && st'.rtodo <= st.rtodo
    requires forall d :: 0 <= d < |st.lists| && st.hist[d].first.Some? ==> st'.hist[d].first == st.hist[d].first
    ensures forall f :: SomeRejectedWith(s, st, f) ==> SomeRejectedWith(s, st', f)
  {
    forall f | SomeRejectedWith(s, st, f) ensures SomeRejectedWith(s, st', f) {
      var i: nat :| RejectedWith(s, st, i, f);
      assert RejectedWith(s, st', i, f);
    }
  }

  lemma PushKeeps(s: Setup, st: State, d: nat, cbs: seq<Callback>)
    requires Inv(s, st, -1) && d < |st.lists| && !st.lists[d].cancelled && UserOnly(cbs)
    ensures Inv(s, Push(st, d, cbs), Window(st, d))
  {
    var o := Window(st, d);
    PushLists(s, st, d, cbs);
    PushPairs(s, st, d, cbs, o);
    PushSlots(s, st, d, cbs, o);
    PushReject(s, st, d, cbs, o);
    hide PairsInv, RejectInv, SlotsInv, ValuesInv, ListsInv;
  }

  // ----- running the next callback

  /** All but the list on which `resolveWith` is to follow is in order. */
  ghost predicate Nearly(s: Setup, st: State, open: int) {
    && s.Valid() && ListsInv(st, -1) && PairsInv(s, st, -1)
    && SlotsInv(s, st, open) && ValuesInv(s, st) && RejectInv(s, st, open)
  }

  function Apply(s: Setup, st: State, d: nat, f: Firing): State
    requires Sized(s, st) && d < |st.lists| && st.lists[d].callbacks != []
    requires CancelOther in st.lists[d].callbacks ==> d < 2 * s.pairs
  {
    Effect(s, Shift(st, d, f), d, f, st.lists[d].callbacks[0])
  }

  /** List `d` is at the top of its loop, resolved with `f`. */
  ghost predicate Running(s: Setup, st: State, d: nat, f: Firing) {
    && Inv(s, st, if d < 2 * s.pairs && d < |st.hist| && st.hist[d].ran == [] then d else -1)
    && ListsInv(st, -1) && SlotsInv(s, st, -1) && RejectInv(s, st, -1)
    && d < |st.lists| && st.lists[d].firing && st.hist[d].first == Some(f)
  }

  lemma ShiftLists(s: Setup, st: State, d: nat, f: Firing)
    requires Sized(s, st) && ListsInv(st, -1) && d < |st.lists| && st.lists[d].callbacks != []
    requires st.lists[d].firing && st.hist[d].first == Some(f)
    ensures ListsInv(Shift(st, d, f), -1)
  {
    var l, h := st.lists[d], st.hist[d];
    assert h.ran + l.callbacks == (h.ran + [l.callbacks[0]]) + l.callbacks[1..];
  }

  lemma CancelLists(s: Setup, st: State, p: nat)
    requires Sized(s, st) && ListsInv(st, -1) && p < |st.lists|
    ensures ListsInv(CancelList(st, p), -1)
  {
  }

  lemma ApplyLists(s: Setup, st: State, d: nat, f: Firing)
    requires Running(s, st, d, f) && st.lists[d].callbacks != []
    ensures CancelOther in st.lists[d].callbacks ==> d < 2 * s.pairs
    ensures ListsInv(Apply(s, st, d, f), -1)
  {
    var cb := st.lists[d].callbacks[0];
    ShiftLists(s, st, d, f);
    if cb == CancelOther {
      assert cb in st.lists[d].callbacks;
      CancelLists(s, Shift(st, d, f), s.Partner(d));
    }
  }

  /** What running the next callback of list `d` changes in list `e`. */
  lemma ApplyAt(s: Setup, st: State, d: nat, f: Firing, e: nat)
    requires Sized(s, st) && d < |st.lists| && st.lists[d].callbacks != [] && e < |st.lists|
    requires CancelOther in st.lists[d].callbacks ==> d < 2 * s.pairs
    ensures var cb, st' := st.lists[d].callbacks[0], Apply(s, st, d, f);
            && |st'.lists| == |st'.hist| == |st.lists|
            && st'.hist[e].registered == st.hist[e].registered && st'.hist[e].first == st.hist[e].first
            && st'.hist[e].ran == st.hist[e].ran + (if e == d then [cb] else [])
            && st'.lists[e].cancelled == (st.lists[e].cancelled || (cb.CancelOther? && e == s.Partner(d)))
            && (CancelOther in st'.lists[e].callbacks ==> CancelOther in st.lists[e].callbacks)
  {
    assert st.lists[d].callbacks[0] in st.lists[d].callbacks;
  }

  lemma ApplyPair(s: Setup, st: State, d: nat, f: Firing, e: nat)
    requires Sized(s, st) && d < |st.lists| && st.lists[d].callbacks != [] && e < 2 * s.pairs
    requires CancelOther in st.lists[d].callbacks ==> d < 2 * s.pairs
    requires var o := if d < 2 * s.pairs && st.hist[d].ran == [] then d else -1;
             PairInv(s, st, e, o) && (d < 2 * s.pairs ==> PairInv(s, st, d, o) && PairInv(s, st, s.Partner(d), o))
    requires ListInv(st.lists[d], st.hist[d], false)
    ensures |Apply(s, st, d, f).lists| == |Apply(s, st, d, f).hist| == |st.lists|
    ensures PairInv(s, Apply(s, st, d, f), e, -1)
  {
    var cb := st.lists[d].callbacks[0];
    assert cb in st.lists[d].callbacks;
    ApplyAt(s, st, d, f, e);
    ApplyAt(s, st, d, f, s.Partner(e));
    hide Apply;
    if d < 2 * s.pairs && st.hist[d].ran == [] && !st.lists[d].cancelled {
      assert st.hist[d].registered == st.hist[d].ran + st.lists[d].callbacks;
      assert cb == CancelOther;
    }
    hide ListInv;
    assert s.Partner(s.Partner(e)) == e;
  }

  lemma ApplyPairs(s: Setup, st: State, d: nat, f: Firing)
    requires Running(s, st, d, f) && st.lists[d].callbacks != []
    requires CancelOther in st.lists[d].callbacks ==> d < 2 * s.pairs
    ensures PairsInv(s, Apply(s, st, d, f), -1)
  {
    hide SlotsInv, ValuesInv, RejectInv, PairInv, ListInv, Apply;
    ApplyAt(s, st, d, f, d);
    forall e: nat | e < 2 * s.pairs ensures PairInv(s, Apply(s, st, d, f), e, -1) {
      ApplyPair(s, st, d, f, e);
    }
    forall e: nat | 2 * s.pairs <= e < |st.lists| ensures CancelOther !in Apply(s, st, d, f).lists[e].callbacks {
      ApplyAt(s, st, d, f, e);
    }
  }

  lemma ShiftPlaced(s: Setup, st: State, d: nat, f: Firing, e: nat)
    requires Sized(s, st) && d < |st.lists| && st.lists[d].callbacks != [] && e < |st.lists|
    requires |st.slots| == |s.args| && (CancelOther in st.lists[d].callbacks ==> d < 2 * s.pairs)
    requires SlotPlaced(s, st, d) && SlotPlaced(s, st, e)
    ensures SlotPlaced(s, Apply(s, st, d, f), e)
  {
    Rest(st.lists[d].callbacks);
    assert st.lists[d].callbacks[0] in st.lists[d].callbacks;
  }

  lemma ShiftAwaits(s: Setup, st: State, d: nat, f: Firing, i: nat)
    requires Sized(s, st) && d < |st.lists| && st.lists[d].callbacks != [] && i < |s.args| && s.args[i].Promise?
    requires CancelOther in st.lists[d].callbacks ==> d < 2 * s.pairs
    requires SlotAwaits(s, st, i) && st.lists[d].callbacks[0] != Slot(i)
    ensures SlotAwaits(s, Apply(s, st, d, f), i)
  {
  }

  /** What taking the callback changes about the slots. */
  lemma ShiftTakes(s: Setup, st: State, d: nat, f: Firing)
    requires Sized(s, st) && SlotsInv(s, st, -1) && d < |st.lists| && st.lists[d].callbacks != []
    requires CancelOther in st.lists[d].callbacks ==> d < 2 * s.pairs
    ensures var cb, st' := st.lists[d].callbacks[0], Apply(s, st, d, f);
            && |st'.slots| == |st.slots| && st'.todo == st.todo && |st'.lists| == |st'.hist| == |st.lists|
            && (forall e :: 0 <= e < |st.hist| ==> st'.hist[e].first == st.hist[e].first)
            && (forall e :: 0 <= e < |st.lists| && st.lists[e].cancelled ==> st'.lists[e].cancelled)
            && (!cb.Slot? ==> st'.slots == st.slots && st'.pending == st.pending && st'.count == st.count)
            && (cb.Slot? ==> cb.i < |s.args| && s.args[cb.i] == Promise(d) && cb.i in st.pending)
            && (cb.Slot? ==> st'.pending == st.pending - {cb.i} && st'.count == st.count - 1)
            && (cb.Slot? ==> st'.slots == st.slots[cb.i := Pack(f.args)])
  {
    assert SlotPlaced(s, st, d) && st.lists[d].callbacks[0] in st.lists[d].callbacks;
  }

  lemma ShiftValues(s: Setup, st: State, d: nat, f: Firing)
    requires Sized(s, st) && SlotsInv(s, st, -1) && ValuesInv(s, st) && d < |st.lists| && st.lists[d].callbacks != []
    requires st.hist[d].first == Some(f) && (CancelOther in st.lists[d].callbacks ==> d < 2 * s.pairs)
    ensures |Apply(s, st, d, f).slots| == |s.args| && |Apply(s, st, d, f).hist| == |Apply(s, st, d, f).lists| == |st.lists|
    ensures ValuesInv(s, Apply(s, st, d, f))
  {
    var st' := Apply(s, st, d, f);
    ShiftTakes(s, st, d, f);
    hide Apply, SlotPlaced, SlotAwaits;
    forall i: nat | i < |s.args| ensures ValueAt(s, st', i) {
      assert ValueAt(s, st, i);
    }
  }

  lemma ShiftSlots(s: Setup, st: State, d: nat, f: Firing)
    requires Sized(s, st) && SlotsInv(s, st, -1) && d < |st.lists| && st.lists[d].callbacks != []
    requires st.hist[d].first == Some(f) && (CancelOther in st.lists[d].callbacks ==> d < 2 * s.pairs)
    ensures var st' := Apply(s, st, d, f);
            |st'.hist| == |st'.lists| == |st.lists| && SlotsInv(s, st', Follow(s, st.lists[d].callbacks[0]))
  {
    var cb, st' := st.lists[d].callbacks[0], Apply(s, st, d, f);
    ShiftTakes(s, st, d, f);
    hide Apply, SlotPlaced, SlotAwaits;
    forall e: nat | e < |st.lists| ensures SlotPlaced(s, st', e) {
      ShiftPlaced(s, st, d, f, e);
    }
    forall i | i in st'.pending ensures SlotAwaits(s, st', i) {
      ShiftAwaits(s, st, d, f, i);
    }
  }

  /** The first callback does not come again if it is a slot callback. */
  lemma Rest(cbs: seq<Callback>)
    requires cbs != [] && SlotsOnce(cbs)
    ensures SlotsOnce(cbs[1..]) && (cbs[0].Slot? ==> cbs[0] !in cbs[1..])
  {
    forall j: nat, j': nat | j < j' < |cbs[1..]| && cbs[1..][j].Slot? ensures cbs[1..][j] != cbs[1..][j'] {
      assert cbs[1..][j] == cbs[j + 1] && cbs[1..][j'] == cbs[j' + 1];
    }
  }

  lemma ApplyRejectAwaits(s: Setup, st: State, d: nat, f: Firing, i: nat)
    requires Sized(s, st) && d < |st.lists| && st.lists[d].callbacks != [] && i < |s.args| && s.args[i].Promise?
    requires CancelOther in st.lists[d].callbacks ==> d < 2 * s.pairs
    requires RejectAwaits(s, st, i, -1)
    ensures |Apply(s, st, d, f).lists| == |Apply(s, st, d, f).hist| == |st.lists|
    ensures RejectAwaits(s, Apply(s, st, d, f), i, Follow(s, st.lists[d].callbacks[0]))
  {
  }

  lemma ApplyReject(s: Setup, st: State, d: nat, f: Firing)
    requires Sized(s, st) && RejectInv(s, st, -1) && d < |st.lists| && st.lists[d].callbacks != []
    requires CancelOther in st.lists[d].callbacks ==> d < 2 * s.pairs
    ensures |Apply(s, st, d, f).lists| == |Apply(s, st, d, f).hist| == |st.lists|
    ensures RejectInv(s, Apply(s, st, d, f), Follow(s, st.lists[d].callbacks[0]))
  {
    hide RejectAwaits;
    var st', o := Apply(s, st, d, f), Follow(s, st.lists[d].callbacks[0]);
    SameSource(s, st, st');
    forall i: nat | st.rtodo <= i < |s.args| && s.args[i].Promise? ensures RejectAwaits(s, st', i, o) {
      ApplyRejectAwaits(s, st, d, f, i);
    }
  }

  lemma ApplyKeeps(s: Setup, st: State, d: nat, f: Firing)
    requires Running(s, st, d, f) && st.lists[d].callbacks != []
    ensures Sized(s, st) && (CancelOther in st.lists[d].callbacks ==> d < 2 * s.pairs)
    ensures st.lists[d].callbacks[0].Slot? ==> st.lists[d].callbacks[0].i < |st.slots|
    ensures Nearly(s, Apply(s, st, d, f), Follow(s, st.lists[d].callbacks[0]))
    ensures st.lists[d].callbacks[0] == RejectResult ==> Watched(s, Apply(s, st, d, f).rtodo, d)
    ensures |Apply(s, st, d, f).hist| == |st.hist| && Apply(s, st, d, f).hist[d].first == Some(f)
  {
    assert st.lists[d].callbacks[0] in st.lists[d].callbacks;
    if st.lists[d].callbacks[0].Slot? {
      assert SlotPlaced(s, st, d) && st.lists[d].callbacks[0] in st.lists[d].callbacks;
    }
    ApplyLists(s, st, d, f);
    ApplyPairs(s, st, d, f);
    ShiftSlots(s, st, d, f);
    ShiftValues(s, st, d, f);
    ApplyReject(s, st, d, f);
    hide SlotsInv, ValuesInv, RejectInv;
  }

  lemma NearlyIsInv(s: Setup, st: State, open: int)
    requires Nearly(s, st, open)
    ensures Inv(s, st, open)
  {
    Relax(s, st, open);
    hide SlotsInv, ValuesInv, RejectInv;
  }

  /** The last slot callback may resolve the result; an earlier one leaves everything in order. */
  lemma SlotFits(s: Setup, st: State)
    requires Nearly(s, st, s.result)
    ensures st.count != 0 ==> Nearly(s, st, -1)
    ensures st.count == 0 ==> Fits(s, st, s.result, Firing(s.promise, st.slots))
  {
    assert PairInv(s, st, s.result, -1);
    hide SlotPlaced, SlotAwaits, PairInv;
    if st.count != 0 {
      forall i: nat | st.rtodo <= i < |s.args| && s.args[i].Promise? ensures RejectAwaits(s, st, i, -1) {
        assert RejectAwaits(s, st, i, s.result);
      }
    }
  }

  /** The reject callback may reject the result. */
  lemma RejectFits(s: Setup, st: State, d: nat, f: Firing)
    requires Nearly(s, st, s.pairs + s.result) && Watched(s, st.rtodo, d) && d < |st.hist| && st.hist[d].first == Some(f)
    ensures Fits(s, st, s.pairs + s.result, s.Forward(f))
  {
    var i :| st.rtodo <= i < |s.args| && s.args[i].Promise? && d == s.pairs + s.args[i].k;
    assert RejectedWith(s, st, i, s.Forward(f));
    assert PairInv(s, st, s.pairs + s.result, -1);
    hide SlotsInv, ValuesInv, RejectInv;
  }

  /** A user may resolve any list but those of the result of `when`. */
  lemma UserFits(s: Setup, st: State, d: nat, f: Firing)
    requires Inv(s, st, -1) && d < |st.lists| && d != s.result && d != s.pairs + s.result
    ensures Fits(s, st, d, f)
  {
    if d < 2 * s.pairs { assert PairInv(s, st, d, -1); }
    hide SlotsInv, ValuesInv, RejectInv;
  }

  // ----- a user's cancel

  lemma CancelKeeps(s: Setup, st: State, d: nat)
    requires Inv(s, st, -1) && 2 * s.pairs <= d < |st.lists|
    ensures Inv(s, CancelList(st, d), -1) && Extends(st, CancelList(st, d))
  {
    var st' := CancelList(st, d);
    CancelLists(s, st, d);
    assert PairsInv(s, st', -1) by {
      forall e: nat | e < 2 * s.pairs ensures PairInv(s, st', e, -1) {
        assert PairInv(s, st, e, -1);
      }
    }
    CancelOthers(s, st, d);
    hide SlotsInv, ValuesInv, RejectInv;
  }

  lemma CancelOthers(s: Setup, st: State, d: nat)
    requires Sized(s, st) && SlotsInv(s, st, -1) && ValuesInv(s, st) && RejectInv(s, st, -1) && d < |st.lists|
    ensures SlotsInv(s, CancelList(st, d), -1) && ValuesInv(s, CancelList(st, d)) && RejectInv(s, CancelList(st, d), -1)
  {
    var st' := CancelList(st, d);
    SameSource(s, st, st');
    SameValues(s, st, st');
    forall e: nat | e < |st.lists| ensures SlotPlaced(s, st', e) {
      assert SlotPlaced(s, st, e);
    }
    forall i | i in st.pending ensures SlotAwaits(s, st', i) {
      assert SlotAwaits(s, st, i);
    }
    forall i: nat | st.rtodo <= i < |s.args| && s.args[i].Promise? ensures RejectAwaits(s, st', i, -1) {
      assert RejectAwaits(s, st, i, -1);
    }
  }

  // ----- the steps of `when`

  lemma PlainKeeps(s: Setup, st: State)
    requires Inv(s, st, -1) && 0 < st.todo == st.rtodo && s.args[st.todo - 1].Plain?
    ensures Nearly(s, CountPlain(st), s.result)
  {
    var st' := CountPlain(st);
    assert PairsInv(s, st', -1) by {
      forall e: nat | e < 2 * s.pairs ensures PairInv(s, st', e, -1) {
        assert PairInv(s, st, e, -1);
      }
    }
    SameValues(s, st, st');
    assert SlotsInv(s, st', s.result) by {
      forall e: nat | e < |st.lists| ensures SlotPlaced(s, st', e) {
        assert SlotPlaced(s, st, e);
      }
      forall i | i in st.pending ensures SlotAwaits(s, st', i) {
        assert SlotAwaits(s, st, i);
      }
      hide PairsInv, RejectInv, ListsInv;
    }
    PlainReject(s, st);
    hide PairsInv, SlotsInv, ValuesInv, RejectInv;
  }

  lemma WatchedMore(s: Setup, r: nat, r': nat)
    requires r' <= r
    ensures forall d: nat :: Watched(s, r, d) ==> Watched(s, r', d)
  {
  }

  lemma PlainReject(s: Setup, st: State)
    requires Sized(s, st) && RejectInv(s, st, -1) && 0 < st.todo == st.rtodo <= |s.args| && s.args[st.todo - 1].Plain?
    ensures RejectInv(s, CountPlain(st), s.result)
  {
    var st' := CountPlain(st);
    SameSource(s, st, st');
    WatchedMore(s, st.rtodo, st'.rtodo);
    forall i: nat | st'.rtodo <= i < |s.args| && s.args[i].Promise? ensures RejectAwaits(s, st', i, s.result) {
      assert RejectAwaits(s, st, i, -1);
    }
  }

  /** Adding a callback that is not `cancel`, and moving on in `when`, leaves lists and pairs in order. */
  lemma AddLists(s: Setup, st: State, d: nat, cb: Callback, st': State)
    requires Sized(s, st) && ListsInv(st, -1) && PairsInv(s, st, -1) && d < |st.lists| && cb != CancelOther
    requires st'.lists == (if st.lists[d].cancelled then st.lists else Push(st, d, [cb]).lists)
    requires st'.hist == (if st.lists[d].cancelled then st.hist else Push(st, d, [cb]).hist)
    ensures ListsInv(st', Window(st, d)) && PairsInv(s, st', Window(st, d))
  {
    var o := Window(st, d);
    if !st.lists[d].cancelled { PushLists(s, st, d, [cb]); }
    forall e: nat | e < 2 * s.pairs ensures PairInv(s, st', e, o) {
      assert PairInv(s, st, e, -1);
    }
  }

  lemma AddSlotKeeps(s: Setup, st: State, k: nat)
    requires Inv(s, st, -1) && 0 < st.todo == st.rtodo <= |s.args| && s.args[st.todo - 1] == Promise(k)
    ensures Inv(s, AddSlot(st, st.todo - 1, k), Window(st, k))
  {
    hide PairsInv, SlotsInv, ValuesInv, RejectInv, ListsInv;
    InPlace(s, st, st.todo - 1, k);
    AddLists(s, st, k, Slot(st.todo - 1), AddSlot(st, st.todo - 1, k));
    AddSlotSlots(s, st, k);
    AddSlotReject(s, st, k);
  }

  lemma InPlace(s: Setup, st: State, i: nat, k: nat)
    requires Inv(s, st, -1) && i < |s.args| && s.args[i] == Promise(k)
    ensures Sized(s, st) && k < s.pairs && s.pairs + k < |st.lists| && st.todo <= |s.args|
  {
    assert s.args[i] in s.args;
  }

  lemma AddSlotReject(s: Setup, st: State, k: nat)
    requires Sized(s, st) && RejectInv(s, st, -1) && 0 < st.todo && k < |st.lists|
    ensures RejectInv(s, AddSlot(st, st.todo - 1, k), Window(st, k))
  {
    var st' := AddSlot(st, st.todo - 1, k);
    SameSource(s, st, st');
    forall i: nat | st.rtodo <= i < |s.args| && s.args[i].Promise? ensures RejectAwaits(s, st', i, Window(st, k)) {
      assert RejectAwaits(s, st, i, -1);
    }
  }

  lemma SlotAppend(cbs: seq<Callback>, i: nat)
    requires SlotsOnce(cbs) && Slot(i) !in cbs
    ensures SlotsOnce(cbs + [Slot(i)])
  {
  }

  lemma AddSlotPlaced(s: Setup, st: State, k: nat, e: nat)
    requires Sized(s, st) && 0 < st.todo <= |s.args| && s.args[st.todo - 1] == Promise(k) && e < |st.lists|
    requires SlotPlaced(s, st, e) && st.todo - 1 !in st.pending
    ensures SlotPlaced(s, AddSlot(st, st.todo - 1, k), e)
  {
    if e == k && !st.lists[k].cancelled {
      SlotAppend(st.lists[k].callbacks, st.todo - 1);
    }
  }

  lemma AddSlotAwaits(s: Setup, st: State, k: nat, j: nat)
    requires Sized(s, st) && 0 < st.todo <= |s.args| && s.args[st.todo - 1] == Promise(k)
    requires j < |s.args| && s.args[j].Promise? && (j == st.todo - 1 || SlotAwaits(s, st, j))
    ensures SlotAwaits(s, AddSlot(st, st.todo - 1, k), j)
  {
  }

  lemma AddSlotSlots(s: Setup, st: State, k: nat)
    requires Sized(s, st) && SlotsInv(s, st, -1) && ValuesInv(s, st)
    requires 0 < st.todo && s.args[st.todo - 1] == Promise(k)
    ensures SlotsInv(s, AddSlot(st, st.todo - 1, k), Window(st, k)) && ValuesInv(s, AddSlot(st, st.todo - 1, k))
  {
    hide SlotPlaced, SlotAwaits;
    var i, st' := st.todo - 1, AddSlot(st, st.todo - 1, k);
    assert i !in st.pending;
    SameValues(s, st, st');
    forall e: nat | e < |st.lists| ensures SlotPlaced(s, st', e) {
      AddSlotPlaced(s, st, k, e);
    }
    forall j | j in st'.pending ensures SlotAwaits(s, st', j) {
      AddSlotAwaits(s, st, k, j);
    }
  }

  lemma AddRejectKeeps(s: Setup, st: State, k: nat)
    requires Inv(s, st, -1) && 0 < st.rtodo == st.todo + 1 <= |s.args| && s.args[st.todo] == Promise(k)
    ensures Inv(s, AddReject(st, st.todo, s.pairs + k), Window(st, s.pairs + k))
  {
    hide PairsInv, SlotsInv, ValuesInv, RejectInv, ListsInv;
    InPlace(s, st, st.todo, k);
    AddLists(s, st, s.pairs + k, RejectResult, AddReject(st, st.todo, s.pairs + k));
    AddRejectSlots(s, st, k);
    AddRejectReject(s, st, k);
  }

  lemma AddRejectSlots(s: Setup, st: State, k: nat)
    requires Sized(s, st) && SlotsInv(s, st, -1) && ValuesInv(s, st) && st.todo < |s.args| && k < s.pairs
    ensures var d := s.pairs + k;
            SlotsInv(s, AddReject(st, st.todo, d), Window(st, d)) && ValuesInv(s, AddReject(st, st.todo, d))
  {
    var d, st' := s.pairs + k, AddReject(st, st.todo, s.pairs + k);
    SameValues(s, st, st');
    forall e: nat | e < |st.lists| ensures SlotPlaced(s, st', e) {
      assert SlotPlaced(s, st, e);
      RejectAppend(st.lists[d].callbacks);
    }
    forall j | j in st'.pending ensures SlotAwaits(s, st', j) {
      assert SlotAwaits(s, st, j);
    }
    hide SlotPlaced, SlotAwaits;
  }

  lemma RejectAppend(cbs: seq<Callback>)
    ensures SlotsOnce(cbs) ==> SlotsOnce(cbs + [RejectResult])
  {
  }

  lemma AddRejectAwaits(s: Setup, st: State, k: nat, i: nat)
    requires Sized(s, st) && st.todo < |s.args| && s.args[st.todo] == Promise(k) && i < |s.args| && s.args[i].Promise?
    requires i == st.todo || RejectAwaits(s, st, i, -1)
    requires k < s.pairs
    ensures RejectAwaits(s, AddReject(st, st.todo, s.pairs + k), i, Window(st, s.pairs + k))
  {
  }

  lemma AddRejectReject(s: Setup, st: State, k: nat)
    requires Sized(s, st) && RejectInv(s, st, -1) && st.rtodo == st.todo + 1 && k < s.pairs
    requires st.todo < |s.args| && s.args[st.todo] == Promise(k)
    ensures RejectInv(s, AddReject(st, st.todo, s.pairs + k), Window(st, s.pairs + k))
  {
    hide RejectAwaits;
    var d, st', o := s.pairs + k, AddReject(st, st.todo, s.pairs + k), Window(st, s.pairs + k);
    SameSource(s, st, st');
    WatchedMore(s, st.rtodo, st'.rtodo);
    assert Watched(s, st'.rtodo, d);
    hide Watched;
    forall i: nat | st'.rtodo <= i < |s.args| && s.args[i].Promise? ensures RejectAwaits(s, st', i, o) {
      AddRejectAwaits(s, st, k, i);
    }
  }

  // ----- what the steps leave standing

  lemma ApplyExtends(s: Setup, st: State, d: nat, f: Firing)
    requires Sized(s, st) && d < |st.lists| && st.lists[d].callbacks != []
    requires CancelOther in st.lists[d].callbacks ==> d < 2 * s.pairs
    ensures Extends(st, Apply(s, st, d, f))
    ensures Apply(s, st, d, f).hist[d].ran == st.hist[d].ran + [st.lists[d].callbacks[0]]
    ensures var cb := st.lists[d].callbacks[0];
            cb.CancelOther? || cb.User? ==> Apply(s, st, d, f).lists[d].callbacks == st.lists[d].callbacks[1..]
  {
  }

  lemma PushExtends(st: State, d: nat, cbs: seq<Callback>)
    requires d < |st.lists| == |st.hist|
    ensures Extends(st, Push(st, d, cbs))
  {
  }

  lemma ExtendsMeans(a: State, b: State, d: nat)
    requires Extends(a, b) && d < |a.lists|
    ensures |a.lists| == |b.lists| == |a.hist| == |b.hist| && |a.hist[d].ran| <= |b.hist[d].ran|
    ensures a.todo == b.todo && a.rtodo == b.rtodo
    ensures a.hist[d].registered <= b.hist[d].registered
  {
  }

  /** From before the first callback to after the last. */
  lemma ResolveExtends(st: State, st': State, d: nat, f: Firing, threw: bool)
    requires d < |st.lists| == |st.hist| && Idle(st.lists[d]) && (st.hist[d].first.Some? ==> st.hist[d].first == Some(f))
    requires d < |st'.lists| == |st'.hist| && Extends(Begin(st, d, f), st')
    requires threw ==> st'.hist[d].ran != []
    ensures Extends(st, End(st', d, f, threw))
  {
  }

  /** `done` hands back what it took from `fired`. */
  lemma WindowFits(s: Setup, st: State, d: nat, cbs: seq<Callback>, st': State)
    requires Inv(s, st, -1) && d < |st.lists| && !st.lists[d].cancelled && st.lists[d].fired.Some?
    requires st'.lists == Push(st, d, cbs).lists && st'.hist == Push(st, d, cbs).hist && Sized(s, st')
    ensures Fits(s, st', d, st.lists[d].fired.value) && Idle(st'.lists[d])
  {
    if d < 2 * s.pairs { assert PairInv(s, st, d, -1); }
    hide SlotsInv, ValuesInv, RejectInv, PairsInv;
  }
}
