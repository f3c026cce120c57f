/** What callbacks of deferred objects amount to before they are run: how much work they can make, which of
    them return or throw at once, and which never throw, whatever they re-enter. */
module DeferredCallbacks {
  import opened DeferredState
  import opened DeferredSteps
  import opened Lex
  import opened Wrappers

  // ----- sizes, for termination: a callback can only add callbacks that occur in it

  function FunctionSize(f: Function): nat { 1 + BodySize(f.body) }

  function BodySize(body: seq<Action>): nat {
    if body == [] then 0 else ActionSize(body[0]) + BodySize(body[1..])
  }

  function ActionSize(a: Action): nat {
    1 + match a case Done(_, args, _) => ArgsSize(args) case _ => 0
  }

  function ArgsSize(args: seq<Arg>): nat {
    if args == [] then 0 else ArgSize(args[0]) + ArgsSize(args[1..])
  }

  function ArgSize(a: Arg): nat {
    match a
    case Fn(f) => FunctionSize(f)
    case Items(args) => ArgsSize(args)
    case Other => 0
  }

  function CallbackSize(cb: Callback): nat {
    match cb case User(f) => FunctionSize(f) case _ => 1
  }

  function QueueSize(cbs: seq<Callback>): nat {
    if cbs == [] then 0 else CallbackSize(cbs[0]) + QueueSize(cbs[1..])
  }

  function Weight(lists: seq<CallbackList>): nat {
    if lists == [] then 0 else QueueSize(lists[0].callbacks) + Weight(lists[1..])
  }

  lemma BodyParts(body: seq<Action>)
    ensures body != [] ==> BodySize(body) == ActionSize(body[0]) + BodySize(body[1..]) && ActionSize(body[0]) > 0
  {
  }

  lemma {:induction false} QueueAppend(a: seq<Callback>, b: seq<Callback>)
    ensures QueueSize(a + b) == QueueSize(a) + QueueSize(b)
  {
    if a == [] {
      assert a + b == b;
    } else {
      assert (a + b)[1..] == a[1..] + b;
      QueueAppend(a[1..], b);
    }
  }

  lemma {:induction false} WeightUpdate(lists: seq<CallbackList>, d: nat, l: CallbackList)
    requires d < |lists|
    ensures Weight(lists[d := l]) == Weight(lists) - QueueSize(lists[d].callbacks) + QueueSize(l.callbacks)
    ensures Weight(lists) >= QueueSize(lists[d].callbacks)
  {
    if d > 0 {
      assert lists[d := l][1..] == lists[1..][d - 1 := l];
      WeightUpdate(lists[1..], d - 1, l);
    } else {
      assert lists[0 := l][1..] == lists[1..];
    }
  }

  /** The functions among the arguments of `done`, those in arrays included. */
  function Flatten(args: seq<Arg>): seq<Callback> {
    if args == [] then [] else FlattenArg(args[0]) + Flatten(args[1..])
  }

  function FlattenArg(a: Arg): seq<Callback> {
    match a
    case Fn(f) => [User(f)]
    case Items(args) => Flatten(args)
    case Other => []
  }

  // ----- in which order: a position is a path of indices through nested arrays

  /** The function at a position. */
  function FnAt(args: seq<Arg>, path: seq<nat>): Option<Function>
    decreases |path|
  {
    if path == [] || path[0] >= |args| then None
    else
      match args[path[0]]
      case Fn(f) => if |path| == 1 then Some(f) else None
      case Items(inner) => FnAt(inner, path[1..])
      case Other => None
  }

  function Under(k: nat, paths: seq<seq<nat>>): (r: seq<seq<nat>>)
    ensures |r| == |paths| && forall i :: 0 <= i < |r| ==> r[i] == [k] + paths[i]
  {
    if paths == [] then [] else [[k] + paths[0]] + Under(k, paths[1..])
  }

  /** The positions of functions, from argument `k` on. */
  function Positions(args: seq<Arg>, k: nat): seq<seq<nat>>
    decreases args, |args| - k, 1
  {
    if k >= |args| then [] else PositionsAt(args, k) + Positions(args, k + 1)
  }

  function PositionsAt(args: seq<Arg>, k: nat): seq<seq<nat>>
    requires k < |args|
    decreases args, |args| - k, 0
  {
    match args[k] case Fn(_) => [[k]] case Items(inner) => Under(k, Positions(inner, 0)) case Other => []
  }

  /** `cbs` are the functions at `paths`, one for one. */
  ghost predicate Listed(args: seq<Arg>, paths: seq<seq<nat>>, cbs: seq<Callback>) {
    && |cbs| == |paths|
    && forall j :: 0 <= j < |cbs| ==> cbs[j].User? && FnAt(args, paths[j]) == Some(cbs[j].f)
  }

  ghost predicate AllOf(args: seq<Arg>, k: nat, ps: seq<seq<nat>>) {
    forall p: seq<nat> :: p != [] && p[0] == k && FnAt(args, p).Some? ==> p in ps
  }

  lemma InnerPositions(args: seq<Arg>, k: nat, inner: seq<Arg>, ps: seq<seq<nat>>)
    requires k < |args| && args[k] == Items(inner) && Increasing(ps) && Listed(inner, ps, Flatten(inner))
    requires forall p: seq<nat> :: p != [] && p[0] >= 0 && FnAt(inner, p).Some? ==> p in ps
    ensures Increasing(Under(k, ps)) && Listed(args, Under(k, ps), Flatten(inner)) && AllOf(args, k, Under(k, ps))
  {
    hide Flatten, Before;
    var under := Under(k, ps);
    forall i, j | 0 <= i < j < |ps| ensures Before(under[i], under[j]) {
      BeforeShift([k], ps[i], ps[j]);
    }
    forall i | 0 <= i < |ps| ensures FnAt(args, under[i]) == FnAt(inner, ps[i]) {
      assert under[i][1..] == ps[i];
    }
    forall p: seq<nat> | p != [] && p[0] == k && FnAt(args, p).Some? ensures p in under {
      assert FnAt(inner, p[1..]).Some? && p == [k] + p[1..];
      assert p[1..] in ps;
      var i :| 0 <= i < |ps| && ps[i] == p[1..];
      assert under[i] == p;
    }
  }

  lemma {:induction false} PositionsOf(args: seq<Arg>, k: nat)
    requires k < |args|
    ensures var ps := PositionsAt(args, k);
            && Increasing(ps) && Listed(args, ps, FlattenArg(args[k])) && (forall p <- ps :: p != [] && p[0] == k)
            && AllOf(args, k, ps)
    decreases args, |args| - k, 0
  {
    match args[k]
    case Fn(f) =>
      forall p: seq<nat> | p != [] && p[0] == k && FnAt(args, p).Some? ensures p == [k] {
      }
    case Items(inner) =>
      PositionsFrom(inner, 0);
      assert inner[0..] == inner;
      InnerPositions(args, k, inner, Positions(inner, 0));
    case Other =>
  }

  lemma {:induction false} PositionsFrom(args: seq<Arg>, k: nat)
    requires k <= |args|
    ensures var ps := Positions(args, k);
            && Increasing(ps) && Listed(args, ps, Flatten(args[k..])) && (forall p <- ps :: p != [] && p[0] >= k)
            && forall p: seq<nat> :: p != [] && p[0] >= k && FnAt(args, p).Some? ==> p in ps
    decreases args, |args| - k, 1
  {
    if k < |args| {
      PositionsOf(args, k);
      PositionsFrom(args, k + 1);
      var here, rest := PositionsAt(args, k), Positions(args, k + 1);
      assert Positions(args, k) == here + rest;
      assert args[k..][0] == args[k] && args[k..][1..] == args[k + 1..];
      assert Flatten(args[k..]) == FlattenArg(args[k]) + Flatten(args[k + 1..]);
      hide FnAt, Positions, PositionsAt, Flatten, FlattenArg;
      forall p, q | p in here && q in rest ensures Before(p, q) {
        BeforeAt(p, q, 0);
      }
    }
  }

  /** `done` adds the functions among its arguments in the order in which they stand there, those of nested arrays in their
      places, and none of them twice. */
  lemma FlattenInOrder(args: seq<Arg>)
    ensures var ps := Positions(args, 0);
            && Increasing(ps) && Listed(args, ps, Flatten(args)) && forall p: seq<nat> :: FnAt(args, p).Some? <==> p in ps
  {
    PositionsFrom(args, 0);
    assert args[0..] == args;
    var ps := Positions(args, 0);
    forall p: seq<nat> | p in ps ensures FnAt(args, p).Some? {
      var i :| 0 <= i < |ps| && ps[i] == p;
    }
  }

  lemma FlattenSize(args: seq<Arg>)
    ensures QueueSize(Flatten(args)) == ArgsSize(args) && UserOnly(Flatten(args))
    decreases args, 1
  {
    if args != [] {
      FlattenArgSize(args[0]);
      FlattenSize(args[1..]);
      QueueAppend(FlattenArg(args[0]), Flatten(args[1..]));
    }
  }

  lemma FlattenArgSize(a: Arg)
    ensures QueueSize(FlattenArg(a)) == ArgSize(a) && UserOnly(FlattenArg(a))
    decreases a, 0
  {
    match a
    case Fn(f) => assert [User(f)][1..] == [];
    case Items(args) => FlattenSize(args);
    case Other =>
  }

  // ----- what a call leaves behind

  /** The call has done what it is for: its functions are registered in their order, the list is resolved, or it is cancelled;
      adding to a cancelled list and resolving it do nothing. A call that is not offered has no effect. */
  ghost predicate Took(s: Setup, a: Action, st: State)
    requires |st.hist| == |st.lists|
  {
    match a
    case Throw => false
    case Done(d, args, _) => d < |st.lists| ==> st.lists[d].cancelled || Contains(st.hist[d].registered, Flatten(args))
    case ResolveWith(d, _, _) =>
      d < |st.lists| && d != s.result && d != s.pairs + s.result ==> st.lists[d].cancelled || st.hist[d].first.Some?
    case Cancel(d) => 2 * s.pairs <= d < |st.lists| ==> st.lists[d].cancelled
  }

  ghost predicate Contains(all: seq<Callback>, part: seq<Callback>) { exists i: nat :: ContainsAt(all, part, i) }

  predicate ContainsAt(all: seq<Callback>, part: seq<Callback>, i: nat) { i + |part| <= |all| && all[i..i + |part|] == part }

  lemma ContainsMore(all: seq<Callback>, part: seq<Callback>, more: seq<Callback>)
    requires (all <= more && Contains(all, part)) || all + part <= more
    ensures Contains(more, part)
  {
    if all + part <= more {
      assert (all + part)[|all|..] == part;
      assert ContainsAt(more, part, |all|);
    } else {
      var i: nat :| ContainsAt(all, part, i);
      assert more[i..i + |part|] == all[i..i + |part|];
      assert ContainsAt(more, part, i);
    }
  }

  lemma TookStays(s: Setup, a: Action, st: State, st': State)
    requires |st.hist| == |st.lists| && Grows(st, st') && Took(s, a, st)
    ensures Took(s, a, st')
  {
    match a
    case Done(d, args, _) =>
      if d < |st.lists| && Contains(st.hist[d].registered, Flatten(args)) {
        ContainsMore(st.hist[d].registered, Flatten(args), st'.hist[d].registered);
      }
    case _ =>
  }

  ghost predicate AllTook(s: Setup, body: seq<Action>, st: State)
    requires |st.hist| == |st.lists|
  {
    forall a <- body :: Took(s, a, st)
  }

  lemma AllTookStays(s: Setup, body: seq<Action>, st: State, st': State)
    requires |st.hist| == |st.lists| && Grows(st, st') && AllTook(s, body, st)
    ensures |st'.hist| == |st'.lists| && AllTook(s, body, st')
  {
    hide Grows, Took;
    assert |st'.hist| == |st'.lists| by { GrowsSized(st, st'); }
    forall a | a in body ensures Took(s, a, st') {
      TookStays(s, a, st, st');
    }
  }

  lemma GrowsSized(st: State, st': State)
    requires Grows(st, st')
    ensures |st'.hist| == |st'.lists|
  {
  }

  lemma DoneTook(s: Setup, st: State, st': State, a: Action)
    requires a.Done? && |st.hist| == |st.lists| && Grows(st, st')
    requires a.list < |st.lists| && !st.lists[a.list].cancelled ==>
               st.hist[a.list].registered + Flatten(a.args) <= st'.hist[a.list].registered
    ensures |st'.hist| == |st'.lists| && Took(s, a, st')
  {
    if a.list < |st.lists| && !st.lists[a.list].cancelled {
      ContainsMore(st.hist[a.list].registered, Flatten(a.args), st'.hist[a.list].registered);
    }
  }

  /** A list that cannot be resolved any more was resolved, or is cancelled. */
  lemma ResolveTook(s: Setup, st: State, st': State, a: Action)
    requires a.ResolveWith? && Inv(s, st, -1) && Grows(st, st')
    requires a.list < |st.lists| && a.list != s.result && a.list != s.pairs + s.result ==>
               (var l := st.lists[a.list];
                !l.cancelled && l.fired.None? && !l.firing ==> st'.hist[a.list].first.Some?)
    ensures |st'.hist| == |st'.lists| && Took(s, a, st')
  {
    if a.list < |st.lists| {
      assert ListInv(st.lists[a.list], st.hist[a.list], false);
    }
    hide PairsInv, SlotsInv, ValuesInv, RejectInv;
  }

  lemma CancelTook(s: Setup, st: State, a: Action)
    requires a.Cancel? && |st.hist| == |st.lists| && a.list < |st.lists| && st.lists[a.list].cancelled
    ensures Took(s, a, st)
  {
  }

  /** `_Deferred()`; the two lists of a Deferred get the `cancel` of the other one as first callback. */
  function NewList(s: Setup, d: int): CallbackList {
    CallbackList(if d < 2 * s.pairs then [CancelOther] else [], None, false, false)
  }

  /** `slice.call( arguments, 0 )`: the promises themselves stand in their slots at first. */
  function Initial(args: seq<Argument>): seq<Value> {
    seq(|args|, i requires 0 <= i < |args| => match args[i] case Plain(v) => v case Promise(k) => Object(k))
  }

  // ----- callbacks that only return or throw

  /** A callback that calls nothing on the lists but what is its own: `cancel` of the partner, or a user
      function that returns or throws at once. */
  predicate Simple(cb: Callback) { cb.CancelOther? || (cb.User? && (cb.f.body == [] || cb.f.body[0] == Throw)) }

  predicate Throws(cb: Callback) { cb.User? && cb.f.body != [] && cb.f.body[0] == Throw }

  /** The callbacks are simple up to the first that throws; what stands behind it may be anything. */
  predicate SimpleToThrow(cbs: seq<Callback>) {
    cbs == [] || (Simple(cbs[0]) && (Throws(cbs[0]) || SimpleToThrow(cbs[1..])))
  }

  /** What stands behind the first callback that throws. */
  function AfterThrow(cbs: seq<Callback>): seq<Callback> {
    if cbs == [] then [] else if Throws(cbs[0]) then cbs[1..] else AfterThrow(cbs[1..])
  }

  predicate SomeThrows(cbs: seq<Callback>) {
    cbs != [] && (Throws(cbs[0]) || SomeThrows(cbs[1..]))
  }

  /** Firing `cbs` leaves `left` and throws or not, as far as that can be told from the callbacks alone. */
  ghost predicate Leaves(cbs: seq<Callback>, left: seq<Callback>, threw: bool) {
    SimpleToThrow(cbs) ==> left == AfterThrow(cbs) && threw == SomeThrows(cbs)
  }

  /** On the way `cbs` have become `now`, and nothing has been thrown. */
  ghost predicate OnTheWay(cbs: seq<Callback>, now: seq<Callback>) {
    SimpleToThrow(cbs) ==> SimpleToThrow(now) && AfterThrow(now) == AfterThrow(cbs) && SomeThrows(now) == SomeThrows(cbs)
  }

  /** One more callback has run. */
  lemma RunNext(cbs: seq<Callback>, now: seq<Callback>, next: seq<Callback>, threw: bool)
    requires OnTheWay(cbs, now) && now != []
    requires Simple(now[0]) ==> next == now[1..] && threw == Throws(now[0])
    ensures if threw then Leaves(cbs, next, true) else OnTheWay(cbs, next)
  {
  }

  lemma NoneLeft(cbs: seq<Callback>)
    ensures OnTheWay(cbs, cbs) && (OnTheWay(cbs, []) ==> Leaves(cbs, [], false))
  {
  }

  // ----- callbacks that never throw, whatever they re-enter

  /** `n` is the number of lists. Calls that are not offered throw, unless that is caught. */
  predicate CalmAction(s: Setup, n: nat, a: Action) {
    match a
    case Done(d, args, caught) => if d < n then CalmArgs(s, n, args) else caught
    case ResolveWith(d, _, caught) => caught || (d < n && d != s.result && d != s.pairs + s.result)
    case Cancel(d) => 2 * s.pairs <= d < n
    case Throw => false
  }

  predicate CalmBody(s: Setup, n: nat, body: seq<Action>) {
    body == [] || (CalmAction(s, n, body[0]) && CalmBody(s, n, body[1..]))
  }

  predicate CalmArgs(s: Setup, n: nat, args: seq<Arg>) {
    args == [] || (CalmArg(s, n, args[0]) && CalmArgs(s, n, args[1..]))
  }

  predicate CalmArg(s: Setup, n: nat, a: Arg) {
    match a
    case Fn(f) => CalmBody(s, n, f.body)
    case Items(args) => CalmArgs(s, n, args)
    case Other => true
  }

  predicate CalmCallback(s: Setup, n: nat, cb: Callback) { cb.User? ==> CalmBody(s, n, cb.f.body) }

  predicate CalmQueue(s: Setup, n: nat, cbs: seq<Callback>) { forall cb <- cbs :: CalmCallback(s, n, cb) }

  /** Nothing that waits, or that it may add, can throw; and nothing waits in a resolved list. */
  predicate Calm(s: Setup, lists: seq<CallbackList>) {
    forall d :: 0 <= d < |lists| ==> CalmList(s, |lists|, lists[d])
  }

  predicate CalmList(s: Setup, n: nat, l: CallbackList) {
    CalmQueue(s, n, l.callbacks) && (l.fired.Some? ==> l.callbacks == [])
  }

  /** Programs that are calm: calls that are offered, one after the other, with functions of that kind, in nested arrays or not. */
  lemma {:induction false} CalmPrograms(s: Setup, n: nat, body: seq<Action>, a: Action)
    requires CalmBody(s, n, body)
    ensures CalmBody(s, n, [])
    ensures a.ResolveWith? && a.list < n && a.list != s.result && a.list != s.pairs + s.result ==> CalmBody(s, n, [a] + body)
    ensures a.Cancel? && 2 * s.pairs <= a.list < n ==> CalmBody(s, n, [a] + body)
    ensures a.Done? && a.list < n && (forall arg <- a.args :: CalmArg(s, n, arg)) ==> CalmBody(s, n, [a] + body)
    ensures forall id :: CalmArg(s, n, Fn(Function(id, body)))
  {
    assert ([a] + body)[1..] == body;
    if a.Done? && forall arg <- a.args :: CalmArg(s, n, arg) { CalmEach(s, n, a.args); }
  }

  lemma {:induction false} CalmEach(s: Setup, n: nat, args: seq<Arg>)
    requires forall arg <- args :: CalmArg(s, n, arg)
    ensures CalmArgs(s, n, args) && CalmArg(s, n, Items(args))
  {
    if args != [] { CalmEach(s, n, args[1..]); }
  }

  lemma CalmPut(s: Setup, lists: seq<CallbackList>, d: nat, l: CallbackList)
    requires Calm(s, lists) && d < |lists| && CalmList(s, |lists|, l)
    ensures Calm(s, lists[d := l])
  {
  }

  lemma CalmBegin(s: Setup, st: State, d: nat, f: Firing)
    requires Calm(s, st.lists) && d < |st.lists| == |st.hist|
    ensures Calm(s, Begin(st, d, f).lists)
  {
    assert CalmList(s, |st.lists|, st.lists[d]);
    CalmPut(s, st.lists, d, st.lists[d].(firing := true));
  }

  lemma CalmEnd(s: Setup, st: State, d: nat, f: Firing)
    requires Calm(s, st.lists) && d < |st.lists| == |st.hist| && st.lists[d].callbacks == []
    ensures Calm(s, End(st, d, f, false).lists)
  {
    CalmPut(s, st.lists, d, st.lists[d].(fired := Some(f), firing := false));
  }

  lemma CalmCancel(s: Setup, st: State, d: nat)
    requires Calm(s, st.lists) && d < |st.lists| == |st.hist|
    ensures Calm(s, CancelList(st, d).lists)
  {
    CalmPut(s, st.lists, d, st.lists[d].(callbacks := [], cancelled := true));
  }

  lemma CalmShift(s: Setup, st: State, d: nat, f: Firing)
    requires Calm(s, st.lists) && d < |st.lists| == |st.hist| && st.lists[d].callbacks != []
    ensures Calm(s, Shift(st, d, f).lists) && CalmCallback(s, |st.lists|, st.lists[d].callbacks[0])
  {
    var l := st.lists[d];
    assert CalmList(s, |st.lists|, l) && l.callbacks[0] in l.callbacks;
    CalmPut(s, st.lists, d, l.(callbacks := l.callbacks[1..]));
  }

  lemma CalmApply(s: Setup, st: State, d: nat, f: Firing)
    requires Calm(s, st.lists) && Sized(s, st) && d < |st.lists| && st.lists[d].callbacks != []
    requires CancelOther in st.lists[d].callbacks ==> d < 2 * s.pairs
    ensures Calm(s, Apply(s, st, d, f).lists) && CalmCallback(s, |st.lists|, st.lists[d].callbacks[0])
  {
    hide Calm;
    var cb := st.lists[d].callbacks[0];
    assert cb in st.lists[d].callbacks;
    CalmShift(s, st, d, f);
    if cb == CancelOther {
      CalmCancel(s, Shift(st, d, f), s.Partner(d));
    }
  }

  lemma CalmPush(s: Setup, st: State, d: nat, cbs: seq<Callback>)
    requires Calm(s, st.lists) && d < |st.lists| == |st.hist| && CalmQueue(s, |st.lists|, cbs)
    ensures Calm(s, Push(st, d, cbs).lists)
  {
    var l := st.lists[d];
    assert CalmList(s, |st.lists|, l);
    CalmPut(s, st.lists, d, l.(callbacks := l.callbacks + cbs, fired := None));
  }

  lemma CalmFlatten(s: Setup, n: nat, args: seq<Arg>)
    requires CalmArgs(s, n, args)
    ensures CalmQueue(s, n, Flatten(args))
    decreases args, 1
  {
    if args != [] {
      CalmFlattenArg(s, n, args[0]);
      CalmFlatten(s, n, args[1..]);
    }
  }

  lemma CalmFlattenArg(s: Setup, n: nat, a: Arg)
    requires CalmArg(s, n, a)
    ensures CalmQueue(s, n, FlattenArg(a))
    decreases a, 0
  {
    match a
    case Fn(f) =>
    case Items(args) => CalmFlatten(s, n, args);
    case Other =>
  }

  // ----- `when` on arguments of which none is resolved or rejected yet

  ghost predicate Unsettled(s: Setup, st: State)
    requires Sized(s, st)
  {
    forall i: nat :: i < |s.args| && s.args[i].Promise? ==> UnsettledAt(s, st, i)
  }

  ghost predicate UnsettledAt(s: Setup, st: State, i: nat)
    requires Sized(s, st) && i < |s.args| && s.args[i].Promise?
  {
    st.lists[s.args[i].k].fired.None? && st.lists[s.pairs + s.args[i].k].fired.None?
  }

  /** Where `when` is when it has got down to argument `i`: every promise from there on has got one slot callback and
      one `deferred.reject`, every other argument has been counted. */
  ghost function Subscribed(s: Setup, st: State, i: nat): (r: State)
    requires Sized(s, st) && st.todo == st.rtodo == |s.args| && i <= |s.args|
    ensures Sized(s, r) && |r.lists| == |st.lists| && r.todo == r.rtodo == i
    decreases |s.args| - i
  {
    if i == |s.args| then st.(slots := Initial(s.args), count := |s.args|)
    else
      var before := Subscribed(s, st, i + 1);
      match s.args[i]
      case Plain(_) => CountPlain(before)
      case Promise(k) => assert s.args[i] in s.args; AddReject(AddSlot(before, i, k), i, s.pairs + k)
  }

  lemma StaysUnsettled(s: Setup, st: State, i: nat, k: nat)
    requires Sized(s, st) && Unsettled(s, st) && k < s.pairs
    ensures Sized(s, AddSlot(st, i, k)) && Unsettled(s, AddSlot(st, i, k))
    ensures Sized(s, AddReject(st, i, s.pairs + k)) && Unsettled(s, AddReject(st, i, s.pairs + k))
  {
    forall j: nat | j < |s.args| && s.args[j].Promise?
      ensures UnsettledAt(s, AddSlot(st, i, k), j) && UnsettledAt(s, AddReject(st, i, s.pairs + k), j)
    {
      assert UnsettledAt(s, st, j);
    }
  }

  lemma CountUnsettled(s: Setup, st: State)
    requires Sized(s, st) && Unsettled(s, st) && st.todo > 0 && st.rtodo > 0
    ensures Unsettled(s, CountPlain(st))
  {
    forall j: nat | j < |s.args| && s.args[j].Promise? ensures UnsettledAt(s, CountPlain(st), j) {
      assert UnsettledAt(s, st, j);
    }
  }

  lemma AttachGrows(st: State, d: nat, i: nat)
    requires d < |st.lists| == |st.hist|
    ensures Grows(st, AddSlot(st, i, d)) && Grows(st, AddReject(st, i, d))
    ensures !st.lists[d].cancelled ==> AddSlot(st, i, d).hist[d].registered == st.hist[d].registered + [Slot(i)]
    ensures !st.lists[d].cancelled ==> AddReject(st, i, d).hist[d].registered == st.hist[d].registered + [RejectResult]
  {
  }

  lemma CalmAttach(s: Setup, st: State, d: nat, i: nat)
    requires Calm(s, st.lists) && d < |st.lists| == |st.hist|
    ensures Calm(s, AddSlot(st, i, d).lists) && Calm(s, AddReject(st, i, d).lists)
  {
    CalmPush(s, st, d, [Slot(i)]);
    CalmPush(s, st, d, [RejectResult]);
  }
}
