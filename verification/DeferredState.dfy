/** The state of jQuery's deferred objects: callback lists, the pairs of lists behind a Deferred,
    and one `when` call; with what every reachable state keeps. */
module DeferredState {
  import opened Wrappers

  datatype Value = Undefined | Atom(n: int) | Array(items: seq<Value>) | Object(id: nat)

  /** A user's function, described by the calls it makes on deferreds when it is run. */
  datatype Function = Function(id: nat, body: seq<Action>)

  /** An argument of `done`: a function, an array of arguments, or something that is ignored. */
  datatype Arg = Fn(f: Function) | Items(args: seq<Arg>) | Other

  /** One thing user code does. `caught` says that it catches what the call throws. */
  datatype Action =
    | Done(list: nat, args: seq<Arg>, caught: bool)
    | ResolveWith(list: nat, with: Firing, caught: bool)
    | Cancel(list: nat)
    | Throw

  /** What a callback list holds: user functions; the `cancel` of the other list of a Deferred;
      `iCallback(i)` and `deferred.reject` of a `when` call. */
  datatype Callback = User(f: Function) | CancelOther | Slot(i: nat) | RejectResult

  /** The `[ context, args ]` of a resolution. */
  datatype Firing = Firing(context: Value, args: seq<Value>)

  datatype CallbackList = CallbackList(callbacks: seq<Callback>, fired: Option<Firing>, firing: bool, cancelled: bool)

  /** What has happened to a list: the callbacks ever added, those run so far, what each of these was
      run with, the first resolution, and which of those run ended the last firing with an exception, -1 if none. */
  datatype History = History(registered: seq<Callback>, ran: seq<Callback>, heard: seq<Firing>, first: Option<Firing>,
                             stopped: int)

  datatype Argument = Plain(value: Value) | Promise(k: nat)

  /** `pairs` Deferreds, number `k` made of the done list `k` and the fail list `pairs + k`; any further
      lists are plain `_Deferred`s. `when` is called on `args` and settles Deferred
      `result`, whose promise is `promise`; `promises` maps the objects that have a `promise` method to what it returns. */
  datatype Setup = Setup(pairs: nat, args: seq<Argument>, result: nat, promise: Value, promises: map<Value, Value>) {
    predicate Valid() {
      && result < pairs && |args| >= 2
      && forall a <- args :: a.Promise? ==> a.k < pairs && a.k != result
    }

    function Partner(d: nat): nat
      requires d < 2 * pairs
    {
      if d < pairs then d + pairs else d - pairs
    }

    /** The context `resolve` uses when it is called on `v`: its promise, if it has a `promise` method. */
    function Own(v: Value): Value { if v in promises then promises[v] else v }

    /** What `resolve`, as a callback, resolves with. */
    function Forward(f: Firing): Firing { Firing(Own(f.context), f.args) }

    predicate IsPromise(i: nat, d: nat) { i < |args| && args[i] == Promise(d) }
  }

  /** `todo`: arguments of `when` below this index are unprocessed; `rtodo`: their fail callback is not
      added yet; `pending`: processed promises that have not delivered. */
  datatype State = State(lists: seq<CallbackList>, hist: seq<History>, slots: seq<Value>, count: int,
                         todo: nat, rtodo: nat, pending: set<nat>)

  /** What `iCallback` stores. */
  function Pack(args: seq<Value>): Value {
    if |args| > 1 then Array(args) else if |args| == 1 then args[0] else Undefined
  }

  // ----- invariants. `open` is a list on which `resolveWith` is about to be called from inside, -1 if none

  /** Callbacks run in the order they were added, each once, all with the first resolution. A firing ends with
      nothing left, or right behind the callback that threw. */
  ghost predicate ListInv(l: CallbackList, h: History, open: bool) {
    && (if l.cancelled then l.callbacks == [] && h.ran <= h.registered else h.registered == h.ran + l.callbacks)
    && |h.heard| == |h.ran| && (forall f <- h.heard :: h.first == Some(f))
    && (l.fired.Some? ==> l.fired == h.first && !l.firing)
    && (l.firing ==> h.first.Some?)
    && (h.first.Some? ==> open || l.fired.Some? || l.firing)
    && (l.fired.Some? && !l.cancelled ==> if h.stopped < 0 then l.callbacks == [] else h.stopped + 1 == |h.ran|)
  }

  ghost predicate ListsInv(st: State, open: int) {
    && |st.hist| == |st.lists|
    && forall d :: 0 <= d < |st.lists| ==> ListInv(st.lists[d], st.hist[d], d == open)
  }

  /** A list of a Deferred starts by cancelling its partner, and is cancelled once the partner has run anything. */
  ghost predicate PairInv(s: Setup, st: State, d: nat, open: int)
    requires d < 2 * s.pairs <= |st.lists| == |st.hist|
  {
    var h, p := st.hist[d], st.hist[s.Partner(d)];
    && h.registered != [] && h.registered[0] == CancelOther
    && (st.lists[d].cancelled <==> p.ran != [])
    && (h.ran == [] || p.ran == [])
    && (h.first.Some? ==> h.ran != [] || open == d)
  }

  ghost predicate PairsInv(s: Setup, st: State, open: int)
    requires |st.hist| == |st.lists|
  {
    && 2 * s.pairs <= |st.lists|
    && (forall d: nat :: d < 2 * s.pairs ==> PairInv(s, st, d, open))
    && (forall d: nat :: 2 * s.pairs <= d < |st.lists| ==> CancelOther !in st.lists[d].callbacks)
  }

  /** A slot callback waits only in the done list of its pending promise, and only once there. */
  ghost predicate SlotPlaced(s: Setup, st: State, d: nat)
    requires d < |st.lists|
  {
    var cbs := st.lists[d].callbacks;
    && (forall cb <- cbs :: cb.Slot? ==> cb.i in st.pending && s.IsPromise(cb.i, d))
    && SlotsOnce(cbs)
  }

  ghost predicate SlotsOnce(cbs: seq<Callback>) {
    forall j: nat, j': nat :: j < j' < |cbs| && cbs[j].Slot? ==> cbs[j] != cbs[j']
  }

  /** A pending promise has its slot callback waiting, or was rejected. */
  ghost predicate SlotAwaits(s: Setup, st: State, i: nat)
    requires s.Valid() && 2 * s.pairs <= |st.lists| && i < |s.args| && s.args[i].Promise?
  {
    Slot(i) in st.lists[s.args[i].k].callbacks || st.lists[s.args[i].k].cancelled
  }

  ghost predicate SlotsInv(s: Setup, st: State, open: int)
    requires |st.hist| == |st.lists| && s.Valid() && 2 * s.pairs <= |st.lists|
  {
    && |st.slots| == |s.args| && st.todo <= |s.args|
    && st.count == st.todo + |st.pending|
    && (forall i <- st.pending :: st.todo <= i < |s.args| && s.args[i].Promise?)
    && (forall d: nat :: d < |st.lists| ==> SlotPlaced(s, st, d))
    && (forall i <- st.pending :: SlotAwaits(s, st, i))
    && (st.count == 0 ==> st.hist[s.result].first.Some? || st.lists[s.result].cancelled || open == s.result)
    && (st.hist[s.result].first.Some? ==> st.count == 0 && st.hist[s.result].first == Some(Firing(s.promise, st.slots)))
  }

  /** Slot `i` holds what argument `i` is or was resolved with. */
  ghost predicate ValueAt(s: Setup, st: State, i: nat)
    requires |st.hist| == |st.lists| && s.Valid() && 2 * s.pairs <= |st.lists| && i < |s.args| == |st.slots|
  {
    match s.args[i]
    case Plain(v) => st.slots[i] == v
    case Promise(k) => i < st.todo || i in st.pending ||
                       (st.hist[k].first.Some? && st.slots[i] == Pack(st.hist[k].first.value.args))
  }

  ghost predicate ValuesInv(s: Setup, st: State)
    requires |st.hist| == |st.lists| && s.Valid() && 2 * s.pairs <= |st.lists| && |st.slots| == |s.args|
  {
    forall i: nat :: i < |s.args| ==> ValueAt(s, st, i)
  }

  /** List `d` is the fail list of a processed promise. */
  ghost predicate Watched(s: Setup, rtodo: nat, d: nat) {
    exists i :: rtodo <= i < |s.args| && s.args[i].Promise? && d == s.pairs + s.args[i].k
  }

  /** Processed promise `i` was rejected, and `f` is what `deferred.reject` makes of that. */
  ghost predicate RejectedWith(s: Setup, st: State, i: nat, f: Firing)
    requires |st.hist| == |st.lists| && s.Valid() && 2 * s.pairs <= |st.lists|
  {
    st.rtodo <= i < |s.args| && s.args[i].Promise?
    && st.hist[s.pairs + s.args[i].k].first.Some? && f == s.Forward(st.hist[s.pairs + s.args[i].k].first.value)
  }

  ghost predicate SomeRejectedWith(s: Setup, st: State, f: Firing)
    requires |st.hist| == |st.lists| && s.Valid() && 2 * s.pairs <= |st.lists|
  {
    exists i: nat :: RejectedWith(s, st, i, f)
  }

  /** A processed promise has `deferred.reject` waiting, or can no longer be rejected, or the result is settled. */
  ghost predicate RejectAwaits(s: Setup, st: State, i: nat, open: int)
    requires |st.hist| == |st.lists| && s.Valid() && 2 * s.pairs <= |st.lists| && i < |s.args| && s.args[i].Promise?
  {
    var l := st.lists[s.pairs + s.args[i].k];
    || RejectResult in l.callbacks || l.cancelled
    || st.hist[s.pairs + s.result].first.Some? || st.lists[s.pairs + s.result].cancelled
    || open == s.pairs + s.result
  }

  /** `deferred.reject` waits in the fail lists of the processed promises; the result is rejected with
      what one of them was rejected with. */
  ghost predicate RejectInv(s: Setup, st: State, open: int)
    requires |st.hist| == |st.lists| && s.Valid() && 2 * s.pairs <= |st.lists|
  {
    && st.rtodo <= |s.args|
    && (forall d: nat :: d < |st.lists| && RejectResult in st.lists[d].callbacks ==> Watched(s, st.rtodo, d))
    && (st.hist[s.pairs + s.result].first.Some? ==>
          SomeRejectedWith(s, st, st.hist[s.pairs + s.result].first.value))
    && (forall i: nat :: st.rtodo <= i < |s.args| && s.args[i].Promise? ==> RejectAwaits(s, st, i, open))
  }

  ghost predicate Inv(s: Setup, st: State, open: int) {
    && s.Valid() && ListsInv(st, open) && PairsInv(s, st, open)
    && SlotsInv(s, st, open) && ValuesInv(s, st) && RejectInv(s, st, open)
  }

  /** What any call, whatever it re-enters, leaves standing: nothing added, run, resolved or cancelled is forgotten. */
  ghost predicate Grows(a: State, b: State) {
    && |a.lists| == |b.lists| == |a.hist| == |b.hist|
    && forall d :: 0 <= d < |a.lists| ==>
         && a.lists[d].firing == b.lists[d].firing
         && (a.lists[d].cancelled ==> b.lists[d].cancelled)
         && a.hist[d].registered <= b.hist[d].registered && a.hist[d].ran <= b.hist[d].ran
         && (a.hist[d].first.Some? ==> b.hist[d].first == a.hist[d].first)
  }

  /** The same, and `when` is where it was. */
  ghost predicate Extends(a: State, b: State) {
    Grows(a, b) && a.todo == b.todo && a.rtodo == b.rtodo
  }

  lemma GrowsTransitive(a: State, b: State, c: State)
    requires Grows(a, b) && Grows(b, c)
    ensures Grows(a, c)
  {
  }

  lemma ExtendsTransitive(a: State, b: State, c: State)
    requires Extends(a, b) && Extends(b, c)
    ensures Extends(a, c)
  {
    GrowsTransitive(a, b, c);
    hide Grows;
  }

  // ----- the elementary changes of state

  function Update(st: State, d: nat, l: CallbackList, h: History): State
    requires d < |st.lists| == |st.hist|
  {
    st.(lists := st.lists[d := l], hist := st.hist[d := h])
  }

  /** Add callbacks, with `fired` taken away for the moment. */
  function Push(st: State, d: nat, cbs: seq<Callback>): State
    requires d < |st.lists| == |st.hist|
  {
    var l, h := st.lists[d], st.hist[d];
    Update(st, d, l.(callbacks := l.callbacks + cbs, fired := None), h.(registered := h.registered + cbs))
  }

  /** The list fires. */
  function Begin(st: State, d: nat, f: Firing): State
    requires d < |st.lists| == |st.hist|
  {
    Update(st, d, st.lists[d].(firing := true), st.hist[d].(first := Some(f)))
  }

  /** The firing is over; `threw` says that the callback that ran last has thrown. */
  function End(st: State, d: nat, f: Firing, threw: bool): State
    requires d < |st.lists| == |st.hist| && (threw ==> st.hist[d].ran != [])
  {
    Update(st, d, st.lists[d].(fired := Some(f), firing := false),
           st.hist[d].(stopped := if threw then |st.hist[d].ran| - 1 else -1))
  }

  /** Take the first callback off the list to run it. */
  function Shift(st: State, d: nat, f: Firing): State
    requires d < |st.lists| == |st.hist| && st.lists[d].callbacks != []
  {
    var l, h := st.lists[d], st.hist[d];
    Update(st, d, l.(callbacks := l.callbacks[1..]),
           h.(ran := h.ran + [l.callbacks[0]], heard := h.heard + [f]))
  }

  function CancelList(st: State, d: nat): State
    requires d < |st.lists| == |st.hist|
  {
    Update(st, d, st.lists[d].(callbacks := [], cancelled := true), st.hist[d])
  }

  /** What an internal callback does before it calls any further code. */
  function Effect(s: Setup, st: State, d: nat, f: Firing, cb: Callback): State
    requires d < |st.lists| == |st.hist| && 2 * s.pairs <= |st.lists| && (cb == CancelOther ==> d < 2 * s.pairs)
  {
    match cb
    case CancelOther => CancelList(st, s.Partner(d))
    case Slot(i) =>
      if i < |st.slots| then st.(slots := st.slots[i := Pack(f.args)], count := st.count - 1, pending := st.pending - {i})
      else st
    case RejectResult => st
    case User(_) => st
  }

  /** On which list `resolveWith` may follow the effect. */
  function Follow(s: Setup, cb: Callback): int {
    match cb
    case Slot(_) => s.result
    case RejectResult => s.pairs + s.result
    case CancelOther => -1
    case User(_) => -1
  }

  /** `resolveWith` on list `d` with `f` is in order: a resolution handed back by `done`, the result of
      `when`, or a user's own call. */
  ghost predicate Fits(s: Setup, st: State, d: nat, f: Firing)
    requires s.Valid() && 2 * s.pairs <= |st.lists| == |st.hist| && d < |st.lists|
  {
    var l, h := st.lists[d], st.hist[d];
    && (h.first.Some? ==> l.fired.Some? || l.firing || (!l.cancelled && h.first == Some(f)))
    && (d < 2 * s.pairs && h.first.Some? ==> h.ran != [])
    && (d == s.result && h.first.None? ==> st.count == 0 && f == Firing(s.promise, st.slots))
    && (d == s.pairs + s.result && h.first.None? ==>
          SomeRejectedWith(s, st, f))
  }

  predicate Idle(l: CallbackList) { !l.cancelled && l.fired.None? && !l.firing }

  // ----- the steps of `when`

  /** A plain argument: only counted. */
  function CountPlain(st: State): State
    requires st.todo > 0 && st.rtodo > 0
  {
    st.(todo := st.todo - 1, rtodo := st.rtodo - 1, count := st.count - 1)
  }

  /** The done callback of promise argument `i`, with Deferred `k`, is added. */
  function AddSlot(st: State, i: nat, k: nat): State
    requires k < |st.lists| == |st.hist|
  {
    var st' := if st.lists[k].cancelled then st else Push(st, k, [Slot(i)]);
    st'.(todo := i, pending := st.pending + {i})
  }

  /** The fail callback of promise argument `i` is added to fail list `d`. */
  function AddReject(st: State, i: nat, d: nat): State
    requires d < |st.lists| == |st.hist|
  {
    var st' := if st.lists[d].cancelled then st else Push(st, d, [RejectResult]);
    st'.(rtodo := i)
  }

  /** What remains open after callbacks have been added: the list that `fired` was taken from. */
  function Window(st: State, d: nat): int
    requires d < |st.lists|
  {
    if !st.lists[d].cancelled && st.lists[d].fired.Some? then d else -1
  }
}
