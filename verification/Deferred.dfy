/** jQuery's `_Deferred`, `Deferred` and `when`, with callbacks that re-enter them. */
module Deferred {
  import opened DeferredCallbacks
  import opened DeferredState
  import opened DeferredSteps
  import opened Wrappers

  lemma FreshKeeps(s: Setup, st: State)
    requires s.Valid() && |st.hist| == |st.lists| >= 2 * s.pairs
    requires forall d :: 0 <= d < |st.lists| ==> st.lists[d] == NewList(s, d)
    requires forall d :: 0 <= d < |st.lists| ==> st.hist[d] == History(NewList(s, d).callbacks, [], [], None, -1)
    requires st.slots == Initial(s.args) && st.count == st.todo == st.rtodo == |s.args| && st.pending == {}
    ensures Inv(s, st, -1)
  {
    assert SlotsInv(s, st, -1) && ValuesInv(s, st);
    hide SlotsInv, ValuesInv;
  }

  /** Nothing looks at `array` and `count` before `when` sets them. */
  lemma StartKeeps(s: Setup, st: State)
    requires Inv(s, st, -1) && st.todo == st.rtodo == |s.args|
    ensures Inv(s, st.(slots := Initial(s.args), count := |s.args|), -1)
  {
    var st' := st.(slots := Initial(s.args), count := |s.args|);
    assert PairsInv(s, st', -1) by {
      forall e: nat | e < 2 * s.pairs ensures PairInv(s, st', e, -1) {
        assert PairInv(s, st, e, -1);
      }
    }
    hide PairsInv, ListsInv;
    forall i: nat | i < |s.args| ensures ValueAt(s, st', i) {
      assert ValueAt(s, st, i);
    }
    forall e: nat | e < |st.lists| ensures SlotPlaced(s, st', e) {
      assert SlotPlaced(s, st, e);
    }
    SameSource(s, st, st');
  }

  lemma InvIsNearly(s: Setup, st: State)
    requires Inv(s, st, -1)
    ensures Nearly(s, st, s.result)
  {
    Relax(s, st, s.result);
    hide PairsInv, RejectInv, SlotsInv, ValuesInv, ListsInv;
  }

  lemma CountPositive(s: Setup, st: State)
    requires Nearly(s, st, s.result) && st.todo > 0
    ensures st.count > 0
  {
  }

  /** A user's call may open any list. */
  lemma Reopen(s: Setup, st: State, d: nat)
    requires Inv(s, st, -1)
    ensures Inv(s, st, d)
  {
    Relax(s, st, d);
    hide PairsInv, RejectInv, SlotsInv, ValuesInv, ListsInv;
  }

  lemma ExtendsItself(st: State)
    requires |st.lists| == |st.hist|
    ensures Extends(st, st)
  {
  }

  lemma SameLists(a: State, b: State)
    requires Extends(a, b)
    ensures |a.lists| == |b.lists| == |a.hist| == |b.hist|
  {
  }

  lemma StartGrows(s: Setup, st: State)
    requires Sized(s, st)
    ensures Sized(s, st.(slots := Initial(s.args), count := |s.args|)) && Grows(st, st.(slots := Initial(s.args), count := |s.args|))
    ensures Unsettled(s, st) ==> Unsettled(s, st.(slots := Initial(s.args), count := |s.args|))
  {
    var st' := st.(slots := Initial(s.args), count := |s.args|);
    forall i: nat | i < |s.args| && s.args[i].Promise? ensures UnsettledAt(s, st, i) == UnsettledAt(s, st', i) {
    }
  }

  lemma CountGrows(st: State)
    requires st.todo > 0 && st.rtodo > 0 && |st.lists| == |st.hist|
    ensures Grows(st, CountPlain(st))
  {
  }

  lemma ExtendsGrows(a: State, b: State)
    requires Extends(a, b)
    ensures Grows(a, b)
  {
  }

  lemma NotFired(s: Setup, st: State, i: nat, k: nat)
    requires Sized(s, st) && Unsettled(s, st) && i < |s.args| && s.args[i] == Promise(k)
    ensures k < s.pairs && st.lists[k].fired.None? && st.lists[s.pairs + k].fired.None?
  {
    assert UnsettledAt(s, st, i) && s.args[i] in s.args;
  }

  lemma PushSized(s: Setup, st: State, d: nat, cbs: seq<Callback>)
    requires Sized(s, st) && d < |st.lists|
    ensures Sized(s, Push(st, d, cbs)) && |Push(st, d, cbs).lists| == |st.lists|
    ensures Push(st, d, cbs).hist[d].registered == st.hist[d].registered + cbs
  {
  }

  lemma SizedParts(s: Setup, st: State)
    requires Sized(s, st)
    ensures |st.hist| == |st.lists| >= 2 * s.pairs && s.Valid()
  {
  }

  lemma SizedItself(s: Setup, st: State)
    requires Inv(s, st, -1)
    ensures Extends(st, st)
  {
  }

  lemma PushTwice(st: State, d: nat, a: seq<Callback>, b: seq<Callback>)
    requires d < |st.lists| == |st.hist| && st.lists[d].fired.None?
    ensures Push(Push(st, d, a), d, b) == Push(st, d, a + b)
  {
    assert st.lists[d].callbacks + a + b == st.lists[d].callbacks + (a + b);
    assert st.hist[d].registered + a + b == st.hist[d].registered + (a + b);
  }

  lemma PushNothing(st: State, d: nat)
    requires d < |st.lists| == |st.hist| && st.lists[d].fired.None?
    ensures Push(st, d, []) == st
  {
    assert st.lists[d].callbacks + [] == st.lists[d].callbacks;
    assert st.hist[d].registered + [] == st.hist[d].registered;
  }

  lemma NoneTook(s: Setup, st: State)
    requires |st.hist| == |st.lists|
    ensures AllTook(s, [], st)
  {
  }

  lemma AllOfBodyTook(s: Setup, body: seq<Action>, st: State, st': State)
    requires body != [] && |st.hist| == |st.lists| && |st'.hist| == |st'.lists|
    requires Took(s, body[0], st) && Extends(st, st') && AllTook(s, body[1..], st')
    ensures AllTook(s, body, st')
  {
    TookStays(s, body[0], st, st');
    hide Took;
    assert body == [body[0]] + body[1..];
  }

  class World {
    const s: Setup
    var lists: seq<CallbackList>
    var slots: seq<Value>  // `array` of the `when` call
    var count: int
    ghost var hist: seq<History>
    ghost var todo: nat
    ghost var rtodo: nat
    ghost var pending: set<nat>

    ghost function St(): State
      reads this
    {
      State(lists, hist, slots, count, todo, rtodo, pending)
    }

    ghost predicate Valid()
      reads this
    {
      Inv(s, St(), -1)
    }

    /** The variables of list `d` are set. */
    method Put(d: nat, l: CallbackList, ghost h: History)
      requires d < |lists| == |hist|
      modifies this
      ensures St() == Update(old(St()), d, l, h)
      ensures Weight(lists) == old(Weight(lists)) - QueueSize(old(lists[d].callbacks)) + QueueSize(l.callbacks)
    {
      WeightUpdate(lists, d, l);
      lists, hist := lists[d := l], hist[d := h];
    }

    /** `firing = 1`. */
    method Start(d: nat, f: Firing)
      requires d < |lists| == |hist|
      modifies this
      ensures St() == Begin(old(St()), d, f) && Weight(lists) == old(Weight(lists))
      ensures |lists| == |hist| == |old(lists)| && lists[d].callbacks == old(lists[d].callbacks) && hist[d].ran == old(hist[d].ran)
      ensures old(Calm(s, lists)) ==> Calm(s, lists)
    {
      if Calm(s, lists) { CalmBegin(s, St(), d, f); }
      hide Weight, QueueSize, Calm;
      Put(d, lists[d].(firing := true), hist[d].(first := Some(f)));
    }

    /** The `finally` block. */
    method Finish(d: nat, f: Firing, ghost threw: bool)
      requires d < |lists| == |hist| && (if threw then hist[d].ran != [] else lists[d].callbacks == [])
      modifies this
      ensures St() == End(old(St()), d, f, threw) && Weight(lists) == old(Weight(lists))
      ensures |lists| == |hist| == |old(lists)| && lists[d].callbacks == old(lists[d].callbacks) && lists[d].fired == Some(f)
      ensures threw <==> hist[d].stopped >= 0
      ensures !threw && old(Calm(s, lists)) ==> Calm(s, lists)
    {
      if Calm(s, lists) && !threw { CalmEnd(s, St(), d, f); }
      hide Weight, QueueSize, Calm;
      Put(d, lists[d].(fired := Some(f), firing := false), hist[d].(stopped := if threw then |hist[d].ran| - 1 else -1));
    }

    method ResolveWith(d: nat, f: Firing) returns (threw: bool)
      requires Inv(s, St(), d) && d < |lists| && Fits(s, St(), d, f)
      modifies this
      ensures Valid() && Extends(old(St()), St()) && Weight(lists) <= old(Weight(lists))
      ensures old(lists[d].cancelled || lists[d].fired.Some? || lists[d].firing) ==> St() == old(St()) && !threw
      ensures old(!lists[d].cancelled && lists[d].fired.None? && !lists[d].firing) ==> lists[d].fired == Some(f) && hist[d].first == Some(f)
      ensures Idle(old(lists[d])) ==> (threw <==> hist[d].stopped >= 0) && (!threw ==> lists[d].callbacks == [])
      ensures Idle(old(lists[d])) ==> Leaves(old(lists[d].callbacks), lists[d].callbacks, threw)
      ensures old(Calm(s, lists)) ==> !threw && Calm(s, lists)
      decreases Weight(lists), 4
    {
      InvSized(s, St(), d);
      SizedParts(s, St());
      ghost var start := St();
      hide Inv, Running, Fits, Extends, Grows, Sized, Calm, Leaves, Weight, QueueSize;
      threw := false;
      if !Idle(lists[d]) {
        NotResolving(s, start, d, f);
        ExtendsItself(start);
        return;
      }
      BeginKeeps(s, start, d, f);
      hide Begin, End;
      Start(d, f);
      threw := Fire(d, f);
      ghost var fired := St();
      SizedParts(s, fired);
      EndKeeps(s, fired, d, f, threw);
      ResolveExtends(start, fired, d, f, threw);
      Finish(d, f, threw);
    }

    /** The `while` loop of `resolveWith`, which an exception leaves. */
    method Fire(d: nat, f: Firing) returns (threw: bool)
      requires Sized(s, St()) && d < |lists| && Running(s, St(), d, f)
      requires d < 2 * s.pairs && hist[d].ran == [] ==> lists[d].callbacks != []
      modifies this
      ensures Sized(s, St()) && |lists| == |old(lists)| && Running(s, St(), d, f) && Extends(old(St()), St())
      ensures Weight(lists) <= old(Weight(lists))
      ensures (if threw then hist[d].ran != [] else lists[d].callbacks == []) && (d < 2 * s.pairs ==> hist[d].ran != [])
      ensures Leaves(old(lists[d].callbacks), lists[d].callbacks, threw)
      ensures old(Calm(s, lists)) ==> !threw && Calm(s, lists)
      decreases Weight(lists), 3
    {
      ExtendsItself(St());
      hide Inv, Running, Fits, Extends, Sized, Calm, Leaves, OnTheWay, SimpleToThrow, Simple, Throws, Weight;
      ghost var start, calm, cbs := St(), Calm(s, lists), lists[d].callbacks;
      threw := false;
      NoneLeft(cbs);
      while lists[d].callbacks != []
        invariant Sized(s, St()) && |lists| == |start.lists| && Running(s, St(), d, f) && Extends(start, St())
        invariant Weight(lists) <= old(Weight(lists)) && !threw
        invariant d < 2 * s.pairs && hist[d].ran == [] ==> lists[d].callbacks != []
        invariant OnTheWay(cbs, lists[d].callbacks) && (calm ==> Calm(s, lists))
        decreases Weight(lists)
      {
        ghost var before := St();
        threw := Call(d, f);
        RunNext(cbs, before.lists[d].callbacks, lists[d].callbacks, threw);
        KeepRunning(s, before, St(), d, f);
        ExtendsTransitive(start, before, St());
        if threw {
          return;
        }
      }
    }

    /** `callbacks.shift().apply( context, args )`. */
    method Call(d: nat, f: Firing) returns (threw: bool)
      requires d < |lists| && Running(s, St(), d, f) && lists[d].callbacks != []
      modifies this
      ensures Valid() && Extends(old(St()), St()) && Weight(lists) < old(Weight(lists))
      ensures |old(hist[d].ran)| < |hist[d].ran|
      ensures Simple(old(lists[d].callbacks)[0]) ==>
                threw == Throws(old(lists[d].callbacks)[0]) && lists[d].callbacks == old(lists[d].callbacks)[1..]
      ensures old(Calm(s, lists)) ==> !threw && Calm(s, lists)
      ensures |hist| == |lists| && (!threw && old(lists[d].callbacks)[0].User? ==> AllTook(s, old(lists[d].callbacks)[0].f.body, St()))
      decreases Weight(lists), 2
    {
      hide Inv, Running, Fits, Nearly, Extends, Apply, Watched, Calm, AllTook;
      ghost var start := St();
      ApplyKeeps(s, start, d, f);
      ApplyExtends(s, start, d, f);
      if Calm(s, lists) { CalmApply(s, start, d, f); }
      var cb := Take(d, f);
      ghost var applied := St();
      threw := false;
      match cb {
        case User(g) =>
          NearlyIsInv(s, applied, -1);
          threw := RunBody(g.body);
        case CancelOther =>
          NearlyIsInv(s, applied, -1);
          ExtendsItself(applied);
        case Slot(_) =>
          threw := SlotFilled();
        case RejectResult =>
          NearlyIsInv(s, applied, s.pairs + s.result);
          RejectFits(s, applied, d, f);
          threw := ResolveWith(s.pairs + s.result, s.Forward(f));
      }
      ExtendsMeans(applied, St(), d);
      ExtendsTransitive(start, applied, St());
    }

    /** The next callback leaves the list and does what it does before it calls anything. */
    method Take(d: nat, f: Firing) returns (cb: Callback)
      requires Sized(s, St()) && d < |lists| && lists[d].callbacks != []
      requires CancelOther in lists[d].callbacks ==> d < 2 * s.pairs
      requires lists[d].callbacks[0].Slot? ==> lists[d].callbacks[0].i < |slots|
      modifies this
      ensures cb == old(lists[d].callbacks[0]) && St() == Apply(s, old(St()), d, f)
      ensures Sized(s, St()) && Weight(lists) + CallbackSize(cb) <= old(Weight(lists))
    {
      cb := lists[d].callbacks[0];
      Put(d, lists[d].(callbacks := lists[d].callbacks[1..]), hist[d].(ran := hist[d].ran + [cb], heard := hist[d].heard + [f]));
      match cb {
        case User(_) =>
        case CancelOther =>
          var p := s.Partner(d);
          Put(p, lists[p].(callbacks := [], cancelled := true), hist[p]);
        case Slot(i) =>
          var value := if |f.args| > 1 then Array(f.args) else if |f.args| == 1 then f.args[0] else Undefined;
          slots, count, pending := slots[i := value], count - 1, pending - {i};
        case RejectResult =>
      }
    }

    /** `if ( !count ) deferred.resolveWith( promise, array )` of `iCallback`. */
    method SlotFilled() returns (threw: bool)
      requires Nearly(s, St(), s.result) && Sized(s, St())
      modifies this
      ensures Valid() && Extends(old(St()), St()) && Weight(lists) <= old(Weight(lists))
      ensures old(Calm(s, lists)) ==> !threw && Calm(s, lists)
      ensures old(count) != 0 ==> !threw && St() == old(St())
      decreases Weight(lists), 5
    {
      ExtendsItself(St());
      SlotFits(s, St());
      hide Inv, Fits, Nearly, Extends, Calm;
      threw := false;
      if count == 0 {
        NearlyIsInv(s, St(), s.result);
        threw := ResolveWith(s.result, Firing(s.promise, slots));
      } else {
        NearlyIsInv(s, St(), -1);
      }
    }

    /** A user's function: it stops at the first exception that it does not catch. */
    method RunBody(body: seq<Action>) returns (threw: bool)
      requires Valid()
      modifies this
      ensures Valid() && Extends(old(St()), St()) && Weight(lists) <= old(Weight(lists)) + BodySize(body)
      ensures body == [] || body[0] == Throw ==> threw == (body != []) && St() == old(St())
      ensures old(Calm(s, lists)) && CalmBody(s, |old(lists)|, body) ==> !threw && Calm(s, lists)
      ensures |hist| == |lists| && (!threw ==> AllTook(s, body, St()))
      decreases Weight(lists) + BodySize(body), 1
    {
      ghost var start := St();
      SizedItself(s, start);
      SameLists(start, start);
      BodyParts(body);
      NoneTook(s, start);
      hide Inv, Extends, Weight, BodySize, ActionSize, Calm, CalmAction, Took, AllTook;
      if body == [] {
        return false;
      }
      threw := Act(body[0]);
      SameLists(start, St());
      if !threw {
        ghost var before := St();
        threw := RunBody(body[1..]);
        ExtendsTransitive(start, before, St());
        if !threw { AllOfBodyTook(s, body, before, St()); }
      }
    }

    /** Whether user code can make this call: it has the promise of `when` but not its Deferred, and a Deferred
        does not expose `cancel`. */
    ghost predicate Offered(a: Action)
      reads this
    {
      match a
      case Done(d, _, _) => d < |lists|
      case ResolveWith(d, _, _) => d < |lists| && d != s.result && d != s.pairs + s.result
      case Cancel(d) => 2 * s.pairs <= d < |lists|
      case Throw => true
    }

    /** One call of user code; calling what is not there throws. */
    method Act(a: Action) returns (threw: bool)
      requires Valid()
      modifies this
      ensures Valid() && Extends(old(St()), St()) && Weight(lists) < old(Weight(lists)) + ActionSize(a)
      ensures a == Throw || (!a.Cancel? && !Offered(a)) ==> threw == (a == Throw || !a.caught) && St() == old(St())
      ensures a.Cancel? ==> if Offered(a) then !threw && St() == CancelList(old(St()), a.list) else threw && St() == old(St())
      ensures (a.Done? || a.ResolveWith?) && a.caught ==> !threw
      ensures a.Done? && Offered(a) && !old(lists[a.list].cancelled) && old(lists[a.list].fired).None? ==>
                !threw && St() == Push(old(St()), a.list, Flatten(a.args))
      ensures a.ResolveWith? && Offered(a) && old(!lists[a.list].cancelled && lists[a.list].fired.None? && !lists[a.list].firing) ==>
                lists[a.list].fired == Some(a.with)
      ensures old(Calm(s, lists)) && CalmAction(s, |old(lists)|, a) ==> !threw && Calm(s, lists)
      ensures |hist| == |lists| && (!threw ==> Took(s, a, St()))
      decreases Weight(lists) + ActionSize(a), 0
    {
      ghost var before := St();
      InvSized(s, before, -1);
      ExtendsItself(before);
      hide Inv, Fits, Extends, Calm, Contains, Flatten, Took;
      match a {
        case Throw =>
          threw := true;
        case Done(d, args, caught) =>
          threw := true;
          if d < |lists| {
            threw := Done(d, args);
            SameLists(before, St());
          }
          ExtendsGrows(before, St());
          DoneTook(s, before, St(), a);
          threw := threw && !caught;
        case ResolveWith(d, f, caught) =>
          threw := true;
          if d < |lists| && d != s.result && d != s.pairs + s.result {
            UserFits(s, before, d, f);
            Reopen(s, before, d);
            threw := ResolveWith(d, f);
            SameLists(before, St());
          }
          ExtendsGrows(before, St());
          ResolveTook(s, before, St(), a);
          threw := threw && !caught;
        case Cancel(d) =>
          threw := true;
          if 2 * s.pairs <= d < |lists| {
            CancelKeeps(s, St(), d);
            if Calm(s, lists) { CalmCancel(s, St(), d); }
            Put(d, lists[d].(callbacks := [], cancelled := true), hist[d]);
            CancelTook(s, St(), a);
            threw := false;
          }
      }
    }

    /** `done( args )` of list `d`. */
    method Done(d: nat, args: seq<Arg>) returns (threw: bool)
      requires Valid() && d < |lists|
      modifies this
      ensures Valid() && Extends(old(St()), St()) && Weight(lists) <= old(Weight(lists)) + ArgsSize(args)
      ensures old(lists[d].cancelled) ==> St() == old(St()) && !threw
      ensures !old(lists[d].cancelled) ==> old(hist[d].registered) + Flatten(args) <= hist[d].registered
      ensures !old(lists[d].cancelled) && old(lists[d].fired).None? ==> St() == Push(old(St()), d, Flatten(args)) && !threw
      ensures !old(lists[d].cancelled) && old(lists[d].fired).Some? ==> lists[d].fired == old(lists[d].fired)
      ensures !old(lists[d].cancelled) && old(lists[d].fired).Some? && !threw ==> lists[d].callbacks == []
      ensures old(Calm(s, lists)) && CalmArgs(s, |old(lists)|, args) ==> !threw && Calm(s, lists)
      decreases Weight(lists) + ArgsSize(args), 6
    {
      ghost var before, cbs := St(), Flatten(args);
      InvSized(s, before, -1);
      ExtendsItself(before);
      FlattenSize(args);
      hide Inv, Fits, Extends, Weight, QueueSize, Flatten, ArgsSize, UserOnly, Calm, CalmArgs;
      threw := false;
      if !lists[d].cancelled {
        PushKeeps(s, before, d, cbs);
        PushExtends(before, d, cbs);
        var fired := Collect(d, args);
        ghost var pushed := St();
        PushSized(s, before, d, cbs);
        hide Push;
        threw := Refire(d, fired, before, cbs);
        ExtendsMeans(pushed, St(), d);
        ExtendsTransitive(before, pushed, St());
      }
    }

    /** `done` up to the resolution that follows if the list was resolved already. */
    method Collect(d: nat, args: seq<Arg>) returns (fired: Option<Firing>)
      requires d < |lists| == |hist| && !lists[d].cancelled
      modifies this
      ensures St() == Push(old(St()), d, Flatten(args)) && fired == old(lists[d].fired)
      ensures Weight(lists) == old(Weight(lists)) + ArgsSize(args)
      ensures old(Calm(s, lists)) && CalmArgs(s, |old(lists)|, args) ==> Calm(s, lists)
    {
      ghost var before, cbs := St(), Flatten(args);
      if Calm(s, lists) && CalmArgs(s, |lists|, args) {
        CalmFlatten(s, |lists|, args);
        CalmPush(s, before, d, cbs);
      }
      FlattenSize(args);
      QueueAppend(lists[d].callbacks, cbs);
      WeightUpdate(lists, d, Push(before, d, cbs).lists[d]);
      hide Weight, QueueSize, Flatten, ArgsSize, Calm, CalmArgs, CalmQueue;
      fired := lists[d].fired;
      lists := lists[d := lists[d].(fired := None)];
      AddAll(d, args);
      assert St() == Push(before, d, cbs);
    }

    /** The loop of `done`. For an array it is `done` again, which finds `fired` already taken. */
    method AddAll(d: nat, args: seq<Arg>)
      requires d < |lists| == |hist| && !lists[d].cancelled && lists[d].fired.None?
      modifies this
      ensures St() == Push(old(St()), d, Flatten(args))
      decreases args
    {
      var i := 0;
      while i < |args|
        invariant i <= |args| && |lists| == |hist| == |old(lists)| && !lists[d].cancelled && lists[d].fired.None?
        invariant Push(St(), d, Flatten(args[i..])) == Push(old(St()), d, Flatten(args))
      {
        ghost var before, rest := St(), args[i..];
        assert rest[0] == args[i] && rest[1..] == args[i + 1..];
        match args[i] {
          case Fn(f) =>
            lists := lists[d := lists[d].(callbacks := lists[d].callbacks + [User(f)])];
            hist := hist[d := hist[d].(registered := hist[d].registered + [User(f)])];
          case Items(elems) =>
            AddAll(d, elems);
          case Other =>
            PushNothing(before, d);
        }
        PushTwice(before, d, FlattenArg(args[i]), Flatten(args[i + 1..]));
        i := i + 1;
      }
      PushNothing(St(), d);
    }

    /** `done` with one callback of `when`, up to the resolution that follows if the list was resolved already. */
    method Attach(d: nat, cb: Callback) returns (fired: Option<Firing>)
      requires d < |lists| == |hist|
      modifies this
      ensures St() == if old(lists[d].cancelled) then old(St()) else Push(old(St()), d, [cb])
      ensures fired == if old(lists[d].cancelled) then None else old(lists[d].fired)
    {
      fired := None;
      if !lists[d].cancelled {
        fired := lists[d].fired;
        hist := hist[d := hist[d].(registered := hist[d].registered + [cb])];
        lists := lists[d := lists[d].(callbacks := lists[d].callbacks + [cb], fired := None)];
      }
    }

    /** `when( args )`. */
    method When() returns (threw: bool)
      requires Valid() && todo == rtodo == |s.args|
      modifies this
      ensures Valid() && Grows(old(St()), St()) && (!threw ==> todo == rtodo == 0)
      ensures old(Calm(s, lists)) ==> !threw && Calm(s, lists)
      ensures Sized(s, old(St())) && (Unsettled(s, old(St())) && Subscribed(s, old(St()), 0).count != 0 ==>
                !threw && St() == Subscribed(s, old(St()), 0))
    {
      ghost var start := St();
      InvSized(s, start, -1);
      StartKeeps(s, start);
      StartGrows(s, start);
      hide Inv, Nearly, Fits, Extends, Grows, Calm, Unsettled, Initial;
      ghost var calm, waiting := Calm(s, lists), Unsettled(s, start);
      slots, count := Initial(s.args), |s.args|;
      threw := false;
      var i := |s.args|;
      InvIsNearly(s, St());
      while i > 0
        invariant i == todo == rtodo <= |s.args| && Sized(s, St()) && !threw
        invariant Nearly(s, St(), s.result) && (i > 0 ==> Valid())
        invariant Grows(start, St()) && (calm ==> Calm(s, lists))
        invariant waiting ==> St() == Subscribed(s, start, i) && Unsettled(s, St())
      {
        i := i - 1;
        threw := NextArgument(i, start, waiting);
        if threw {
          return;
        }
      }
      ghost var last := St();
      threw := SlotFilled();
      ExtendsMeans(last, St(), 0);
      ExtendsGrows(last, St());
      GrowsTransitive(start, last, St());
    }

    /** One round of the loop of `when`. */
    method NextArgument(i: nat, ghost start: State, ghost waiting: bool) returns (threw: bool)
      requires Valid() && todo == rtodo == i + 1 <= |s.args| && Sized(s, St()) && Sized(s, start) && start.todo == start.rtodo == |s.args|
      requires Grows(start, St()) && (waiting ==> St() == Subscribed(s, start, i + 1) && Unsettled(s, St()))
      modifies this
      ensures Grows(start, St()) && (old(Calm(s, lists)) ==> !threw && Calm(s, lists)) && (threw ==> Valid())
      ensures !threw ==> todo == rtodo == i && Sized(s, St()) && Nearly(s, St(), s.result) && (i > 0 ==> Valid())
      ensures waiting ==> !threw && St() == Subscribed(s, start, i) && Unsettled(s, St())
    {
      hide Inv, Nearly, Fits, Extends, Grows, Calm, Unsettled, Initial;
      ghost var before := St();
      threw := false;
      match s.args[i] {
        case Plain(_) =>
          PlainKeeps(s, before);
          if waiting { CountUnsettled(s, before); }
          CountGrows(before);
          todo, rtodo, count := i, i, count - 1;
          assert St() == CountPlain(before);
          GrowsTransitive(start, before, St());
        case Promise(k) =>
          threw := Subscribe(i, k, start, waiting);
          if threw {
            return;
          }
          InvSized(s, St(), -1);
          InvIsNearly(s, St());
      }
      if i > 0 {
        CountPositive(s, St());
        SlotFits(s, St());
        NearlyIsInv(s, St(), -1);
      }
    }

    /** `object.promise().then( iCallback( i ), deferred.reject )`. */
    method Subscribe(i: nat, k: nat, ghost start: State, ghost waiting: bool) returns (threw: bool)
      requires Valid() && todo == rtodo == i + 1 <= |s.args| && s.args[i] == Promise(k) && Sized(s, St()) && Sized(s, start)
      requires start.todo == start.rtodo == |s.args|
      requires Grows(start, St()) && (waiting ==> St() == Subscribed(s, start, i + 1) && Unsettled(s, St()))
      modifies this
      ensures Valid() && Grows(start, St()) && (!threw ==> todo == rtodo == i)
      ensures old(Calm(s, lists)) ==> !threw && Calm(s, lists)
      ensures waiting ==> !threw && St() == Subscribed(s, start, i) && Sized(s, St()) && Unsettled(s, St())
    {
      hide Inv, Fits, Extends, Grows, Calm, Unsettled, AddSlot, AddReject;
      ghost var before := St();
      InPlace(s, before, i, k);
      if waiting { NotFired(s, before, i, k); StaysUnsettled(s, before, i, k); }
      threw := SubscribeDone(i, k);
      ghost var middle := St();
      InvSized(s, middle, -1);
      GrowsTransitive(start, before, middle);
      if threw {
        return;
      }
      if waiting { NotFired(s, middle, i, k); StaysUnsettled(s, middle, i, k); }
      threw := SubscribeFail(i, k);
      GrowsTransitive(start, middle, St());
    }

    /** `done( iCallback( i ) )` of Deferred `k`. */
    method SubscribeDone(i: nat, k: nat) returns (threw: bool)
      requires Valid() && todo == rtodo == i + 1 <= |s.args| && s.args[i] == Promise(k)
      modifies this
      ensures Valid() && Grows(old(St()), St()) && todo == i && rtodo == i + 1 && k < |lists| == |hist| == |old(lists)| == |old(hist)|
      ensures !old(lists[k].cancelled) ==> old(hist[k].registered) + [Slot(i)] <= hist[k].registered
      ensures old(lists[k].fired).None? || old(lists[k].cancelled) ==> !threw && St() == AddSlot(old(St()), i, k)
      ensures old(Calm(s, lists)) ==> !threw && Calm(s, lists)
    {
      hide Inv, Fits, Extends, Grows, Calm;
      ghost var before := St();
      InPlace(s, before, i, k);
      AddSlotKeeps(s, before, k);
      AttachGrows(before, k, i);
      if Calm(s, lists) { CalmAttach(s, before, k, i); }
      var fired := Attach(k, Slot(i));
      todo, pending := i, pending + {i};
      ghost var attached := St();
      assert attached == AddSlot(before, i, k);
      threw := Refire(k, fired, before, [Slot(i)]);
      ExtendsMeans(attached, St(), k);
      ExtendsGrows(attached, St());
      GrowsTransitive(before, attached, St());
    }

    /** `fail( deferred.reject )` of Deferred `k`. */
    method SubscribeFail(i: nat, k: nat) returns (threw: bool)
      requires Valid() && todo == i && rtodo == i + 1 <= |s.args| && s.args[i] == Promise(k)
      modifies this
      ensures Valid() && Grows(old(St()), St()) && todo == rtodo == i
      ensures k < s.pairs && s.pairs + k < |lists| == |hist| == |old(lists)| == |old(hist)|
      ensures !old(lists[s.pairs + k].cancelled) ==> old(hist[s.pairs + k].registered) + [RejectResult] <= hist[s.pairs + k].registered
      ensures old(lists[s.pairs + k].fired).None? || old(lists[s.pairs + k].cancelled) ==>
                !threw && St() == AddReject(old(St()), i, s.pairs + k)
      ensures old(Calm(s, lists)) ==> !threw && Calm(s, lists)
    {
      hide Inv, Fits, Extends, Grows, Calm;
      ghost var before := St();
      InPlace(s, before, i, k);
      AddRejectKeeps(s, before, k);
      ghost var d := s.pairs + k;
      AttachGrows(before, d, i);
      if Calm(s, lists) { CalmAttach(s, before, d, i); }
      var fired := Attach(s.pairs + k, RejectResult);
      rtodo := i;
      ghost var attached := St();
      assert attached == AddReject(before, i, d);
      threw := Refire(s.pairs + k, fired, before, [RejectResult]);
      ExtendsMeans(attached, St(), d);
      ExtendsGrows(attached, St());
      GrowsTransitive(before, attached, St());
    }

    /** The end of `done`: resolve again with what was taken from `fired`. */
    method Refire(d: nat, fired: Option<Firing>, ghost before: State, ghost cbs: seq<Callback>) returns (threw: bool)
      requires Inv(s, before, -1) && d < |lists| == |before.lists| && Sized(s, St()) && Inv(s, St(), Window(before, d))
      requires fired == if before.lists[d].cancelled then None else before.lists[d].fired
      requires fired.Some? ==> St().lists == Push(before, d, cbs).lists && St().hist == Push(before, d, cbs).hist
      modifies this
      ensures Valid() && Extends(old(St()), St()) && Weight(lists) <= old(Weight(lists))
      ensures fired.None? ==> St() == old(St()) && !threw
      ensures fired.Some? ==> lists[d].fired == fired && (!threw ==> lists[d].callbacks == [])
      ensures old(Calm(s, lists)) ==> !threw && Calm(s, lists)
      decreases Weight(lists), 5
    {
      ExtendsItself(St());
      InvSized(s, before, -1);
      if fired.Some? {
        WindowFits(s, before, d, cbs, St());
      }
      hide Inv, Fits, Extends, Calm;
      threw := false;
      if fired.Some? {
        threw := ResolveWith(d, fired.value);
      }
    }

    /** The Deferreds of `setup` and `plain` further lists, with `when` not yet called. */
    constructor (setup: Setup, plain: nat)
      requires setup.Valid()
      ensures s == setup && Valid() && todo == rtodo == |s.args|
      ensures |lists| == 2 * s.pairs + plain
      ensures forall d :: 0 <= d < |lists| ==> lists[d] == NewList(s, d)
      ensures Calm(s, lists) && Sized(s, St())
    {
      s := setup;
      var n := 2 * setup.pairs + plain;
      lists := seq(n, d => NewList(setup, d));
      hist := seq(n, d => History(NewList(setup, d).callbacks, [], [], None, -1));
      slots, count := Initial(setup.args), |setup.args|;
      todo, rtodo, pending := |setup.args|, |setup.args|, {};
      new;
      FreshKeeps(s, St());
    }
  }
}
