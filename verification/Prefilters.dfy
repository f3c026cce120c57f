/** The dispatch of ajax prefilters and transports, with filters that redirect to other data types. */
module Prefilters {

  /** What a filter returns: the name of another data type, a truthy object (a transport), or nothing. */
  datatype Selection = Redirect(dataType: string) | Transport(id: nat) | Nothing

  /** What happens: the list of a data type is taken up; one of its filters is called and answers. */
  datatype Event = Scan(of: string) | Call(on: string, i: nat, answer: Selection)

  const ANY := "*"

  function Calls(log: seq<Event>, t: string): nat {
    if log == [] then 0
    else Calls(log[..|log| - 1], t) + (if log[|log| - 1].Call? && log[|log| - 1].on == t then 1 else 0)
  }

  function Scans(log: seq<Event>, t: string): nat {
    if log == [] then 0
    else Scans(log[..|log| - 1], t) + (if log[|log| - 1] == Scan(t) then 1 else 0)
  }

  /** The filters of each list are called one after the other, only once the list has been taken up. */
  predicate InOrder(log: seq<Event>) {
    if log == [] then true
    else
      var before, e := log[..|log| - 1], log[|log| - 1];
      InOrder(before) && (e.Call? ==> e.i == Calls(before, e.on) && Scans(before, e.on) > 0)
  }

  predicate Grew(was: seq<Event>, now: seq<Event>) { was <= now }

  lemma GrewTwice(a: seq<Event>, b: seq<Event>, c: seq<Event>)
    requires Grew(a, b) && Grew(b, c)
    ensures Grew(a, c)
  {
  }

  /** How many filters have been called. */
  function Clock(log: seq<Event>): nat {
    if log == [] then 0 else Clock(log[..|log| - 1]) + (if log[|log| - 1].Call? then 1 else 0)
  }

  /** The `n`-th call was answered with `reply( n )`. */
  predicate Answered(log: seq<Event>, reply: nat -> Selection) {
    log == [] ||
    (var before, e := log[..|log| - 1], log[|log| - 1];
     Answered(before, reply) && (e.Call? ==> e.answer == reply(Clock(before))))
  }

  /** `options.dataTypes` after what happened: a type is put in front when a filter first redirects to it. */
  function Replay(log: seq<Event>, inherited: set<string>, dataTypes: seq<string>): seq<string> {
    if log == [] then dataTypes
    else
      var before, e := log[..|log| - 1], log[|log| - 1];
      var rest := Replay(before, inherited, dataTypes);
      if Redirects(e) && e.answer.dataType !in inherited && Scans(before, e.answer.dataType) == 0
      then [e.answer.dataType] + rest else rest
  }

  predicate Redirects(e: Event) { e.Call? && e.answer.Redirect? }

  /** A type to which a filter redirected is one of `types`. */
  predicate Followed(log: seq<Event>, types: set<string>) {
    log == [] ||
    (var e := log[|log| - 1]; Followed(log[..|log| - 1], types) && (Redirects(e) ==> e.answer.dataType in types))
  }

  lemma {:induction false} FollowedMore(log: seq<Event>, a: set<string>, b: set<string>)
    requires Followed(log, a) && a <= b
    ensures Followed(log, b)
  {
    if log != [] {
      FollowedMore(log[..|log| - 1], a, b);
    }
  }

  lemma {:induction false} FollowedMeans(log: seq<Event>, types: set<string>)
    ensures Followed(log, types) <==> forall i :: 0 <= i < |log| && log[i].Call? && log[i].answer.Redirect? ==> log[i].answer.dataType in types
  {
    if log != [] {
      FollowedMeans(log[..|log| - 1], types);
      assert forall i :: 0 <= i < |log| - 1 ==> log[..|log| - 1][i] == log[i];
    }
  }

  /** Every call comes after its list has been taken up, and as many calls on the list come before it as its number says. */
  lemma {:induction false} InOrderMeans(log: seq<Event>)
    ensures InOrder(log) <==>
            forall i :: 0 <= i < |log| && log[i].Call? ==> Calls(log[..i], log[i].on) == log[i].i && Scan(log[i].on) in log[..i]
  {
    if log != [] {
      var before := log[..|log| - 1];
      InOrderMeans(before);
      assert forall i :: 0 <= i < |log| - 1 ==> before[i] == log[i] && before[..i] == log[..i];
      var e := log[|log| - 1];
      if e.Call? { ScansCount(before, e.on); }
    }
  }

  lemma {:induction false} ScansCount(log: seq<Event>, t: string)
    ensures Scans(log, t) == multiset(log)[Scan(t)] && (Scans(log, t) > 0 <==> Scan(t) in log)
  {
    if log != [] {
      ScansCount(log[..|log| - 1], t);
      assert log == log[..|log| - 1] + [log[|log| - 1]];
    }
  }

  lemma Logged(log: seq<Event>, e: Event)
    ensures (log + [e])[..|log|] == log && (log + [e])[|log|] == e
  {
  }

  /** Taking up a list adds no call. */
  lemma AfterScan(log: seq<Event>, t: string, reply: nat -> Selection, inherited: set<string>, initial: seq<string>)
    ensures var now := log + [Scan(t)];
            && InOrder(now) == InOrder(log) && Clock(now) == Clock(log) && Answered(now, reply) == Answered(log, reply)
            && Replay(now, inherited, initial) == Replay(log, inherited, initial)
            && (forall u :: Calls(now, u) == Calls(log, u)) && (forall u :: Scans(now, u) == Scans(log, u) + if u == t then 1 else 0)
            && (forall types :: Followed(now, types) == Followed(log, types))
  {
    Logged(log, Scan(t));
  }

  /** No filter has been called of a list that was not taken up. */
  lemma {:induction false} Untouched(log: seq<Event>, t: string)
    requires InOrder(log) && Scans(log, t) == 0
    ensures Calls(log, t) == 0
  {
    if log != [] {
      Untouched(log[..|log| - 1], t);
    }
  }

  lemma {:induction false} Smaller(a: set<string>, b: set<string>)
    requires a <= b
    ensures |a| <= |b|
    decreases a
  {
    if x :| x in a {
      Smaller(a - {x}, b - {x});
    }
  }

  /** The first of `n` answers, from number `c` on, that is an object; `n` if there is none. */
  function FirstTransport(reply: nat -> Selection, c: nat, n: nat): (k: nat)
    ensures k <= n && (k < n ==> reply(c + k).Transport?)
    ensures forall j: nat :: c <= j < c + k ==> !reply(j).Transport?
    decreases n
  {
    if n == 0 || reply(c).Transport? then 0
    else 1 + FirstTransport(reply, c + 1, n - 1)
  }

  /** One request. `reply( n )` is what the `n`-th filter call of the request returns. */
  class Request {
    const structure: map<string, nat>  // how many filters are registered for a data type
    const executeOnly: bool            // the structure is that of the prefilters
    const reply: nat -> Selection
    const inherited: set<string>       // names under which every object has something
    ghost const initial: seq<string>   // `options.dataTypes` at the start
    var dataTypes: seq<string>
    var inspected: set<string>
    var clock: nat
    ghost var log: seq<Event>

    constructor (structure: map<string, nat>, executeOnly: bool, reply: nat -> Selection, inherited: set<string>, dataTypes: seq<string>)
      requires ANY !in inherited
      ensures Valid() && log == [] && inspected == {} && this.dataTypes == dataTypes
      ensures this.structure == structure && this.executeOnly == executeOnly && this.reply == reply
      ensures this.inherited == inherited && initial == dataTypes
    {
      this.structure, this.executeOnly, this.reply, this.inherited := structure, executeOnly, reply, inherited;
      this.initial, this.dataTypes, inspected, clock, log := dataTypes, dataTypes, {}, 0, [];
    }

    ghost function Known(): set<string> { structure.Keys + {ANY} }

    /** How many types can still be taken up and do something: what makes the recursion end. */
    ghost function Left(inspected: set<string>): nat { |Known() - inspected| }

    ghost predicate IsKnown(t: string) { t in Known() }

    lemma FewerLeft(a: set<string>, b: set<string>, t: string)
      requires a + {t} <= b && t !in a
      ensures Left(b) <= Left(a) && (IsKnown(t) ==> Left(b) < Left(a))
    {
      var left, more := Known() - b, Known() - a;
      Smaller(left, more);
      if t in Known() {
        Smaller(left, more - {t});
      }
    }

    lemma NoMoreLeft(a: set<string>, b: set<string>)
      requires a <= b
      ensures Left(b) <= Left(a)
    {
      Smaller(Known() - b, Known() - a);
    }

    lemma KnownTypes(t: string)
      ensures IsKnown(ANY) && (Length(t) > 0 ==> IsKnown(t))
    {
    }

    function Length(t: string): nat { if t in structure then structure[t] else 0 }

    /** No list is taken up twice, calls are in order, and `dataTypes` is what the redirections make it. */
    ghost predicate Valid()
      reads this
    {
      && ANY !in inherited && InOrder(log) && clock == Clock(log) && Answered(log, reply)
      && (forall t :: Scans(log, t) == if t in inspected then 1 else 0)
      && dataTypes == if executeOnly then Replay(log, inherited, initial) else initial
    }

    /** From `was` to `now`: all filters of the newly inspected types have been called, none of the others. */
    ghost predicate AllCalled(was: seq<Event>, before: set<string>, now: seq<Event>, after: set<string>) {
      forall u :: Calls(now, u) == if u in after && u !in before then Length(u) else Calls(was, u)
    }

    /** The same, but of the list of `t` only the first `i` filters. */
    ghost predicate CalledUpTo(t: string, i: nat, was: seq<Event>, before: set<string>, now: seq<Event>, after: set<string>) {
      Calls(now, t) == i &&
      forall u :: u != t ==> Calls(now, u) == if u in after && u !in before then Length(u) else Calls(was, u)
    }

    lemma NoneYet(t: string, was: seq<Event>, before: set<string>, now: seq<Event>)
      requires t !in before && Calls(was, t) == 0 && forall u :: Calls(now, u) == Calls(was, u)
      ensures CalledUpTo(t, 0, was, before, now, before + {t})
    {
    }

    lemma SoFar(t: string, i: nat, was: seq<Event>, before: set<string>, now: seq<Event>, after: set<string>)
      requires CalledUpTo(t, i, was, before, now, after)
      ensures Calls(now, t) == i
    {
    }

    lemma OneMore(t: string, i: nat, was: seq<Event>, before: set<string>, now: seq<Event>, after: set<string>, next: seq<Event>)
      requires CalledUpTo(t, i, was, before, now, after)
      requires forall u :: Calls(next, u) == Calls(now, u) + if u == t then 1 else 0
      ensures CalledUpTo(t, i + 1, was, before, next, after)
    {
    }

    lemma Inside(t: string, i: nat, was: seq<Event>, before: set<string>, now: seq<Event>, after: set<string>,
                 next: seq<Event>, end: set<string>)
      requires CalledUpTo(t, i, was, before, now, after) && AllCalled(now, after, next, end)
      requires before + {t} <= after <= end
      ensures CalledUpTo(t, i, was, before, next, end)
    {
    }

    lemma AllUp(t: string, was: seq<Event>, before: set<string>, now: seq<Event>, after: set<string>)
      requires CalledUpTo(t, Length(t), was, before, now, after) && t !in before && t in after
      ensures AllCalled(was, before, now, after)
    {
    }

    lemma Joined(was: seq<Event>, before: set<string>, now: seq<Event>, after: set<string>, next: seq<Event>, end: set<string>)
      requires AllCalled(was, before, now, after) && AllCalled(now, after, next, end) && before <= after <= end
      ensures AllCalled(was, before, next, end)
    {
    }

    /** Looking through the list of `t` from call number `c` on: up to the first transport, or to the end. */
    ghost predicate Tried(t: string, c: nat, clock: nat, selection: Selection) { TriedList(Length(t), c, clock, selection) }

    /** The same for a list of `n` entries. */
    ghost predicate TriedList(n: nat, c: nat, clock: nat, selection: Selection) {
      var k := FirstTransport(reply, c, n);
      if k < n then selection == reply(c + k) && selection.Transport? && clock == c + k + 1
      else !selection.Transport? && clock == c + n
    }

    /** The same for the first `i` entries. */
    ghost predicate TriedUpTo(i: nat, c: nat, n: nat, clock: nat, selection: Selection) {
      && i <= n && clock == c + i
      && if selection.Transport? then i > 0 && FirstTransport(reply, c, n) == i - 1 && selection == reply(c + i - 1)
         else FirstTransport(reply, c, n) >= i
    }

    lemma TryNone(c: nat, n: nat)
      ensures TriedUpTo(0, c, n, c, Nothing)
    {
    }

    lemma TryEnd(t: string, i: nat, c: nat, clock: nat, selection: Selection)
      requires TriedUpTo(i, c, Length(t), clock, selection) && (i == Length(t) || selection.Transport?)
      ensures Tried(t, c, clock, selection) && clock == c + i
      ensures selection.Transport? <==> FirstTransport(reply, c, Length(t)) < Length(t)
    {
    }

    lemma TryNext(i: nat, c: nat, n: nat, selection: Selection)
      requires TriedUpTo(i, c, n, c + i, selection) && i < n && !selection.Transport?
      ensures c + i + 1 > 0 && TriedUpTo(i + 1, c, n, c + i + 1, if reply(c + i).Redirect? then Nothing else reply(c + i))
    {
    }

    /** `inspected[ dataType ] = true`. */
    method TakeUp(t: string)
      requires Valid() && t !in inspected
      requires executeOnly ==> Followed(log, inspected + {t} + inherited)
      modifies `inspected, `log
      ensures Valid() && inspected == old(inspected) + {t} && log == old(log) + [Scan(t)] && Grew(old(log), log)
      ensures CalledUpTo(t, 0, old(log), old(inspected), log, inspected)
      ensures executeOnly ==> Followed(log, inspected + inherited)
      ensures Left(inspected) <= Left(old(inspected)) && (IsKnown(t) ==> Left(inspected) < Left(old(inspected)))
    {
      hide Request.Left, Request.IsKnown, Request.Known;
      FewerLeft(inspected, inspected + {t}, t);
      Untouched(log, t);
      AfterScan(log, t, reply, inherited, initial);
      NoneYet(t, log, inspected, log + [Scan(t)]);
      hide InOrder, Clock, Answered, Replay, Calls, Scans, Followed, Request.CalledUpTo;
      inspected, log := inspected + {t}, log + [Scan(t)];
    }

    /** `list[ i ]( options, originalOptions, jqXHR )` and, where that is to be followed, `unshift`. */
    method CallFilter(t: string, i: nat) returns (answer: Selection, followed: bool)
      requires Valid() && t in inspected && i == Calls(log, t)
      requires executeOnly ==> Followed(log, inspected + inherited)
      modifies `dataTypes, `clock, `log
      ensures Valid() && answer == reply(old(clock)) && clock == old(clock) + 1
      ensures log == old(log) + [Call(t, i, answer)] && Grew(old(log), log)
      ensures forall u :: Calls(log, u) == Calls(old(log), u) + if u == t then 1 else 0
      ensures followed == (executeOnly && answer.Redirect? && answer.dataType !in inspected && answer.dataType !in inherited)
      ensures executeOnly && !followed ==> Followed(log, inspected + inherited)
      ensures followed ==> Followed(log, inspected + {answer.dataType} + inherited)
    {
      answer := reply(clock);
      followed := executeOnly && answer.Redirect? && answer.dataType !in inspected && answer.dataType !in inherited;
      if followed {
        dataTypes := [answer.dataType] + dataTypes;
      }
      if followed {
        FollowedMore(log, inspected + inherited, inspected + {answer.dataType} + inherited);
      }
      Logged(log, Call(t, i, answer));
      log, clock := log + [Call(t, i, answer)], clock + 1;
    }

    /** One round of the loop over the list of `t`. */
    method Step(t: string, i: nat, ghost was: seq<Event>, ghost before: set<string>, ghost c: nat, ghost last: Selection)
      returns (selection: Selection)
      requires Valid() && i < Length(t) && before + {t} <= inspected && Grew(was, log)
      requires CalledUpTo(t, i, was, before, log, inspected)
      requires executeOnly ==> Followed(log, inspected + inherited)
      requires !executeOnly ==> inspected == before + {t} && clock == c + i && !last.Transport? && TriedUpTo(i, c, Length(t), clock, last)
      modifies `dataTypes, `inspected, `clock, `log
      ensures Valid() && old(inspected) <= inspected && Left(inspected) <= Left(old(inspected)) && Grew(was, log)
      ensures CalledUpTo(t, i + 1, was, before, log, inspected)
      ensures executeOnly ==> Followed(log, inspected + inherited)
      ensures !executeOnly ==> inspected == before + {t} && clock == c + i + 1 && TriedUpTo(i + 1, c, Length(t), clock, selection)
      decreases Left(inspected), 2
    {
      hide InOrder, Answered, Replay, Scans, Calls, Clock, Followed, FirstTransport, Grew;
      hide Request.Valid, Request.AllCalled, Request.CalledUpTo, Request.TriedUpTo, Request.Left, Request.IsKnown;
      ghost var now, after := log, inspected;
      SoFar(t, i, was, before, log, inspected);
      if !executeOnly { TryNext(i, c, Length(t), last); }
      var followed: bool;
      selection, followed := CallFilter(t, i);
      OneMore(t, i, was, before, now, after, log);
      GrewTwice(was, now, log);
      if followed {
        now := log;
        selection := Inspect(selection.dataType);
        NoMoreLeft(after, inspected);
        Inside(t, i + 1, was, before, now, after, log, inspected);
        GrewTwice(was, now, log);
      } else if selection.Redirect? {
        selection := Nothing;
      }
    }

    method Inspect(t: string) returns (selection: Selection)
      requires Valid() && t !in inspected
      requires executeOnly ==> Followed(log, inspected + {t} + inherited)
      modifies `dataTypes, `inspected, `clock, `log
      ensures Valid() && old(inspected) + {t} <= inspected && Grew(old(log), log)
      ensures executeOnly ==> ANY in inspected && Followed(log, inspected + inherited)
      ensures executeOnly ==> AllCalled(old(log), old(inspected), log, inspected)
      ensures !executeOnly ==>
                var k := FirstTransport(reply, old(clock), Length(t));
                if k < Length(t) || t == ANY || ANY in old(inspected)
                then Tried(t, old(clock), clock, selection) && inspected == old(inspected) + {t}
                else Tried(ANY, old(clock) + Length(t), clock, selection) && inspected == old(inspected) + {t, ANY}
      decreases Left(inspected), if IsKnown(t) then 0 else 1
    {
      hide InOrder, Answered, Replay, Scans, Calls, Clock, Followed, FirstTransport, Grew;
      hide Request.Valid, Request.AllCalled, Request.CalledUpTo, Request.TriedUpTo, Request.Tried, Request.Left, Request.IsKnown;
      ghost var before, was, c := inspected, log, clock;
      TakeUp(t);
      ghost var taken := inspected;
      TryNone(c, Length(t));
      selection := Nothing;
      var i := 0;
      while i < Length(t) && (executeOnly || !selection.Transport?)
        invariant i <= Length(t) && Valid() && before + {t} <= inspected && Grew(was, log)
        invariant Left(inspected) <= Left(taken)
        invariant CalledUpTo(t, i, was, before, log, inspected)
        invariant executeOnly ==> Followed(log, inspected + inherited)
        invariant !executeOnly ==> inspected == before + {t} && clock == c + i && TriedUpTo(i, c, Length(t), clock, selection)
        decreases Length(t) - i
      {
        KnownTypes(t);
        selection := Step(t, i, was, before, c, selection);
        i := i + 1;
      }
      if executeOnly {
        AllUp(t, was, before, log, inspected);
      } else {
        TryEnd(t, i, c, clock, selection);
      }
      if (executeOnly || !selection.Transport?) && ANY !in inspected {
        ghost var now, after := log, inspected;
        KnownTypes(t);
        if executeOnly {
          FollowedMore(log, inspected + inherited, inspected + {ANY} + inherited);
        }
        selection := Inspect(ANY);
        GrewTwice(was, now, log);
        if executeOnly {
          Joined(was, before, now, after, log, inspected);
        }
      }
    }

    /** The call at the start of a request: with the first of `options.dataTypes`, and nothing inspected yet. */
    method Dispatch() returns (selection: Selection)
      requires Valid() && log == [] && inspected == {}
      modifies `dataTypes, `inspected, `clock, `log
      ensures Valid() && First() in inspected
      ensures forall u :: Scans(log, u) <= 1
      ensures executeOnly ==> ANY in inspected && Followed(log, inspected + inherited)
      ensures executeOnly ==> forall u :: Calls(log, u) == if u in inspected && u in structure then structure[u] else 0
      ensures !executeOnly ==>
                var n := if First() in structure then structure[First()] else 0;
                var more := if ANY in structure then structure[ANY] else 0;
                if FirstTransport(reply, 0, n) < n || First() == ANY then TriedList(n, 0, clock, selection)
                else TriedList(more, n, clock, selection)
    {
      assert dataTypes == initial && (forall types :: Followed(log, types)) && forall u :: Calls(log, u) == 0;
      hide FirstTransport, Request.TriedList, InOrder, Answered, Calls, Followed, Replay;
      var t := if |dataTypes| > 0 then dataTypes[0] else "undefined";
      selection := Inspect(t);
    }

    /** The data type with which a request starts. */
    ghost function First(): string { if |initial| > 0 then initial[0] else "undefined" }
  }
}
