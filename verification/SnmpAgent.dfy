/** GET and GETNEXT of the SNMP agent on the metrics subtree: OidToMetricBridge and the
    metrics branches of SnmpAgent. An object identifier under the root is modelled by its
    suffix, the sub-identifiers that follow the root; each is an unsigned 32-bit number. */
module SnmpAgent {
  import opened Lex
  import opened MetricIndex
  import opened Wrappers

  type SubId = x: nat | x < 0x1_0000_0000

  type Suffix = seq<SubId>

  datatype Variable = OctetString(text: string) | Integer32(value: int) | NoSuchObject

  datatype OidValue = OidValue(suffix: Suffix, value: Variable)

  /** A null reply is the end of the MIB view. */
  type Reply = Outcome<Option<OidValue>>

  function ObjectToVariable(value: Option<Object>): Variable {
    match value
    case None => NoSuchObject
    case Some(Text(s)) => OctetString(s)
    case Some(Long(n)) => Integer32(Int32(n))
    case Some(Bool(b)) => Integer32(if b then 1 else 0)
  }

  function MetricVariable(s: Service, moduleIndex: int, metricIndex: int): Outcome<Variable>
    requires s.Valid()
  {
    match s.GetMetric(Int32(moduleIndex - 1), Int32(metricIndex - 1))
    case NullPointer => NullPointer
    case Done(value) => Done(ObjectToVariable(value))
  }

  function ModuleObject(s: Service, moduleIndex: int): Option<Object> {
    match s.GetModule(Int32(moduleIndex - 1))
    case None => None
    case Some(name) => Some(Text(name))
  }

  /** `getMetricOidVariable` for an identifier that extends the root. */
  function GetMetricOidVariable(s: Service, oid: Suffix): Outcome<Variable>
    requires s.Valid()
  {
    if |oid| > 1 then MetricVariable(s, Int32(oid[0]), Int32(oid[1]))
    else if |oid| > 0 then Done(ObjectToVariable(ModuleObject(s, Int32(oid[0]))))
    else Done(NoSuchObject)
  }

  /** `getValueforOID` for an identifier under the root; the root and its `.0` are described by `sysDescr`. */
  function GetValueForOid(s: Service, sysDescr: string, oid: Suffix): Outcome<Variable>
    requires s.Valid()
  {
    if oid == [] || oid == [0] then Done(OctetString(sysDescr)) else GetMetricOidVariable(s, oid)
  }

  predicate IsValidModuleMetricIndex(s: Service, moduleIndex: int, metricIndex: int)
    requires s.Valid()
  {
    var index := Int32(metricIndex - 1);
    0 <= index < s.GetModuleMetricCount(Int32(moduleIndex - 1))
  }

  function GetNextMetricOidValue(s: Service, moduleIndex: int, metricIndex: int): Reply
    requires s.Valid()
    requires -0x8000_0000 <= moduleIndex < 0x8000_0000 && -0x8000_0000 <= metricIndex < 0x8000_0000
  {
    if IsValidModuleMetricIndex(s, moduleIndex, Int32(metricIndex + 1)) then
      match MetricVariable(s, moduleIndex, Int32(metricIndex + 1)) {
        case NullPointer => NullPointer
        case Done(value) =>
          Done(Some(OidValue([Unsigned(moduleIndex), Unsigned(Int32(metricIndex + 1))], value)))
      }
    else
      var value := ModuleObject(s, Int32(moduleIndex + 1));
      if value != None then
        Done(Some(OidValue([Unsigned(Int32(moduleIndex + 1))], ObjectToVariable(value))))
      else Done(None)
  }

  /** An int as a sub-identifier. */
  function Unsigned(x: int): SubId {
    x % 0x1_0000_0000
  }

  /** `getNextOidValue` for an identifier under the root. */
  function GetNextOidValue(s: Service, oid: Suffix): Reply
    requires s.Valid()
  {
    var moduleIndex := if |oid| == 1 || |oid| == 2 then Int32(oid[0]) else 0;
    var metricIndex := if |oid| == 2 then Int32(oid[1]) else 0;
    GetNextMetricOidValue(s, moduleIndex, metricIndex)
  }

  // ----- the MIB view and its order

  /** The objects under the root: the modules, numbered from 1, and below each its metrics, numbered from 1. */
  ghost predicate IsNode(s: Service, oid: Suffix)
    requires s.Valid()
  {
    && 1 <= |oid| <= 2
    && 1 <= oid[0] <= |s.moduleNames|
    && (|oid| == 2 ==> 1 <= oid[1] <= Count(s, oid[0]))
  }

  function Count(s: Service, m: int): nat
    requires s.Valid()
  {
    if 1 <= m <= |s.moduleNames| then |s.metricNames[s.moduleNames[m - 1]]| else 0
  }

  /** `next` is the lexicographically least object after `oid`. */
  ghost predicate IsSuccessor(s: Service, oid: Suffix, next: Suffix)
    requires s.Valid()
  {
    && IsNode(s, next) && Before(oid, next)
    && forall n: Suffix :: IsNode(s, n) && Before(oid, n) ==> n == next || Before(next, n)
  }

  ghost predicate IsLast(s: Service, oid: Suffix)
    requires s.Valid()
  {
    forall n: Suffix :: IsNode(s, n) ==> !Before(oid, n)
  }

  /** The object that comes after position (m, k), found by arithmetic on the numbering. */
  function NextNode(s: Service, m: nat, k: nat): (r: Option<Suffix>)
    requires s.Valid()
    ensures r.Some? ==> IsNode(s, r.value)
  {
    if 1 <= m <= |s.moduleNames| && k + 1 <= Count(s, m) then Some([m, k + 1])
    else if m + 1 <= |s.moduleNames| then Some([m + 1])
    else None
  }

  lemma BeforeShort(p: Suffix, q: Suffix)
    requires |p| <= 2 && 1 <= |q| <= 2
    ensures Before(p, q) <==>
      p == [] || p[0] < q[0] || (p[0] == q[0] && |q| == 2 && (|p| == 1 || p[1] < q[1]))
  {
    if p != [] {
      assert Before(p[1..], q[1..]) <==> |q| == 2 && (|p| == 1 || p[1] < q[1]) by {
        if |q| == 2 && |p| == 2 {
          assert p[1..] == [p[1]] && q[1..] == [q[1]];
        }
      }
    }
  }

  /** Arithmetic on the numbering finds the successor of every identifier of at most two numbers. */
  lemma NextNodeIsSuccessor(s: Service, oid: Suffix)
    requires s.Valid() && |oid| <= 2
    ensures match NextNode(s, if |oid| > 0 then oid[0] else 0, if |oid| > 1 then oid[1] else 0)
            case Some(next) => IsSuccessor(s, oid, next)
            case None => IsLast(s, oid)
  {
    var m, k := if |oid| > 0 then oid[0] else 0, if |oid| > 1 then oid[1] else 0;
    forall n: Suffix | IsNode(s, n)
      ensures NextNode(s, m, k).None? ==> !Before(oid, n)
      ensures NextNode(s, m, k).Some? ==>
        var next := NextNode(s, m, k).value;
        Before(oid, next) && (Before(oid, n) ==> n == next || Before(next, n))
    {
      BeforeShort(oid, n);
      if NextNode(s, m, k).Some? {
        var next := NextNode(s, m, k).value;
        BeforeShort(oid, next);
        BeforeShort(next, n);
      }
    }
    if NextNode(s, m, k).Some? {
      BeforeShort(oid, NextNode(s, m, k).value);
    }
  }

  // ----- what is sent

  /** `v` stands for the value `kept`: a text as that text, a number as its low 32 bits, so as itself if it has no more, true
      as 1 and false as 0, and no value as no such object. */
  ghost predicate StandsForValue(kept: Option<Object>, v: Variable) {
    match kept
    case None => v == NoSuchObject
    case Some(Text(t)) => v == OctetString(t)
    case Some(Bool(b)) => v.Integer32? && (b ==> v.value == 1) && (!b ==> v.value == 0)
    case Some(Long(n)) =>
      && v.Integer32? && (-0x8000_0000 <= n < 0x8000_0000 ==> v.value == n)
      && -0x8000_0000 <= v.value < 0x8000_0000 && (v.value - n) % 0x1_0000_0000 == 0
  }

  /** `get` is right for the metric of that name: the value kept in the store under its full name, an exception for a name that
      is empty. */
  ghost predicate SendsStored(s: Service, moduleName: string, metricName: string, get: Outcome<Variable>) {
    var full := "hackorama." + moduleName + "." + metricName;
    if moduleName == "" || metricName == "" then get == NullPointer
    else get.Done? && StandsForValue(if full in s.store then s.store[full].value else None, get.value)
  }

  /** GET on the object of a module answers its name; on that of a metric, what is stored for it. */
  lemma GetMeans(s: Service, sysDescr: string, m: nat, k: nat)
    requires s.Valid() && m < |s.moduleNames|
    ensures m + 1 < 0x1_0000_0000 && GetValueForOid(s, sysDescr, [m + 1]) == Done(OctetString(s.moduleNames[m]))
    ensures k < |s.metricNames[s.moduleNames[m]]| ==>
              && k + 1 < 0x1_0000_0000
              && SendsStored(s, s.moduleNames[m], s.metricNames[s.moduleNames[m]][k], GetValueForOid(s, sysDescr, [m + 1, k + 1]))
  {
    if k < |s.metricNames[s.moduleNames[m]]| {
      FullNameIs(s.metricNames[s.moduleNames[m]][k], s.moduleNames[m]);
    }
    hide FullName;
  }

  lemma FullNameIs(name: string, moduleName: string)
    ensures name == "" || moduleName == "" ==> FullName(name, moduleName) == None
    ensures name != "" && moduleName != "" ==> FullName(name, moduleName) == Some("hackorama." + moduleName + "." + name)
  {
    assert "hackorama" + "." == "hackorama.";
  }

  /** Anywhere else up to two numbers below the root there is no such object, but for the root and its `.0`; further down the
      first two numbers decide. */
  lemma GetElsewhere(s: Service, sysDescr: string, oid: Suffix)
    requires s.Valid()
    ensures oid == [] || oid == [0] ==> GetValueForOid(s, sysDescr, oid) == Done(OctetString(sysDescr))
    ensures 1 <= |oid| <= 2 && oid != [0] && !IsNode(s, oid) ==> GetValueForOid(s, sysDescr, oid) == Done(NoSuchObject)
    ensures |oid| > 2 ==> GetValueForOid(s, sysDescr, oid) == GetValueForOid(s, sysDescr, oid[..2])
  {
  }

  /** The object comes with the name of the module, or with what is stored for the metric. */
  ghost predicate Bound(s: Service, next: OidValue)
    requires s.Valid() && IsNode(s, next.suffix)
  {
    var moduleName := s.moduleNames[next.suffix[0] - 1];
    if |next.suffix| == 1 then next.value == OctetString(moduleName)
    else SendsStored(s, moduleName, s.metricNames[moduleName][next.suffix[1] - 1], Done(next.value))
  }

  lemma GetBinds(s: Service, sysDescr: string, next: OidValue)
    requires s.Valid() && IsNode(s, next.suffix) && GetValueForOid(s, sysDescr, next.suffix) == Done(next.value)
    ensures Bound(s, next)
  {
    var oid := next.suffix;
    GetMeans(s, sysDescr, oid[0] - 1, if |oid| == 2 then oid[1] - 1 else 0);
    assert |oid| == 1 ==> oid == [oid[0]];
    assert |oid| == 2 ==> oid == [oid[0], oid[1]];
    hide GetValueForOid, SendsStored;
  }

  // ----- GETNEXT

  /** What GETNEXT answers, from the numbering: the next object with its GET value. */
  function Expected(s: Service, sysDescr: string, m: nat, k: nat): Reply
    requires s.Valid()
  {
    match NextNode(s, m, k)
    case None => Done(None)
    case Some(next) =>
      match GetValueForOid(s, sysDescr, next)
      case NullPointer => NullPointer
      case Done(value) => Done(Some(OidValue(next, value)))
  }

  lemma ValidIndexMeans(s: Service, m: SubId, k: SubId)
    requires s.Valid()
    ensures IsValidModuleMetricIndex(s, Int32(m), Int32(Int32(k) + 1)) <==> 1 <= m <= |s.moduleNames| && k + 1 <= Count(s, m)
  {
  }

  lemma NextModuleMeans(s: Service, m: SubId)
    requires s.Valid()
    ensures m + 1 <= |s.moduleNames| ==>
              m + 1 <= 0xFFFF_FFFF && Unsigned(Int32(Int32(m) + 1)) == m + 1 && Int32(Int32(m) + 1) == Int32(m + 1)
    ensures ModuleObject(s, Int32(Int32(m) + 1)).Some? <==> m + 1 <= |s.moduleNames|
  {
  }

  lemma NextMetricMeans(s: Service, m: SubId, k: SubId)
    requires s.Valid() && 1 <= m <= |s.moduleNames| && k + 1 <= Count(s, m)
    ensures k + 1 <= 0xFFFF_FFFF && Unsigned(Int32(m)) == m && Unsigned(Int32(Int32(k) + 1)) == k + 1
    ensures Int32(Int32(m)) == Int32(m) && Int32(Int32(k) + 1) == Int32(k + 1)
  {
  }

  /** The 32-bit index arithmetic never goes astray, not even where it wraps. */
  lemma ReplyIsExpected(s: Service, sysDescr: string, m: SubId, k: SubId)
    requires s.Valid()
    ensures GetNextMetricOidValue(s, Int32(m), Int32(k)) == Expected(s, sysDescr, m, k)
  {
    ValidIndexMeans(s, m, k);
    NextModuleMeans(s, m);
    if 1 <= m <= |s.moduleNames| && k + 1 <= Count(s, m) {
      NextMetricMeans(s, m, k);
    }
    hide Int32, Unsigned, IsValidModuleMetricIndex, Count, ModuleObject, MetricVariable;
  }

  /** GETNEXT on the root or up to two numbers below it: the answer is the least object after
      the identifier, bound to the very value that GET has for it; at the end of the view there is
      no such object; and the call fails only where GET on that object fails. */
  lemma GetNextIsSuccessor(s: Service, sysDescr: string, oid: Suffix)
    requires s.Valid() && |oid| <= 2
    ensures match GetNextOidValue(s, oid)
            case Done(Some(next)) =>
              IsSuccessor(s, oid, next.suffix) && GetValueForOid(s, sysDescr, next.suffix) == Done(next.value) && Bound(s, next)
            case Done(None) => IsLast(s, oid)
            case NullPointer =>
              exists next: Suffix :: IsSuccessor(s, oid, next) && GetValueForOid(s, sysDescr, next) == NullPointer
  {
    var m, k := if |oid| > 0 then oid[0] else 0, if |oid| > 1 then oid[1] else 0;
    ReplyIsExpected(s, sysDescr, m, k);
    NextNodeIsSuccessor(s, oid);
    hide GetValueForOid, Bound;
    match GetNextOidValue(s, oid)
    case Done(Some(next)) => GetBinds(s, sysDescr, next);
    case _ =>
  }

  /** GETNEXT goes forward to the right place. */
  ghost predicate Advances(s: Service, oid: Suffix)
    requires s.Valid()
  {
    match GetNextOidValue(s, oid)
    case Done(Some(next)) => IsSuccessor(s, oid, next.suffix)
    case Done(None) => IsLast(s, oid)
    case NullPointer => exists next: Suffix :: IsSuccessor(s, oid, next)
  }

  /** Further down the tree GETNEXT restarts at the first module, so it goes forward exactly when
      the identifier lies before every module or there is none. */
  lemma AdvancesExactly(s: Service, oid: Suffix)
    requires s.Valid()
    ensures Advances(s, oid) <==> |oid| <= 2 || oid[0] == 0 || s.moduleNames == []
  {
    if |oid| <= 2 {
      GetNextIsSuccessor(s, "", oid);
    } else {
      ReplyIsExpected(s, "", 0, 0);
      var first: Suffix := [1];
      if s.moduleNames != [] {
        assert IsNode(s, first);
        if oid[0] == 0 {
          forall n: Suffix | IsNode(s, n) ensures n == first || Before(first, n) {
            BeforeShort(first, n);
          }
        } else {
          assert first[1..] == [] && !Before(oid, first);
        }
      }
    }
  }

  // ----- walks

  /** How many objects come after position (m, k). */
  ghost function Remaining(s: Service, m: nat, k: nat): nat
    requires s.Valid()
    decreases |s.moduleNames| - m
  {
    (if 1 <= m <= |s.moduleNames| && k < Count(s, m) then Count(s, m) - k else 0) +
    (if m < |s.moduleNames| then 1 + Remaining(s, m + 1, 0) else 0)
  }

  ghost function After(s: Service, oid: Suffix): nat
    requires s.Valid() && |oid| <= 2
  {
    Remaining(s, if |oid| > 0 then oid[0] else 0, if |oid| > 1 then oid[1] else 0)
  }

  lemma NextShrinks(s: Service, m: nat, k: nat)
    requires s.Valid()
    ensures match NextNode(s, m, k)
            case Some(next) => |next| <= 2 && After(s, next) < Remaining(s, m, k)
            case None => true
  {
  }

  lemma WalkShrinks(s: Service, oid: Suffix)
    requires s.Valid() && |oid| <= 2
    ensures match GetNextOidValue(s, oid)
            case Done(Some(next)) => |next.suffix| <= 2 && After(s, next.suffix) < After(s, oid)
            case _ => true
  {
    var m, k := if |oid| > 0 then oid[0] else 0, if |oid| > 1 then oid[1] else 0;
    ReplyIsExpected(s, "", m, k);
    NextShrinks(s, m, k);
    hide Remaining, NextNode, GetNextMetricOidValue, GetValueForOid;
  }

  /** The identifiers a manager sees when it keeps asking for the next object. */
  ghost function Walk(s: Service, oid: Suffix): seq<Suffix>
    requires s.Valid() && |oid| <= 2
    decreases After(s, oid)
  {
    WalkShrinks(s, oid);
    match GetNextOidValue(s, oid)
    case Done(Some(next)) => [next.suffix] + Walk(s, next.suffix)
    case _ => []
  }

  /** GET on the object raises no exception. */
  predicate Answers(s: Service, n: Suffix)
    requires s.Valid()
  {
    GetValueForOid(s, "", n) != NullPointer
  }

  lemma SuccessorSplits(s: Service, oid: Suffix, next: Suffix)
    requires s.Valid() && IsSuccessor(s, oid, next)
    ensures forall n: Suffix :: IsNode(s, n) ==> (Before(oid, n) <==> n == next || Before(next, n))
    ensures !Before(next, next)
  {
    forall n: Suffix | IsNode(s, n) && Before(next, n) ensures Before(oid, n) {
      BeforeTransitive(oid, next, n);
    }
    BeforeIrreflexive(next);
  }

  /** A walk sees objects only, in increasing order and so none twice, and it sees all of them
      exactly when none of them makes GET fail. */
  lemma {:induction false} WalkVisitsAll(s: Service, oid: Suffix)
    requires s.Valid() && |oid| <= 2
    ensures Increasing(Walk(s, oid))
    ensures forall n <- Walk(s, oid) :: IsNode(s, n) && Before(oid, n)
    ensures (forall n: Suffix :: IsNode(s, n) && Before(oid, n) ==> n in Walk(s, oid)) <==>
            (forall n: Suffix :: IsNode(s, n) && Before(oid, n) ==> Answers(s, n))
    decreases After(s, oid)
  {
    hide GetNextOidValue, GetValueForOid, IsNode, Before;
    WalkShrinks(s, oid);
    GetNextIsSuccessor(s, "", oid);
    match GetNextOidValue(s, oid)
    case Done(Some(first)) =>
      var next := first.suffix;
      WalkVisitsAll(s, next);
      assert Walk(s, oid) == [next] + Walk(s, next);
      SuccessorSplits(s, oid, next);
    case _ =>
  }

  /** GET fails on a metric exactly when its name or its module's name is empty. */
  lemma AnswersExactly(s: Service, n: Suffix)
    requires s.Valid() && IsNode(s, n)
    ensures Answers(s, n) <==>
      |n| == 1 || (s.moduleNames[n[0] - 1] != "" && s.metricNames[s.moduleNames[n[0] - 1]][n[1] - 1] != "")
  {
  }
}
