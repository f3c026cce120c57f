/** MIB generation: MIBEngine numbers modules and metrics with its own counters while it
    appends to the Transformer's buffer. Proved to agree with the numbering of the agent. */
module MibEngine {
  import opened MetricIndex
  import opened SnmpAgent
  import opened Wrappers

  /** One appended piece of MIB text. A section also records which metric it was built from. */
  datatype Line =
    | Header(name: string, date: string, urlMessage: string)
    | OidLine(name: string, parent: string, id: int)
    | ObjectSection(moduleName: string, metricName: string, descriptor: string, syntax: string,
                    description: string, parentLabel: string, id: int)
    | EmptyLine
    | EndLine

  const ENTERPRISE_NAME := "enterprises"
  const NAME_DEFAULT := "NOT_PROVIDED"
  const SUBTREE_ROOT := "metrics"
  const COMMON_ROOT_COUNT := 6
  const DESCRIPTOR_MAXLENGTH := 64

  function SyntaxOf(kind: Type): string {
    match kind
    case TEXT => "DisplayString"
    case NUMBER => "INTEGER"
    case BOOLEAN => "INTEGER  {true(1), false(2)}"
  }

  predicate IsAlphaNumeric(c: char) {
    'A' <= c <= 'Z' || 'a' <= c <= 'z' || '0' <= c <= '9'
  }

  function Kept(c: char): string { if IsAlphaNumeric(c) then [c] else "" }

  function AlphaNumericOnly(s: string): string {
    if s == "" then "" else Kept(s[0]) + AlphaNumericOnly(s[1..])
  }

  function UpperChar(c: char): char {
    if 'a' <= c <= 'z' then c - 'a' + 'A' else c
  }

  function Upper(s: string): string {
    if s == "" then "" else [UpperChar(s[0])] + Upper(s[1..])
  }

  /** `Template.validDescriptor`; `reserved` holds the reserved words in upper case. */
  function ValidDescriptor(reserved: set<string>, value: string): string {
    var alphaNumericOnly := AlphaNumericOnly(value);
    var name := if Upper(alphaNumericOnly) in reserved then "metric" + alphaNumericOnly else alphaNumericOnly;
    if |name| > DESCRIPTOR_MAXLENGTH then name[..DESCRIPTOR_MAXLENGTH] else name
  }

  // ----- what the MIB should say

  /** The module at position `i` gets the id `i + 1`. */
  function ModuleLines(s: Service): seq<Line> {
    seq(|s.moduleNames|, i requires 0 <= i < |s.moduleNames| =>
      OidLine(s.moduleNames[i], SUBTREE_ROOT, i + 1))
  }

  /** The metric's entry in the store, if MIB generation can read it. */
  function Entry(s: Service, moduleName: string, metricName: string): Option<Metric> {
    match s.Lookup(FullName(metricName, moduleName))
    case Done(metric) => metric
    case NullPointer => None
  }

  function Description(name: string, given: string): string {
    if given == "" then "Metric for " + name else given
  }

  function Section(s: Service, reserved: set<string>, moduleName: string, metricName: string, id: int): Line {
    var properties := Entry(s, moduleName, metricName).GetOrElse(Metric(NUMBER, "", None));
    ObjectSection(moduleName, metricName, ValidDescriptor(reserved, metricName), SyntaxOf(properties.kind),
                  Description(metricName, properties.description), ValidDescriptor(reserved, moduleName), id)
  }

  /** The first `k` of the metrics `names` of one module, numbered from 1. */
  function SectionsOf(s: Service, reserved: set<string>, moduleName: string, names: seq<string>, k: nat): seq<Line>
    requires k <= |names|
  {
    if k == 0 then []
    else SectionsOf(s, reserved, moduleName, names, k - 1) + [Section(s, reserved, moduleName, names[k - 1], k)]
  }

  function ModuleSections(s: Service, reserved: set<string>, moduleName: string): seq<Line> {
    var names := s.GetModuleMetricNames(moduleName);
    SectionsOf(s, reserved, moduleName, names, |names|)
  }

  /** The metrics of the first `m` modules. */
  function Sections(s: Service, reserved: set<string>, m: nat): seq<Line>
    requires m <= |s.moduleNames|
  {
    if m == 0 then [] else Sections(s, reserved, m - 1) + ModuleSections(s, reserved, s.moduleNames[m - 1])
  }

  function AllSections(s: Service, reserved: set<string>): seq<Line> {
    Sections(s, reserved, |s.moduleNames|)
  }

  /** The first `k` of the metrics `names` are in the store. */
  ghost predicate Stored(s: Service, moduleName: string, names: seq<string>, k: nat)
    requires k <= |names|
  {
    forall j :: 0 <= j < k ==> Entry(s, moduleName, names[j]).Some?
  }

  ghost predicate ModuleStored(s: Service, moduleName: string) {
    var names := s.GetModuleMetricNames(moduleName);
    Stored(s, moduleName, names, |names|)
  }

  /** Every listed metric is in the store. */
  ghost predicate AllStored(s: Service) { StoredUpTo(s, |s.moduleNames|) }

  ghost predicate StoredUpTo(s: Service, m: nat)
    requires m <= |s.moduleNames|
  {
    m == 0 || (StoredUpTo(s, m - 1) && ModuleStored(s, s.moduleNames[m - 1]))
  }

  lemma {:induction false} StoredUpToAt(s: Service, m: nat)
    requires m <= |s.moduleNames|
    ensures StoredUpTo(s, m) <==> forall i :: 0 <= i < m ==> ModuleStored(s, s.moduleNames[i])
  {
    if m > 0 { StoredUpToAt(s, m - 1); }
  }

  // ----- generation

  class Transformer {
    var buffer: seq<Line>

    constructor ()
      ensures buffer == []
    {
      buffer := [];
    }

    method TransformOidLine(name: string, parent: string, id: int)
      modifies this
      ensures buffer == old(buffer) + [OidLine(name, parent, id)]
    {
      buffer := buffer + [OidLine(name, parent, id)];
    }

    method Append(line: Line)
      modifies this
      ensures buffer == old(buffer) + [line]
    {
      buffer := buffer + [line];
    }
  }

  method BuildModules(s: Service, transformer: Transformer, parent: string)
    requires parent == SUBTREE_ROOT
    modifies transformer
    ensures transformer.buffer == old(transformer.buffer) + ModuleLines(s) + [EmptyLine]
  {
    var id := 1;
    for i := 0 to |s.moduleNames|
      invariant id == i + 1
      invariant transformer.buffer == old(transformer.buffer) + ModuleLines(s)[..i]
    {
      transformer.TransformOidLine(s.moduleNames[i], parent, id);
      id := id + 1;
    }
    transformer.Append(EmptyLine);
  }

  /** `getMetricProperties` and `buildMetric`: null properties are dereferenced. */
  method BuildMetric(s: Service, reserved: set<string>, transformer: Transformer,
                     name: string, parent: string, id: int) returns (ok: bool)
    modifies transformer
    ensures ok <==> Entry(s, parent, name).Some?
    ensures transformer.buffer == old(transformer.buffer) + if ok then [Section(s, reserved, parent, name, id)] else []
  {
    var properties := s.Lookup(FullName(name, parent));
    if properties == NullPointer || properties.value == None {
      return false;
    }
    var given := properties.value.value.description;
    var description := if |given| > 0 then given else "Metric for " + name;
    transformer.Append(ObjectSection(parent, name, ValidDescriptor(reserved, name), SyntaxOf(properties.value.value.kind),
                                     description, ValidDescriptor(reserved, parent), id));
    ok := true;
  }

  method BuildMetrics(s: Service, reserved: set<string>, transformer: Transformer, moduleName: string) returns (ok: bool)
    modifies transformer
    ensures ok <==> ModuleStored(s, moduleName)
    ensures ok ==> transformer.buffer == old(transformer.buffer) + ModuleSections(s, reserved, moduleName)
  {
    var names := s.GetModuleMetricNames(moduleName);
    var id := 1;
    for j := 0 to |names|
      invariant id == j + 1
      invariant Stored(s, moduleName, names, j)
      invariant transformer.buffer == old(transformer.buffer) + SectionsOf(s, reserved, moduleName, names, j)
    {
      ok := BuildMetric(s, reserved, transformer, names[j], moduleName, id);
      if !ok {
        return;
      }
      id := id + 1;
    }
    ok := true;
  }

  method BuildAllMetrics(s: Service, reserved: set<string>, transformer: Transformer) returns (ok: bool)
    modifies transformer
    ensures ok <==> AllStored(s)
    ensures ok ==> transformer.buffer == old(transformer.buffer) + AllSections(s, reserved)
  {
    hide ModuleStored, ModuleSections;
    for i := 0 to |s.moduleNames|
      invariant StoredUpTo(s, i)
      invariant transformer.buffer == old(transformer.buffer) + Sections(s, reserved, i)
    {
      ok := BuildMetrics(s, reserved, transformer, s.moduleNames[i]);
      if !ok {
        StoredUpToAt(s, |s.moduleNames|);
        return;
      }
    }
    ok := true;
  }

  // ----- the identifiers of the enterprise

  function NameAt(names: seq<string>, i: nat): string { if i < |names| then names[i] else NAME_DEFAULT }

  /** What the first `k` numbers leave in `oidMap`. */
  function NameMap(numbers: seq<int>, names: seq<string>, k: nat): (r: map<int, string>)
    requires k <= |numbers|
    ensures forall i :: COMMON_ROOT_COUNT <= i < k ==> numbers[i] in r
  {
    if k <= COMMON_ROOT_COUNT then map[] else NameMap(numbers, names, k - 1)[numbers[k - 1] := NameAt(names, k - 1)]
  }

  function Private(numbers: seq<int>): seq<int> {
    if |numbers| > COMMON_ROOT_COUNT then numbers[COMMON_ROOT_COUNT..] else []
  }

  ghost predicate Named(names: map<int, string>, list: seq<int>) {
    forall i :: 0 <= i < |list| ==> list[i] in names
  }

  /** The label that the `k`th of the lines hangs under. */
  function ParentOf(names: map<int, string>, list: seq<int>, k: nat): string
    requires k <= |list| && Named(names, list)
  {
    if k == 0 then ENTERPRISE_NAME else names[list[k - 1]]
  }

  function ChainLine(names: map<int, string>, list: seq<int>, i: nat): Line
    requires i < |list| && Named(names, list)
  {
    OidLine(names[list[i]], ParentOf(names, list, i), list[i])
  }

  function ChainLines(names: map<int, string>, list: seq<int>, k: nat): seq<Line>
    requires k <= |list| && Named(names, list)
  {
    if k == 0 then [] else ChainLines(names, list, k - 1) + [ChainLine(names, list, k - 1)]
  }

  lemma {:induction false} ChainLinesAt(names: map<int, string>, list: seq<int>, k: nat)
    requires k <= |list| && Named(names, list)
    ensures |ChainLines(names, list, k)| == k
    ensures forall i :: 0 <= i < k ==> ChainLines(names, list, k)[i] == ChainLine(names, list, i)
  {
    hide ChainLine;
    if k > 0 { ChainLinesAt(names, list, k - 1); }
  }

  /** Line by line, the enterprise's numbers with the names given for them, each under the one before. */
  ghost predicate AsGiven(numbers: seq<int>, names: seq<string>, lines: seq<Line>) {
    && |lines| == |Private(numbers)|
    && forall i {:trigger lines[i]} :: 0 <= i < |lines| ==> lines[i] == GivenLine(numbers, names, i + COMMON_ROOT_COUNT)
  }

  function GivenLine(numbers: seq<int>, names: seq<string>, i: nat): Line
    requires COMMON_ROOT_COUNT <= i < |numbers|
  {
    OidLine(NameAt(names, i), if i == COMMON_ROOT_COUNT then ENTERPRISE_NAME else NameAt(names, i - 1), numbers[i])
  }

  /** A number that occurs twice has the same name both times. */
  ghost predicate SameNames(numbers: seq<int>, names: seq<string>, k: nat)
    requires k <= |numbers|
  {
    forall i, j :: COMMON_ROOT_COUNT <= i < j < k && numbers[i] == numbers[j] ==> NameAt(names, i) == NameAt(names, j)
  }

  lemma {:induction false} NameMapAt(numbers: seq<int>, names: seq<string>, k: nat)
    requires k <= |numbers|
    ensures SameNames(numbers, names, k) <==>
            forall i :: COMMON_ROOT_COUNT <= i < k ==> NameMap(numbers, names, k)[numbers[i]] == NameAt(names, i)
  {
    if k > COMMON_ROOT_COUNT {
      NameMapAt(numbers, names, k - 1);
      var m, n := NameMap(numbers, names, k - 1), NameMap(numbers, names, k);
      if SameNames(numbers, names, k) {
        assert SameNames(numbers, names, k - 1);
      }
      assert n[numbers[k - 1]] == NameAt(names, k - 1);
    }
  }

  /** Private number `i` is mapped to the name given for it. */
  ghost predicate NamedAt(numbers: seq<int>, names: seq<string>, i: nat)
    requires i < |Private(numbers)|
  {
    NameMap(numbers, names, |numbers|)[numbers[i + COMMON_ROOT_COUNT]] == NameAt(names, i + COMMON_ROOT_COUNT)
  }

  ghost predicate AllNamed(numbers: seq<int>, names: seq<string>) {
    forall i :: 0 <= i < |Private(numbers)| ==> NamedAt(numbers, names, i)
  }

  /** One line is as given exactly if its name and its parent's name are. */
  lemma LineAsGiven(numbers: seq<int>, names: seq<string>, i: nat)
    requires i < |Private(numbers)|
    ensures ChainLine(NameMap(numbers, names, |numbers|), Private(numbers), i) == GivenLine(numbers, names, i + COMMON_ROOT_COUNT) <==>
            NamedAt(numbers, names, i) && (i > 0 ==> NamedAt(numbers, names, i - 1))
  {
    hide NameMap;
  }

  lemma AllNamedIsSame(numbers: seq<int>, names: seq<string>)
    ensures AllNamed(numbers, names) <==> SameNames(numbers, names, |numbers|)
  {
    NameMapAt(numbers, names, |numbers|);
    hide NameMap, NameAt, SameNames;
    if AllNamed(numbers, names) {
      forall i | COMMON_ROOT_COUNT <= i < |numbers| ensures NameMap(numbers, names, |numbers|)[numbers[i]] == NameAt(names, i) {
        assert NamedAt(numbers, names, i - COMMON_ROOT_COUNT);
      }
    }
  }

  lemma LinesAsGiven(numbers: seq<int>, names: seq<string>, lines: seq<Line>)
    requires |lines| == |Private(numbers)|
    requires forall i :: 0 <= i < |lines| ==> lines[i] == ChainLine(NameMap(numbers, names, |numbers|), Private(numbers), i)
    ensures AsGiven(numbers, names, lines) <==> AllNamed(numbers, names)
  {
    hide NameMap, ChainLine, GivenLine, NamedAt;
    if AsGiven(numbers, names, lines) {
      forall i | 0 <= i < |lines| ensures NamedAt(numbers, names, i) {
        LineAsGiven(numbers, names, i);
        assert lines[i] == GivenLine(numbers, names, i + COMMON_ROOT_COUNT);
      }
    }
    if AllNamed(numbers, names) {
      forall i | 0 <= i < |lines| ensures lines[i] == GivenLine(numbers, names, i + COMMON_ROOT_COUNT) {
        LineAsGiven(numbers, names, i);
        assert NamedAt(numbers, names, i) && (i > 0 ==> NamedAt(numbers, names, i - 1));
      }
    }
  }

  /** The map is keyed by number, so the lines are as given exactly if no number is given two names. */
  lemma ChainAsGiven(numbers: seq<int>, names: seq<string>)
    ensures var list := Private(numbers);
            AsGiven(numbers, names, ChainLines(NameMap(numbers, names, |numbers|), list, |list|)) <==>
            SameNames(numbers, names, |numbers|)
  {
    var list, labels := Private(numbers), NameMap(numbers, names, |numbers|);
    ChainLinesAt(labels, list, |list|);
    AllNamedIsSame(numbers, names);
    hide NameMap, ChainLines, ChainLine, AsGiven, AllNamed, SameNames, Private;
    LinesAsGiven(numbers, names, ChainLines(labels, list, |list|));
  }

  class Engine {
    const metricService: Service
    const reserved: set<string>
    const productName: string
    const mibUrl: Option<string>
    var oidMap: map<int, string>
    var oidList: seq<int>

    constructor (metricService: Service, reserved: set<string>, productName: string, mibUrl: Option<string>)
      ensures this.metricService == metricService && this.reserved == reserved
      ensures this.productName == productName && this.mibUrl == mibUrl
    {
      this.metricService, this.reserved, this.productName, this.mibUrl := metricService, reserved, productName, mibUrl;
      oidMap, oidList := map[], [];
    }

    /** `numbers` and `names` are the pieces of the two configured strings. */
    method MakeOidMap(numbers: seq<int>, names: seq<string>)
      modifies `oidMap, `oidList
      ensures oidList == Private(numbers) && oidMap == NameMap(numbers, names, |numbers|)
    {
      oidMap, oidList := map[], [];
      if |numbers| > COMMON_ROOT_COUNT {
        for i := COMMON_ROOT_COUNT to |numbers|
          invariant oidList == numbers[COMMON_ROOT_COUNT..i] && oidMap == NameMap(numbers, names, i)
        {
          if i < |names| {
            oidMap := oidMap[numbers[i] := names[i]];
          } else {
            oidMap := oidMap[numbers[i] := NAME_DEFAULT];
          }
          oidList := oidList + [numbers[i]];
        }
      }
    }

    ghost predicate Valid()
      reads this
    {
      Named(oidMap, oidList)
    }

    /** The whole text; `NullPointer` when a listed metric is not in the store. */
    method BuildMib(date: string) returns (mib: Outcome<seq<Line>>)
      requires Valid()
      ensures mib == NullPointer <==> !AllStored(metricService)
      ensures mib.Done? ==>
                mib.value == [Header(Upper(ValidDescriptor(reserved, productName)), date,
                                     match mibUrl case None => "" case Some(url) => "at " + url)]
                             + ChainLines(oidMap, oidList, |oidList|)
                             + [OidLine(SUBTREE_ROOT, ParentOf(oidMap, oidList, |oidList|), 1)]
                             + ModuleLines(metricService) + [EmptyLine]
                             + AllSections(metricService, reserved) + [EndLine]
    {
      hide ValidDescriptor, Upper, ModuleLines, AllSections, AllStored;
      var transformer := new Transformer();
      var urlMessage := if mibUrl == None then "" else "at " + mibUrl.value;
      transformer.Append(Header(Upper(ValidDescriptor(reserved, productName)), date, urlMessage));
      ghost var header := transformer.buffer;
      var parent := ENTERPRISE_NAME;
      for k := 0 to |oidList|
        invariant parent == ParentOf(oidMap, oidList, k)
        invariant transformer.buffer == header + ChainLines(oidMap, oidList, k)
      {
        transformer.TransformOidLine(oidMap[oidList[k]], parent, oidList[k]);
        parent := oidMap[oidList[k]];
      }
      transformer.TransformOidLine(SUBTREE_ROOT, parent, 1);
      BuildModules(metricService, transformer, SUBTREE_ROOT);
      var ok := BuildAllMetrics(metricService, reserved, transformer);
      if !ok {
        return NullPointer;
      }
      transformer.Append(EndLine);
      mib := Done(transformer.buffer);
    }

    /** `generateMib` up to the writing: the chain of the enterprise is as configured exactly if no number has two names. */
    method GenerateMib(numbers: seq<int>, names: seq<string>, date: string) returns (mib: Outcome<seq<Line>>)
      modifies `oidMap, `oidList
      ensures mib == NullPointer <==> !AllStored(metricService)
      ensures mib.Done? ==> 1 + |Private(numbers)| <= |mib.value| && mib.value[0].Header?
      ensures mib.Done? ==>
                (AsGiven(numbers, names, mib.value[1..1 + |Private(numbers)|]) <==> SameNames(numbers, names, |numbers|))
    {
      hide ValidDescriptor, Upper, ModuleLines, AllSections, AllStored, ChainLines, AsGiven, SameNames, NameMap;
      MakeOidMap(numbers, names);
      ChainAsGiven(numbers, names);
      ChainLinesAt(oidMap, oidList, |oidList|);
      mib := BuildMib(date);
      if mib.Done? {
        assert mib.value[1..1 + |oidList|] == ChainLines(oidMap, oidList, |oidList|);
      }
    }
  }

  // ----- agreement with the agent

  /** The MIB gives the name an id under the metrics subtree. */
  ghost predicate HasModuleLine(s: Service, name: string, id: int) {
    OidLine(name, SUBTREE_ROOT, id) in ModuleLines(s)
  }

  /** A module has one line, and its id is the position that the agent counts. */
  lemma ModuleId(s: Service, m: nat)
    requires s.Valid() && m < |s.moduleNames|
    ensures forall id :: HasModuleLine(s, s.moduleNames[m], id) <==> id == m + 1
  {
    assert ModuleLines(s)[m] == OidLine(s.moduleNames[m], SUBTREE_ROOT, m + 1);
  }

  lemma {:induction false} SectionOfAt(s: Service, reserved: set<string>, moduleName: string,
                                       names: seq<string>, k: nat, line: Line)
    requires k <= |names|
    ensures line in SectionsOf(s, reserved, moduleName, names, k) <==>
            exists j :: 0 <= j < k && line == Section(s, reserved, moduleName, names[j], j + 1)
  {
    hide Section;
    if k > 0 { SectionOfAt(s, reserved, moduleName, names, k - 1, line); }
  }

  lemma {:induction false} SectionAt(s: Service, reserved: set<string>, m: nat, line: Line)
    requires m <= |s.moduleNames|
    ensures line in Sections(s, reserved, m) <==>
            exists i :: 0 <= i < m && line in ModuleSections(s, reserved, s.moduleNames[i])
  {
    hide ModuleSections;
    if m > 0 { SectionAt(s, reserved, m - 1, line); }
  }

  /** A section of the MIB stands for object (m, k): its module has id `m` and it has id `k`. */
  ghost predicate StandsFor(s: Service, line: Line, m: int, k: int) {
    line.ObjectSection? && HasModuleLine(s, line.moduleName, m) && line.id == k
  }

  /** What generation reads: the entry of the store under the full name, if both names have something in them. */
  lemma EntryIs(s: Service, moduleName: string, metricName: string)
    ensures var full := "hackorama." + moduleName + "." + metricName;
            if moduleName != "" && metricName != "" && full in s.store then Entry(s, moduleName, metricName) == Some(s.store[full])
            else Entry(s, moduleName, metricName) == None
  {
    FullNameIs(metricName, moduleName);
    hide FullName;
  }

  /** The section says of the metric what is stored: its description, or a stock one if that is empty, and the syntax for
      its type. */
  ghost predicate Describes(s: Service, line: Line) {
    line.ObjectSection? &&
    var full := "hackorama." + line.moduleName + "." + line.metricName;
    full in s.store &&
    var metric := s.store[full];
    && (metric.description != "" ==> line.description == metric.description)
    && (metric.description == "" ==> line.description == "Metric for " + line.metricName)
    && (metric.kind == TEXT ==> line.syntax == "DisplayString")
    && (metric.kind == NUMBER ==> line.syntax == "INTEGER")
    && (metric.kind == BOOLEAN ==> line.syntax == "INTEGER  {true(1), false(2)}")
  }

  lemma SectionDescribes(s: Service, reserved: set<string>, moduleName: string, metricName: string, id: int)
    requires Entry(s, moduleName, metricName).Some?
    ensures Describes(s, Section(s, reserved, moduleName, metricName, id))
  {
    EntryIs(s, moduleName, metricName);
    hide Entry, ValidDescriptor;
  }

  lemma GetAtPosition(s: Service, sysDescr: string, m: nat, k: nat)
    requires s.Valid() && m < |s.moduleNames| && k < |s.metricNames[s.moduleNames[m]]|
    requires Entry(s, s.moduleNames[m], s.metricNames[s.moduleNames[m]][k]).Some?
    ensures m + 1 < 0x1_0000_0000 && k + 1 < 0x1_0000_0000 && IsNode(s, [m + 1, k + 1])
    ensures var get := GetValueForOid(s, sysDescr, [m + 1, k + 1]);
            get.Done? && SendsStored(s, s.moduleNames[m], s.metricNames[s.moduleNames[m]][k], get)
  {
    GetMeans(s, sysDescr, m, k);
    EntryIs(s, s.moduleNames[m], s.metricNames[s.moduleNames[m]][k]);
    hide GetValueForOid, Entry, StandsForValue;
  }

  /** The section for metric `k` of module `m`, both counted from 0. */
  function SectionFor(s: Service, reserved: set<string>, m: nat, k: nat): Line
    requires s.Valid() && m < |s.moduleNames| && k < |s.metricNames[s.moduleNames[m]]|
  {
    Section(s, reserved, s.moduleNames[m], s.metricNames[s.moduleNames[m]][k], k + 1)
  }

  lemma SectionsAre(s: Service, reserved: set<string>, line: Line)
    requires s.Valid()
    ensures line in AllSections(s, reserved) <==>
            exists m: nat, k: nat ::
              m < |s.moduleNames| && k < |s.metricNames[s.moduleNames[m]]| && line == SectionFor(s, reserved, m, k)
  {
    SectionAt(s, reserved, |s.moduleNames|, line);
    forall m | 0 <= m < |s.moduleNames|
      ensures line in ModuleSections(s, reserved, s.moduleNames[m]) <==>
              exists k: nat :: k < |s.metricNames[s.moduleNames[m]]| && line == SectionFor(s, reserved, m, k)
    {
      var names := s.metricNames[s.moduleNames[m]];
      SectionOfAt(s, reserved, s.moduleNames[m], names, |names|, line);
      assert forall k: nat :: k < |names| ==>
          SectionFor(s, reserved, m, k) == Section(s, reserved, s.moduleNames[m], names[k], k + 1);
    }
  }

  lemma EntryStored(s: Service, m: nat, k: nat)
    requires s.Valid() && AllStored(s) && m < |s.moduleNames| && k < |s.metricNames[s.moduleNames[m]]|
    ensures Entry(s, s.moduleNames[m], s.metricNames[s.moduleNames[m]][k]).Some?
  {
    StoredUpToAt(s, |s.moduleNames|);
  }

  /** MIB to agent: the pair of ids that generation gives a metric is an object identifier, and GET
      on it returns the value that the store keeps under that metric's full name. */
  lemma MibAgreesWithGet(s: Service, reserved: set<string>, sysDescr: string, line: Line, m: int, k: int)
    requires s.Valid() && AllStored(s)
    requires line in AllSections(s, reserved) && StandsFor(s, line, m, k)
    ensures 0 <= m < 0x1_0000_0000 && 0 <= k < 0x1_0000_0000 && IsNode(s, [m, k])
    ensures Describes(s, line)
    ensures var get := GetValueForOid(s, sysDescr, [m, k]); get.Done? && SendsStored(s, line.moduleName, line.metricName, get)
  {
    hide GetValueForOid, SendsStored, Describes, IsNode, ValidDescriptor, SyntaxOf, AllSections;
    SectionsAre(s, reserved, line);
    var i: nat, j: nat :| i < |s.moduleNames| && j < |s.metricNames[s.moduleNames[i]]| && line == SectionFor(s, reserved, i, j);
    ModuleId(s, i);
    EntryStored(s, i, j);
    SectionDescribes(s, reserved, s.moduleNames[i], s.metricNames[s.moduleNames[i]][j], j + 1);
    GetAtPosition(s, sysDescr, i, j);
  }

  /** Agent to MIB: every object below a module has its section, built from the metric GET answers for. */
  lemma EveryObjectHasSection(s: Service, reserved: set<string>, oid: Suffix)
    requires s.Valid() && IsNode(s, oid) && |oid| == 2
    ensures exists line :: line in AllSections(s, reserved) && StandsFor(s, line, oid[0], oid[1])
                           && line.moduleName == s.moduleNames[oid[0] - 1]
                           && line.metricName == s.metricNames[line.moduleName][oid[1] - 1]
  {
    hide ValidDescriptor, SyntaxOf, AllSections;
    var m, k := oid[0] - 1, oid[1] - 1;
    var line := SectionFor(s, reserved, m, k);
    SectionsAre(s, reserved, line);
    ModuleId(s, m);
    assert HasModuleLine(s, s.moduleNames[m], m + 1);
  }

  // ----- where the text itself does not resolve

  predicate AllAlphaNumeric(s: string) { forall c <- s :: IsAlphaNumeric(c) }

  lemma {:induction false} AlphaNumericOnlyKeeps(s: string)
    ensures AllAlphaNumeric(AlphaNumericOnly(s))
    ensures AllAlphaNumeric(s) ==> AlphaNumericOnly(s) == s
  {
    if s != "" {
      AlphaNumericOnlyKeeps(s[1..]);
      assert s == [s[0]] + s[1..];
    }
  }

  lemma {:induction false} UpperLength(s: string)
    ensures |Upper(s)| == |s|
  {
    if s != "" { UpperLength(s[1..]); }
  }

  /** Exactly the letters and digits are kept, in their order. */
  lemma {:induction false} KeepsLetters(a: string, b: string)
    ensures AlphaNumericOnly(a + b) == AlphaNumericOnly(a) + AlphaNumericOnly(b)
  {
    hide Kept;
    if a == "" {
      assert a + b == b;
    } else {
      assert (a + b)[1..] == a[1..] + b;
      KeepsLetters(a[1..], b);
    }
  }

  lemma KeepsLetter(c: char)
    ensures AlphaNumericOnly([c]) == if 'A' <= c <= 'Z' || 'a' <= c <= 'z' || '0' <= c <= '9' then [c] else ""
  {
    assert [c][1..] == "";
  }

  /** Upper case: small letters become capitals, everything else stays. */
  lemma {:induction false} UpperIs(s: string, i: nat)
    requires i < |s|
    ensures |Upper(s)| == |s| && Upper(s)[i] == if 'a' <= s[i] <= 'z' then (s[i] as int - 32) as char else s[i]
  {
    UpperLength(s);
    assert 'a' as int - 'A' as int == 32;
    if i > 0 { UpperIs(s[1..], i - 1); }
  }

  lemma {:induction false} UpperAppend(a: string, b: string)
    ensures Upper(a + b) == Upper(a) + Upper(b)
  {
    if a == "" {
      assert a + b == b;
    } else {
      assert (a + b)[1..] == a[1..] + b;
      UpperAppend(a[1..], b);
    }
  }

  /** The letters and digits of the name, after "metric" if they are a reserved word, and at most 64 characters of that: never
      a reserved word, as no reserved word is that long or starts with METRIC. */
  lemma NeverReserved(reserved: set<string>, name: string)
    requires forall w <- reserved :: |w| < 64 && !("METRIC" <= w)
    ensures var d, kept := ValidDescriptor(reserved, name), AlphaNumericOnly(name);
            && Upper(d) !in reserved && d <= (if Upper(kept) in reserved then "metric" + kept else kept)
            && (|d| == 64 || d == if Upper(kept) in reserved then "metric" + kept else kept)
  {
    var d, kept := ValidDescriptor(reserved, name), AlphaNumericOnly(name);
    UpperLength(d);
    UpperAppend("metric", kept);
    assert Upper("metric") == "METRIC" by { MetricUpper(); }
  }

  lemma MetricUpper()
    ensures Upper("metric") == "METRIC"
  {
    assert "metric"[1..] == "etric" && "etric"[1..] == "tric" && "tric"[1..] == "ric" && "ric"[1..] == "ic" && "ic"[1..] == "c" && "c"[1..] == "";
    assert Upper("c") == "C" && Upper("ic") == "IC" && Upper("ric") == "RIC" && Upper("tric") == "TRIC" && Upper("etric") == "ETRIC";
  }

  lemma DescriptorIsAlphaNumeric(reserved: set<string>, name: string)
    ensures AllAlphaNumeric(ValidDescriptor(reserved, name))
  {
    var d := AlphaNumericOnly(name);
    AlphaNumericOnlyKeeps(name);
    assert AllAlphaNumeric("metric");
    assert AllAlphaNumeric("metric" + d);
  }

  /** A name survives `validDescriptor` exactly when it is short, alphanumeric and not reserved. */
  lemma DescriptorFixpoint(reserved: set<string>, name: string)
    requires forall w <- reserved :: |w| <= DESCRIPTOR_MAXLENGTH - 6
    ensures ValidDescriptor(reserved, name) == name <==>
            AllAlphaNumeric(name) && Upper(name) !in reserved && |name| <= DESCRIPTOR_MAXLENGTH
  {
    AlphaNumericOnlyKeeps(name);
    UpperLength(name);
    DescriptorIsAlphaNumeric(reserved, name);
    if AllAlphaNumeric(name) && Upper(name) in reserved {
      assert |ValidDescriptor(reserved, name)| == 6 + |name|;
    }
  }

  /** A section names its parent by descriptor but a module line carries the raw name, so the
      parent label leads to the module's own line exactly when the name is its own descriptor. */
  lemma ParentLabelResolves(s: Service, reserved: set<string>, m: nat, k: nat)
    requires s.Valid() && m < |s.moduleNames| && k < |s.metricNames[s.moduleNames[m]]|
    requires forall w <- reserved :: |w| <= DESCRIPTOR_MAXLENGTH - 6
    ensures var name := s.moduleNames[m];
            var line := Section(s, reserved, name, s.metricNames[name][k], k + 1);
            HasModuleLine(s, line.parentLabel, m + 1) <==>
            AllAlphaNumeric(name) && Upper(name) !in reserved && |name| <= DESCRIPTOR_MAXLENGTH
  {
    var name := s.moduleNames[m];
    DescriptorFixpoint(reserved, name);
    ModuleId(s, m);
    assert ModuleLines(s)[m] == OidLine(name, SUBTREE_ROOT, m + 1);
  }

  /** A value of the declared syntax. */
  predicate Admits(syntax: string, value: Variable) {
    if syntax == "DisplayString" then value.OctetString?
    else if syntax == "INTEGER" then value.Integer32?
    else syntax == "INTEGER  {true(1), false(2)}" && (value == Integer32(1) || value == Integer32(2))
  }

  predicate WellTyped(metric: Metric) {
    match metric.value
    case None => true
    case Some(Text(_)) => metric.kind == TEXT
    case Some(Long(_)) => metric.kind == NUMBER
    case Some(Bool(_)) => metric.kind == BOOLEAN
  }

  /** Declared syntax and sent value agree exactly for metrics that have a value other than `false`:
      the MIB declares `false(2)`, the agent sends 0. */
  lemma SyntaxAgreement(metric: Metric)
    requires WellTyped(metric)
    ensures forall v :: StandsForValue(metric.value, v) ==> (Admits(SyntaxOf(metric.kind), v) <==>
            metric.value != None && metric.value != Some(Bool(false)))
  {
  }
}
