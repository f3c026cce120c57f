/** The index-based view of modules and metrics that MetricService gives the SNMP agent,
    in polling mode: values come from the metric store. */
module MetricIndex {
  import NameResolver
  import opened Wrappers

  /** A computed result, or the NullPointerException that computing it raises. */
  datatype Outcome<+T> = Done(value: T) | NullPointer

  datatype Type = TEXT | NUMBER | BOOLEAN

  /** A metric value as Java objects go: the store holds strings, longs and booleans. */
  datatype Object = Text(text: string) | Long(number: int) | Bool(flag: bool)

  datatype Metric = Metric(kind: Type, description: string, value: Option<Object>)

  /** `moduleNames` and each entry of `metricNames` are the sorted sets in iteration order. */
  datatype Service = Service(moduleNames: seq<string>,
                             metricNames: map<string, seq<string>>,
                             store: map<string, Metric>) {

    /** Set sizes fit Java's int, the names in a set are distinct, every listed module exists. */
    ghost predicate Valid() {
      && |moduleNames| < 0x8000_0000
      && (forall i, j :: 0 <= i < j < |moduleNames| ==> moduleNames[i] != moduleNames[j])
      && (forall m <- moduleNames :: m in metricNames && |metricNames[m]| < 0x8000_0000)
    }

    function GetModule(moduleIndex: int): Option<string> {
      if 0 <= moduleIndex < |moduleNames| then Some(moduleNames[moduleIndex]) else None
    }

    function GetModuleMetricCount(moduleIndex: int): nat
      requires Valid()
    {
      if 0 <= moduleIndex < |moduleNames| then |metricNames[moduleNames[moduleIndex]]| else 0
    }

    function GetMetric(moduleIndex: int, metricIndex: int): Outcome<Option<Object>>
      requires Valid()
    {
      if moduleIndex >= 0 && metricIndex >= 0 && moduleIndex < |moduleNames| then
        var moduleName := moduleNames[moduleIndex];
        if metricIndex < |metricNames[moduleName]| then
          GetMetricByName(FullName(metricNames[moduleName][metricIndex], moduleName))
        else Done(None)
      else Done(None)
    }

    /** The store is a ConcurrentHashMap: looking up null throws. */
    function Lookup(name: Option<string>): Outcome<Option<Metric>> {
      if name == None then NullPointer
      else if name.value in store then Done(Some(store[name.value]))
      else Done(None)
    }

    function GetMetricByName(name: Option<string>): Outcome<Option<Object>> {
      match Lookup(name)
      case NullPointer => NullPointer
      case Done(None) => Done(None)
      case Done(Some(metric)) => Done(metric.value)
    }

    function GetModuleMetricNames(moduleName: string): seq<string> {
      if moduleName in metricNames then metricNames[moduleName] else []
    }
  }

  /** The full name of a metric, null when either part is empty. */
  function FullName(name: string, moduleName: string): Option<string> {
    NameResolver.ResolveMetricName(Some(name), Some(moduleName))
  }

  /** Java's 32-bit wrap-around. */
  function Int32(x: int): (r: int)
    ensures -0x8000_0000 <= r < 0x8000_0000
    ensures (r - x) % 0x1_0000_0000 == 0
    ensures -0x8000_0000 <= x < 0x8000_0000 ==> r == x
  {
    (x + 0x8000_0000) % 0x1_0000_0000 - 0x8000_0000
  }
}
