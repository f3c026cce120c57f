/** Reading metric definitions from a property map whose keys come in no particular order. */
module MetricsReader {
  import opened Wrappers

  datatype Attribute = NAME | TYPE | LEVEL | DESCRIPTION

  const ATTRIBUTES := [NAME, TYPE, LEVEL, DESCRIPTION]

  datatype Type = TEXT | NUMBER | BOOLEAN | UNSPECIFIED | INVALID

  datatype Level = PUBLIC | LIMITED | INTERNAL

  datatype Value = Text(s: string) | Number(n: int) | Boolean(b: bool)

  datatype Metric = Metric(value: Value, ofType: Type, displayname: string, description: string, level: Level)

  /** Library code on strings: `trimConfigStrings`, `equalsIgnoreCase`, whether `Double.parseDouble` accepts a text,
      and `Long.valueOf`. */
  datatype Library = Library(trim: string -> string, same: (string, string) -> bool,
                             isNumeric: string -> bool, parseLong: string -> Option<int>)

  function Lower(a: Attribute): string {
    match a case NAME => "name" case TYPE => "type" case LEVEL => "level" case DESCRIPTION => "description"
  }

  function Upper(a: Attribute): string {
    match a case NAME => "NAME" case TYPE => "TYPE" case LEVEL => "LEVEL" case DESCRIPTION => "DESCRIPTION"
  }

  predicate EndsWith(s: string, end: string) { |s| >= |end| && s[|s| - |end|..] == end }

  predicate StartsWith(s: string, start: string) { |s| >= |start| && s[..|start|] == start }

  function LastDot(s: string): (i: int)
    ensures -1 <= i < |s| && (i >= 0 ==> s[i] == '.') && forall j :: i < j < |s| ==> s[j] != '.'
  {
    if s == "" then -1 else if s[|s| - 1] == '.' then |s| - 1 else LastDot(s[..|s| - 1])
  }

  // ----- from keys to names

  predicate HasSuffix(key: string, a: Attribute) { EndsWith(key, "." + Lower(a)) || EndsWith(key, "." + Upper(a)) }

  /** What `getMetricNameFromPropertyKey` returns. */
  ghost function NameOf(key: string): string {
    if exists a :: HasSuffix(key, a) then key[..if LastDot(key) < 0 then 0 else LastDot(key)] else key
  }

  method GetMetricNameFromPropertyKey(key: string) returns (name: string)
    ensures name == NameOf(key)
  {
    var i := 0;
    while i < |ATTRIBUTES|
      invariant i <= |ATTRIBUTES| && forall j :: 0 <= j < i ==> !HasSuffix(key, ATTRIBUTES[j])
    {
      if HasSuffix(key, ATTRIBUTES[i]) {
        SuffixHasDot(key, ATTRIBUTES[i]);
        return key[..LastDot(key)];
      }
      i := i + 1;
    }
    forall a ensures !HasSuffix(key, a) {
      assert a == ATTRIBUTES[match a case NAME => 0 case TYPE => 1 case LEVEL => 2 case DESCRIPTION => 3];
    }
    name := key;
  }

  lemma PlainWords(a: Attribute)
    ensures '.' !in Lower(a) && '.' !in Upper(a) && |Lower(a)| == |Upper(a)| > 0
  {
  }

  lemma {:induction false} LastDotAt(start: string, word: string)
    requires '.' !in word
    ensures LastDot(start + "." + word) == |start|
    decreases |word|
  {
    var s := start + "." + word;
    if word == "" {
      assert s == start + ".";
    } else {
      assert s[|s| - 1] == word[|word| - 1] && s[..|s| - 1] == start + "." + word[..|word| - 1];
      LastDotAt(start, word[..|word| - 1]);
    }
  }

  lemma SuffixHasDot(key: string, a: Attribute)
    requires HasSuffix(key, a)
    ensures var n := LastDot(key); n >= 0 && (key == key[..n] + "." + Lower(a) || key == key[..n] + "." + Upper(a))
  {
    PlainWords(a);
    var word := if EndsWith(key, "." + Lower(a)) then Lower(a) else Upper(a);
    hide Lower, Upper;
    var n := |key| - |word| - 1;
    assert key == key[..n] + "." + word by {
      assert key == key[..n] + key[n..];
    }
    LastDotAt(key[..n], word);
  }

  /** The attributes of a metric lead to its name, in both spellings; other keys are names themselves. */
  lemma AttributeKeys(name: string, key: string, a: Attribute)
    ensures NameOf(name + "." + Lower(a)) == name && NameOf(name + "." + Upper(a)) == name
    ensures NameOf(key) == key || exists b :: key == NameOf(key) + "." + Lower(b) || key == NameOf(key) + "." + Upper(b)
  {
    AttributeKey(name, Lower(a), a);
    AttributeKey(name, Upper(a), a);
    if b :| HasSuffix(key, b) {
      SuffixHasDot(key, b);
    }
    hide HasSuffix, Lower, Upper, LastDot;
  }

  lemma AttributeKey(name: string, word: string, a: Attribute)
    requires word == Lower(a) || word == Upper(a)
    ensures NameOf(name + "." + word) == name
  {
    PlainWords(a);
    hide Lower, Upper;
    var key := name + "." + word;
    assert key[|key| - |word| - 1..] == "." + word;
    assert HasSuffix(key, a);
    LastDotAt(name, word);
    assert key[..|name|] == name;
  }

  // ----- from the map to metrics

  /** What the map says of an attribute; the lower-case key comes first. */
  function AttributeOf(lib: Library, props: map<string, string>, name: string, a: Attribute): Option<string> {
    if name + "." + Lower(a) in props then Some(lib.trim(props[name + "." + Lower(a)]))
    else if name + "." + Upper(a) in props then Some(lib.trim(props[name + "." + Upper(a)]))
    else None
  }

  function OrElse(x: Option<string>, default: string): string { if x.Some? then x.value else default }

  function GetType(lib: Library, s: string): Type {
    if lib.same("TEXT", s) then TEXT else if lib.same("NUMBER", s) then NUMBER else if lib.same("BOOLEAN", s) then BOOLEAN
    else if lib.same("UNSPECIFIED", s) then UNSPECIFIED else INVALID
  }

  function GetLevel(lib: Library, s: Option<string>): Level {
    if s.None? then PUBLIC
    else if lib.same("PUBLIC", s.value) then PUBLIC else if lib.same("LIMITED", s.value) then LIMITED
    else if lib.same("INTERNAL", s.value) then INTERNAL else PUBLIC
  }

  function Lookup(props: map<string, string>, key: string): Option<string> {
    if key in props then Some(props[key]) else None
  }

  /** The type that is given, `UNSPECIFIED` if none is. */
  function GivenType(lib: Library, props: map<string, string>, name: string): Type {
    GetType(lib, OrElse(AttributeOf(lib, props, name, TYPE), "UNSPECIFIED"))
  }

  predicate Definite(t: Type) { t.TEXT? || t.NUMBER? || t.BOOLEAN? }

  function ValueType(lib: Library, s: string): Type {
    if lib.isNumeric(s) then NUMBER else if lib.same("true", s) || lib.same("false", s) then BOOLEAN else TEXT
  }

  /** `Double.parseDouble( null )`: a metric that has attributes but no value needs a definite type. */
  predicate Breaks(lib: Library, props: map<string, string>, name: string) {
    name !in props && !Definite(GivenType(lib, props, name))
  }

  function MakeValue(lib: Library, t: Type, text: Option<string>): Value {
    match t
    case NUMBER => Number(if text.Some? && lib.parseLong(text.value).Some? then lib.parseLong(text.value).value else 0)
    case BOOLEAN => Boolean(text.Some? && (lib.same("true", text.value) || lib.same("1", text.value)))
    case _ => Text(OrElse(text, ""))
  }

  /** The metric of that name, as the map alone determines it. */
  function MetricFor(lib: Library, props: map<string, string>, name: string): Metric
    requires !Breaks(lib, props, name)
  {
    var given := GivenType(lib, props, name);
    var t := if Definite(given) then given else ValueType(lib, props[name]);
    Metric(MakeValue(lib, t, Lookup(props, name)), t, OrElse(AttributeOf(lib, props, name, NAME), name),
           OrElse(AttributeOf(lib, props, name, DESCRIPTION), ""), GetLevel(lib, AttributeOf(lib, props, name, LEVEL)))
  }

  /** `text` is what the map says under `name`, a dot and one of the two spellings, the first of them if it is there; or `default`. */
  ghost predicate IsGiven(lib: Library, props: map<string, string>, name: string, lower: string, upper: string,
                          default: string, text: string) {
    if name + "." + lower in props then text == lib.trim(props[name + "." + lower])
    else if name + "." + upper in props then text == lib.trim(props[name + "." + upper])
    else text == default
  }

  const TYPES := [("TEXT", TEXT), ("NUMBER", NUMBER), ("BOOLEAN", BOOLEAN), ("UNSPECIFIED", UNSPECIFIED)]

  const LEVELS := [("PUBLIC", PUBLIC), ("LIMITED", LIMITED), ("INTERNAL", INTERNAL)]

  /** The text names the first entry that it is the same as, up to case. */
  ghost predicate Names<T>(lib: Library, table: seq<(string, T)>, text: string, i: nat) {
    i < |table| && lib.same(table[i].0, text) && forall j :: 0 <= j < i ==> !lib.same(table[j].0, text)
  }

  ghost predicate NamesNone<T>(lib: Library, table: seq<(string, T)>, text: string) {
    forall j :: 0 <= j < |table| ==> !lib.same(table[j].0, text)
  }

  /** The type is the one that is given, if that is definite, and otherwise what the value looks like. */
  ghost predicate TypeFits(lib: Library, props: map<string, string>, name: string, text: string, t: Type) {
    || (exists i: nat :: i < 3 && Names(lib, TYPES, text, i) && t == TYPES[i].1)
    || ((Names(lib, TYPES, text, 3) || NamesNone(lib, TYPES, text)) && name in props && LooksLike(lib, props[name], t))
  }

  ghost predicate LooksLike(lib: Library, value: string, t: Type) {
    && (t == NUMBER <==> lib.isNumeric(value))
    && (t == BOOLEAN <==> !lib.isNumeric(value) && (lib.same("true", value) || lib.same("false", value)))
    && (t == TEXT || t == NUMBER || t == BOOLEAN)
  }

  /** A text is kept as it is, a number that does not parse and a missing one are 0, and only `true` and `1` are true. */
  ghost predicate Holds(lib: Library, props: map<string, string>, name: string, t: Type, v: Value) {
    && (t == TEXT ==> v == Text(if name in props then props[name] else ""))
    && (t == NUMBER ==> v.Number? && (name in props && lib.parseLong(props[name]).Some? ==> v.n == lib.parseLong(props[name]).value)
                        && (name !in props || lib.parseLong(props[name]).None? ==> v.n == 0))
    && (t == BOOLEAN ==> v.Boolean? && (v.b <==> name in props && (lib.same("true", props[name]) || lib.same("1", props[name]))))
  }

  /** What is stored for a name. */
  lemma StoredMetric(lib: Library, props: map<string, string>, name: string)
    requires !Breaks(lib, props, name)
    ensures var m := MetricFor(lib, props, name);
            && IsGiven(lib, props, name, "name", "NAME", name, m.displayname)
            && IsGiven(lib, props, name, "description", "DESCRIPTION", "", m.description)
            && Holds(lib, props, name, m.ofType, m.value)
    ensures exists text :: IsGiven(lib, props, name, "type", "TYPE", "UNSPECIFIED", text)
                           && TypeFits(lib, props, name, text, MetricFor(lib, props, name).ofType)
    ensures LevelFits(lib, props, name, MetricFor(lib, props, name).level)
  {
    var text := OrElse(AttributeOf(lib, props, name, TYPE), "UNSPECIFIED");
    assert IsGiven(lib, props, name, "type", "TYPE", "UNSPECIFIED", text);
    TypeNamed(lib, text);
    LevelNamed(lib, props, name);
    hide AttributeOf, GetType, GetLevel, Names, NamesNone;
    assert TypeFits(lib, props, name, text, MetricFor(lib, props, name).ofType);
  }

  lemma TypeNamed(lib: Library, text: string)
    ensures GetType(lib, text) == INVALID ==> NamesNone(lib, TYPES, text)
    ensures GetType(lib, text) == TEXT ==> Names(lib, TYPES, text, 0)
    ensures GetType(lib, text) == NUMBER ==> Names(lib, TYPES, text, 1)
    ensures GetType(lib, text) == BOOLEAN ==> Names(lib, TYPES, text, 2)
    ensures GetType(lib, text) == UNSPECIFIED ==> Names(lib, TYPES, text, 3)
  {
  }

  /** The level that is given, public if none is or it is not known. */
  ghost predicate LevelFits(lib: Library, props: map<string, string>, name: string, level: Level) {
    if name + "." + "level" !in props && name + "." + "LEVEL" !in props then level == PUBLIC
    else
      exists text :: IsGiven(lib, props, name, "level", "LEVEL", "", text)
        && ((exists i: nat :: Names(lib, LEVELS, text, i) && level == LEVELS[i].1) || (NamesNone(lib, LEVELS, text) && level == PUBLIC))
  }

  lemma LevelNamed(lib: Library, props: map<string, string>, name: string)
    ensures LevelFits(lib, props, name, GetLevel(lib, AttributeOf(lib, props, name, LEVEL)))
  {
    var given := AttributeOf(lib, props, name, LEVEL);
    if given.Some? {
      var text := given.value;
      assert IsGiven(lib, props, name, "level", "LEVEL", "", text);
      hide AttributeOf;
      if lib.same("PUBLIC", text) {
        assert Names(lib, LEVELS, text, 0);
      } else if lib.same("LIMITED", text) {
        assert Names(lib, LEVELS, text, 1);
      } else if lib.same("INTERNAL", text) {
        assert Names(lib, LEVELS, text, 2);
      } else {
        assert NamesNone(lib, LEVELS, text);
      }
    }
  }

  predicate IsMetricKey(key: string, prefix: Option<string>) {
    prefix.None? || prefix.value == "" || !(prefix.value <= key)
  }

  lemma MetricKeyIs(key: string, prefix: Option<string>)
    ensures IsMetricKey(key, prefix) <==> prefix.None? || prefix.value == "" || !StartsWith(key, prefix.value)
  {
  }

  /** The names that these keys define and that `store` does not have yet. */
  ghost function NewNames(keys: set<string>, prefix: Option<string>, store: map<string, Metric>): set<string> {
    set k | k in keys && IsMetricKey(k, prefix) && NameOf(k) !in store :: NameOf(k)
  }

  /** A description without a value is enough to fail. */
  lemma DescriptionAlone(lib: Library, d: string)
    requires !Definite(GetType(lib, "UNSPECIFIED"))
    ensures Breaks(lib, map["a.description" := d], "a")
  {
    assert "a" + "." + Lower(TYPE) == "a.type" && "a" + "." + Upper(TYPE) == "a.TYPE";
  }

  /** `store` with one metric for each new name that is not empty. */
  ghost function Extended(lib: Library, props: map<string, string>, names: set<string>, store: map<string, Metric>): map<string, Metric>
    requires NoneBreaks(lib, props, names)
  {
    store + Added(lib, props, names)
  }

  ghost function Added(lib: Library, props: map<string, string>, names: set<string>): map<string, Metric>
    requires NoneBreaks(lib, props, names)
  {
    map n | n in names && n != "" :: MetricFor(lib, props, n)
  }

  class Reader {
    const lib: Library
    var metrics: map<string, Metric>

    constructor (lib: Library, metrics: map<string, Metric>)
      ensures this.lib == lib && this.metrics == metrics
    {
      this.lib, this.metrics := lib, metrics;
    }

    /** `addMetric`, with a failure for the exception on a missing value. */
    method AddMetric(name: string, text: Option<string>, given: Type, displayname: string, description: string, level: Level)
      returns (failed: bool)
      modifies this
      ensures failed == (text.None? && !Definite(given))
      ensures failed || name == "" ==> metrics == old(metrics)
      ensures !failed && name != "" ==>
                (var t := if Definite(given) then given else ValueType(lib, text.value);
                 metrics == old(metrics)[name := Metric(MakeValue(lib, t, text), t, displayname, description, level)])
    {
      failed := false;
      var t := given;
      if given.UNSPECIFIED? || given.INVALID? {
        if text.None? {
          return true;
        }
        t := ValueType(lib, text.value);
      }
      if name != "" {
        metrics := metrics[name := Metric(MakeValue(lib, t, text), t, displayname, description, level)];
      }
    }

    /** The key loop, for keys in any order: it fails exactly if some new name has no value and no definite type, and otherwise
        leaves the same store in every order. */
    method ProcessMetricsConfig(props: map<string, string>, keys: seq<string>, prefix: Option<string>) returns (failed: bool)
      requires (set k | k in keys) == props.Keys
      modifies this
      ensures failed <==> exists n :: n in NewNames(props.Keys, prefix, old(metrics)) && Breaks(lib, props, n)
      ensures !failed ==> metrics == Extended(lib, props, NewNames(props.Keys, prefix, old(metrics)), old(metrics))
    {
      hide NameOf, IsMetricKey, NewNames, Breaks, Extended, First, GetType, AttributeOf, GetLevel, MakeValue, ValueType;
      ghost var store := metrics;
      failed := false;
      var i := 0;
      NoKeys(lib, props, keys, prefix, store);
      while i < |keys|
        invariant i <= |keys|
        invariant NoneBreaks(lib, props, NewNames(First(keys, i), prefix, store))
        invariant metrics == Extended(lib, props, NewNames(First(keys, i), prefix, store), store)
      {
        var key := keys[i];
        ghost var names := NewNames(First(keys, i), prefix, store);
        NextKey(keys, i, prefix, store);
        MetricKeyIs(key, prefix);
        if prefix.None? || prefix.value == "" || !StartsWith(key, prefix.value) {
          var name := GetMetricNameFromPropertyKey(key);
          InStore(lib, props, names, store, name);
          if name !in metrics {
            BreaksMeans(lib, props, name);
            failed := AddMetric(name, Lookup(props, name), GivenType(lib, props, name), OrElse(AttributeOf(lib, props, name, NAME), name),
                                OrElse(AttributeOf(lib, props, name, DESCRIPTION), ""), GetLevel(lib, AttributeOf(lib, props, name, LEVEL)));
            if failed {
              AmongAll(keys, key, props.Keys, prefix, store);
              return;
            }
            ExtendOne(lib, props, names, store, name);
          }
        }
        Again(names, NameOf(key));
        i := i + 1;
      }
      AllKeys(keys, props.Keys);
    }
  }

  ghost predicate NoneBreaks(lib: Library, props: map<string, string>, names: set<string>) {
    forall n <- names :: !Breaks(lib, props, n)
  }

  lemma NoKeys(lib: Library, props: map<string, string>, keys: seq<string>, prefix: Option<string>, store: map<string, Metric>)
    ensures NewNames(First(keys, 0), prefix, store) == {} && Extended(lib, props, {}, store) == store
  {
  }

  lemma NextKey(keys: seq<string>, i: nat, prefix: Option<string>, store: map<string, Metric>)
    requires i < |keys|
    ensures NewNames(First(keys, i + 1), prefix, store) == NewNames(First(keys, i), prefix, store) +
              if IsMetricKey(keys[i], prefix) && NameOf(keys[i]) !in store then {NameOf(keys[i])} else {}
  {
    assert keys[..i + 1] == keys[..i] + [keys[i]];
    assert First(keys, i + 1) == First(keys, i) + {keys[i]};
    hide First, NameOf, IsMetricKey;
  }

  lemma InStore(lib: Library, props: map<string, string>, names: set<string>, store: map<string, Metric>, name: string)
    requires NoneBreaks(lib, props, names)
    ensures name in Extended(lib, props, names, store) <==> name in store || (name in names && name != "")
  {
  }

  lemma BreaksMeans(lib: Library, props: map<string, string>, name: string)
    ensures Breaks(lib, props, name) <==> Lookup(props, name).None? && !Definite(GivenType(lib, props, name))
  {
  }

  lemma AmongAll(keys: seq<string>, key: string, all: set<string>, prefix: Option<string>, store: map<string, Metric>)
    requires (set k | k in keys) == all && key in keys && IsMetricKey(key, prefix) && NameOf(key) !in store
    ensures NameOf(key) in NewNames(all, prefix, store)
  {
  }

  lemma ExtendOne(lib: Library, props: map<string, string>, names: set<string>, store: map<string, Metric>, name: string)
    requires NoneBreaks(lib, props, names) && !Breaks(lib, props, name) && name !in store
    ensures NoneBreaks(lib, props, names + {name})
    ensures Extended(lib, props, names + {name}, store) ==
              if name == "" then Extended(lib, props, names, store)
              else Extended(lib, props, names, store)[name := MetricFor(lib, props, name)]
  {
    hide MetricFor, Breaks;
    if name == "" {
      SameAdded(lib, props, names);
    } else {
      AddedOne(lib, props, names, name);
    }
    hide Added;
    assert store + Added(lib, props, names)[name := MetricFor(lib, props, name)]
        == (store + Added(lib, props, names))[name := MetricFor(lib, props, name)];
  }

  lemma SameAdded(lib: Library, props: map<string, string>, names: set<string>)
    requires NoneBreaks(lib, props, names) && !Breaks(lib, props, "")
    ensures Added(lib, props, names + {""}) == Added(lib, props, names)
  {
    hide MetricFor, Breaks;
  }

  lemma AddedOne(lib: Library, props: map<string, string>, names: set<string>, name: string)
    requires NoneBreaks(lib, props, names) && !Breaks(lib, props, name) && name != ""
    ensures Added(lib, props, names + {name}) == Added(lib, props, names)[name := MetricFor(lib, props, name)]
  {
    hide MetricFor, Breaks;
  }

  lemma Again(names: set<string>, name: string)
    ensures (name in names ==> names + {name} == names) && names + {} == names
  {
  }

  lemma AllKeys(keys: seq<string>, all: set<string>)
    requires (set k | k in keys) == all
    ensures First(keys, |keys|) == all
  {
    assert keys[..|keys|] == keys;
  }

  ghost function First(keys: seq<string>, i: nat): set<string>
    requires i <= |keys|
  {
    set k | k in keys[..i]
  }
}
