/** How full metric names are built from module and metric and taken apart again. */
module NameResolver {
  import opened Wrappers

  const ROOT := "hackorama"

  // ----- `String.split( "\\." )`

  /** All pieces between dots. */
  function Pieces(s: string): (r: seq<string>)
    ensures r != []
  {
    if s == [] then [""]
    else if s[0] == '.' then [""] + Pieces(s[1..])
    else
      var rest := Pieces(s[1..]);
      [[s[0]] + rest[0]] + rest[1..]
  }

  function DropTrailingEmpty(tokens: seq<string>): (r: seq<string>)
    ensures r <= tokens && (r != [] ==> r[|r| - 1] != "")
  {
    if tokens != [] && tokens[|tokens| - 1] == "" then DropTrailingEmpty(tokens[..|tokens| - 1]) else tokens
  }

  /** Java's `split` does not return trailing empty strings. */
  function Split(s: string): seq<string> { DropTrailingEmpty(Pieces(s)) }

  function Join(tokens: seq<string>): string {
    if tokens == [] then "" else if |tokens| == 1 then tokens[0] else tokens[0] + "." + Join(tokens[1..])
  }

  lemma {:induction false} JoinPieces(s: string)
    ensures Join(Pieces(s)) == s
  {
    if s != [] {
      var rest := Pieces(s[1..]);
      JoinPieces(s[1..]);
      assert Pieces(s)[1..] == if s[0] == '.' then rest else rest[1..];
    }
  }

  lemma {:induction false} PiecesHaveNoDot(s: string, i: nat)
    requires i < |Pieces(s)|
    ensures '.' !in Pieces(s)[i]
  {
    if s != [] {
      var rest := Pieces(s[1..]);
      if s[0] == '.' {
        if i > 0 { PiecesHaveNoDot(s[1..], i - 1); }
      } else {
        PiecesHaveNoDot(s[1..], i);
      }
    }
  }

  /** A first element without dots is a piece of its own. */
  lemma {:induction false} PiecesAfter(a: string, b: string)
    requires '.' !in a
    ensures Pieces(a + "." + b) == [a] + Pieces(b)
  {
    var s := a + "." + b;
    if a == [] {
      assert s[1..] == b;
    } else {
      assert s[1..] == a[1..] + "." + b;
      PiecesAfter(a[1..], b);
      assert [a[0]] + a[1..] == a;
    }
  }

  lemma {:induction false} LastPiece(s: string)
    ensures var p := Pieces(s); p[|p| - 1] == "" <==> s == "" || s[|s| - 1] == '.'
  {
    if s != [] {
      LastPiece(s[1..]);
    }
  }

  /** Pieces without an empty last one do not make a string that ends in a dot. */
  lemma {:induction false} JoinEnd(tokens: seq<string>)
    requires forall t <- tokens :: '.' !in t
    requires tokens != [] ==> tokens[|tokens| - 1] != ""
    ensures Join(tokens) == "" || Join(tokens)[|Join(tokens)| - 1] != '.'
  {
    if |tokens| == 1 {
      assert tokens[0][|tokens[0]| - 1] in tokens[0];
    } else if |tokens| > 1 {
      JoinEnd(tokens[1..]);
      JoinNotEmpty(tokens[1..]);
    }
  }

  lemma {:induction false} JoinNotEmpty(tokens: seq<string>)
    requires tokens != [] && tokens[|tokens| - 1] != ""
    ensures Join(tokens) != ""
  {
    if |tokens| > 1 {
      assert |Join(tokens)| > 0;
    }
  }

  // ----- the resolver; `None` stands for `null`

  predicate ValidNonEmpty(s: Option<string>) { s.Some? && |s.value| > 0 }

  function GetElementAt(text: Option<string>, index: int): Option<string> {
    if !ValidNonEmpty(text) || index < 0 then None
    else
      var tokens := Split(text.value);
      if |tokens| > index then Some(tokens[index]) else None
  }

  predicate ValidName(name: Option<string>) {
    ValidNonEmpty(name) && GetElementAt(name, 0) == Some(ROOT)
  }

  function ResolveMetricName(name: Option<string>, mod: Option<string>): Option<string> {
    if ValidNonEmpty(name) && ValidNonEmpty(mod) then Some(ROOT + "." + mod.value + "." + name.value) else None
  }

  function ResolveModule(name: Option<string>): Option<string> {
    if ValidName(name) then GetElementAt(name, 1) else None
  }

  /** What `resolveMetric` returns. */
  function MetricOf(name: Option<string>): Option<string> {
    if ValidName(name) then Some(JoinFrom(Split(name.value), 2)) else None
  }

  function JoinFrom(tokens: seq<string>, i: nat): string { if i <= |tokens| then Join(tokens[i..]) else "" }

  method GetStringElementsAfter(text: string, elementIndex: nat) returns (result: string)
    ensures result == JoinFrom(Split(text), elementIndex)
  {
    NothingFrom(Split(text), elementIndex);
    hide JoinFrom, Split;
    var tokens := Split(text);
    result := "";
    var i := elementIndex;
    while i < |tokens|
      invariant elementIndex <= i
      invariant i <= |tokens| ==> result + JoinFrom(tokens, i) == JoinFrom(tokens, elementIndex)
      invariant i > |tokens| ==> i == elementIndex && result == ""
    {
      ghost var before := result;
      JoinStep(tokens, i);
      result := result + tokens[i];
      if i + 1 < |tokens| {
        result := result + ".";
      }
      ghost var step := tokens[i] + if i + 1 < |tokens| then "." else "";
      assert result == before + step;
      assert before + (step + JoinFrom(tokens, i + 1)) == (before + step) + JoinFrom(tokens, i + 1);
      i := i + 1;
    }
  }

  lemma NothingFrom(tokens: seq<string>, i: nat)
    ensures i >= |tokens| ==> JoinFrom(tokens, i) == ""
    ensures JoinFrom(tokens, |tokens|) == ""
  {
  }

  lemma JoinStep(tokens: seq<string>, i: nat)
    requires i < |tokens|
    ensures JoinFrom(tokens, i) == tokens[i] + (if i + 1 < |tokens| then "." else "") + JoinFrom(tokens, i + 1)
  {
    assert tokens[i..][1..] == tokens[i + 1..];
  }

  method ResolveMetric(name: Option<string>) returns (metric: Option<string>)
    ensures metric == MetricOf(name)
  {
    if ValidName(name) {
      var text := GetStringElementsAfter(name.value, 2);
      metric := Some(text);
    } else {
      metric := None;
    }
  }

  /** The first piece ends the string, or a dot follows it. */
  lemma {:induction false} FirstPiece(s: string)
    ensures s == Pieces(s)[0] || Pieces(s)[0] + "." <= s
  {
    if s != [] && s[0] != '.' {
      FirstPiece(s[1..]);
      assert s == [s[0]] + s[1..];
    }
  }

  /** Valid names are the root alone, and whatever goes on with a dot after it. */
  lemma ValidNameIs(name: Option<string>)
    ensures ValidName(name) <==> name.Some? && (name.value == "hackorama" || "hackorama." <= name.value)
  {
    assert ROOT + "." == "hackorama.";
    if ValidNonEmpty(name) {
      var s := name.value;
      FirstPiece(s);
      if "hackorama." <= s {
        assert s == ROOT + "." + s[|ROOT| + 1..];
        PiecesAfter(ROOT, s[|ROOT| + 1..]);
        DropAfter([ROOT], Pieces(s[|ROOT| + 1..]));
      } else if s == ROOT {
        NoDots(s);
      }
    }
  }

  lemma {:induction false} NoDots(s: string)
    requires '.' !in s
    ensures Pieces(s) == [s]
  {
    if s != [] {
      NoDots(s[1..]);
      assert s == [s[0]] + s[1..];
    }
  }

  // ----- what building and resolving keep

  /** The pieces of a full name. */
  lemma FullNamePieces(metric: string, mod: string)
    requires mod != "" && '.' !in mod
    ensures Pieces(ROOT + "." + mod + "." + metric) == [ROOT, mod] + Pieces(metric)
  {
    PiecesAfter(ROOT, mod + "." + metric);
    assert ROOT + "." + mod + "." + metric == ROOT + "." + (mod + "." + metric);
    PiecesAfter(mod, metric);
  }

  lemma {:induction false} DropAfter(head: seq<string>, tail: seq<string>)
    requires head != [] ==> head[|head| - 1] != ""
    ensures DropTrailingEmpty(head + tail) == head + DropTrailingEmpty(tail)
    decreases |tail|
  {
    if tail != [] && tail[|tail| - 1] == "" {
      assert (head + tail)[..|head + tail| - 1] == head + tail[..|tail| - 1];
      DropAfter(head, tail[..|tail| - 1]);
    } else if tail == [] {
      assert head + tail == head;
    }
  }

  lemma SplitFull(metric: string, mod: string)
    requires mod != ""
    ensures var tokens := Split(ROOT + "." + mod + "." + metric);
            && tokens != [] && tokens[0] == ROOT
            && (forall i :: 0 <= i < |tokens| ==> '.' !in tokens[i])
            && ('.' !in mod ==> tokens == [ROOT, mod] + Split(metric))
  {
    var full := ROOT + "." + mod + "." + metric;
    var rest := Pieces(mod + "." + metric);
    assert full == ROOT + "." + (mod + "." + metric);
    PiecesAfter(ROOT, mod + "." + metric);
    DropAfter([ROOT], rest);
    forall i | 0 <= i < |Split(full)| ensures '.' !in Split(full)[i] {
      PiecesHaveNoDot(full, i);
    }
    if '.' !in mod {
      FullNamePieces(metric, mod);
      DropAfter([ROOT, mod], Pieces(metric));
    }
  }

  /** Splitting and joining loses nothing but dots at the end. */
  lemma JoinSplit(s: string)
    requires s != ""
    ensures Join(Split(s)) == s <==> s[|s| - 1] != '.'
  {
    LastPiece(s);
    if s[|s| - 1] != '.' {
      JoinPieces(s);
    } else {
      var tail := Split(s);
      forall t | t in tail ensures '.' !in t {
        var i :| 0 <= i < |tail| && tail[i] == t;
        PiecesHaveNoDot(s, i);
      }
      JoinEnd(tail);
    }
  }

  /** Both parts come back exactly if the module has no dot and the metric does not end in one. */
  lemma RoundTrip(metric: string, mod: string)
    requires metric != "" && mod != ""
    ensures var full := ResolveMetricName(Some(metric), Some(mod));
            && full.Some? && ValidName(full)
            && (ResolveModule(full) == Some(mod) <==> '.' !in mod)
            && (ResolveModule(full) == Some(mod) && MetricOf(full) == Some(metric) <==> '.' !in mod && metric[|metric| - 1] != '.')
  {
    SplitFull(metric, mod);
    JoinSplit(metric);
    hide Split, Join, Pieces, DropTrailingEmpty;
    assert ([ROOT, mod] + Split(metric))[2..] == Split(metric);
  }

  /** Different names have different full names, as long as modules have no dots. */
  lemma FullNamesDiffer(metric: string, mod: string, metric': string, mod': string)
    requires metric != "" && mod != "" && metric' != "" && mod' != "" && '.' !in mod && '.' !in mod'
    requires ResolveMetricName(Some(metric), Some(mod)) == ResolveMetricName(Some(metric'), Some(mod'))
    ensures metric == metric' && mod == mod'
  {
    FullNamePieces(metric, mod);
    FullNamePieces(metric', mod');
    JoinPieces(metric);
    JoinPieces(metric');
    assert ([ROOT, mod] + Pieces(metric))[2..] == Pieces(metric);
    assert ([ROOT, mod'] + Pieces(metric'))[2..] == Pieces(metric');
    assert ([ROOT, mod] + Pieces(metric))[1] == mod;
    assert ([ROOT, mod'] + Pieces(metric'))[1] == mod';
  }
}
