/** Values that read like placeholders: for exactly these the order of the names matters. */
module StrayPlaceholders {
  import opened Strings
  import opened Substitution

  predicate Occurs(s: string, pattern: string) {
    exists i :: 0 <= i <= |s| && pattern <= s[i..]
  }

  lemma OccursFits(s: string, pattern: string)
    requires Occurs(s, pattern)
    ensures |s| >= |pattern|
  {
  }

  lemma OccursLater(s: string, pattern: string)
    requires s != "" && Occurs(s, pattern) && !(pattern <= s)
    ensures Occurs(s[1..], pattern)
  {
    var i :| 0 <= i <= |s| && pattern <= s[i..];
    assert s[0..] == s;
    assert s[1..][i - 1..] == s[i..];
  }

  lemma {:induction false} ReplaceLength(s: string, pattern: string, value: string)
    requires pattern != ""
    ensures |value| >= |pattern| ==> |Replace(s, pattern, value)| >= |s|
    ensures |value| <= |pattern| ==> |Replace(s, pattern, value)| <= |s|
  {
    if |s| < |pattern| {
    } else if pattern <= s {
      ReplaceLength(s[|pattern|..], pattern, value);
    } else {
      ReplaceLength(s[1..], pattern, value);
    }
  }

  /** A pattern that occurs is not replaced by another text without a trace. */
  lemma {:induction false} ReplaceChanges(s: string, pattern: string, value: string)
    requires pattern != "" && value != pattern && Occurs(s, pattern)
    ensures Replace(s, pattern, value) != s
  {
    OccursFits(s, pattern);
    if pattern <= s {
      var rest := s[|pattern|..];
      ReplaceLength(rest, pattern, value);
      assert s == pattern + rest && Replace(s, pattern, value) == value + Replace(rest, pattern, value);
      if |value| == |pattern| {
        assert s[..|pattern|] == pattern && (value + Replace(rest, pattern, value))[..|pattern|] == value;
      }
    } else {
      OccursLater(s, pattern);
      ReplaceChanges(s[1..], pattern, value);
      assert Replace(s, pattern, value)[1..] == Replace(s[1..], pattern, value);
    }
  }

  predicate Lacks(path: seq<Token>, name: string) {
    forall i :: 0 <= i < |path| ==> path[i] != Hole(name)
  }

  lemma {:induction false} FillLacking(path: seq<Token>, name: string, value: string)
    requires Lacks(path, name)
    ensures Fill(path, map[name := value]) == path
  {
    if path == [] {
    } else {
      FillLacking(path[1..], name, value);
    }
  }

  /** Names that the path does not have change nothing. */
  lemma {:induction false} OthersDoNothing(path: seq<Token>, items: seq<(string, string)>)
    requires Clean(path) && PlainNames(items) && forall i :: 0 <= i < |items| ==> Lacks(path, items[i].0)
    ensures Substituted(Text(path), items) == Text(path)
  {
    if items == [] {
    } else {
      var n := |items| - 1;
      OthersDoNothing(path, items[..n]);
      ReplaceFillsOne(path, items[n].0, items[n].1);
      FillLacking(path, items[n].0, items[n].1);
    }
  }

  function Except(items: seq<(string, string)>, a: string, b: string): seq<(string, string)> {
    if items == [] then []
    else
      var init, last := Except(items[..|items| - 1], a, b), items[|items| - 1];
      if last.0 == a || last.0 == b then init else init + [last]
  }

  lemma {:induction false} ExceptMeaning(items: seq<(string, string)>, a: string, b: string)
    requires Distinct(items)
    ensures Distinct(Except(items, a, b))
    ensures forall item :: item in Except(items, a, b) <==> item in items && item.0 != a && item.0 != b
  {
    if items == [] {
    } else {
      var n := |items| - 1;
      var init := Except(items[..n], a, b);
      ExceptMeaning(items[..n], a, b);
      assert items == items[..n] + [items[n]];
      forall i | 0 <= i < |init|
        ensures init[i].0 != items[n].0
      {
        assert init[i] in init && init[i] in items[..n];
      }
    }
  }

  /** What is missing of `{name}` after the part of it that the value ends in. */
  function Completion(value: string, name: string, i: nat): string
    requires i <= |value|
  {
    if Braced(name) <= value[i..] then "" else Braced(name)[if |value| - i <= |Braced(name)| then |value| - i else 0..]
  }

  lemma CompletionOpens(value: string, name: string, i: nat)
    requires i < |value| && NoBrace(name) && (Braced(name) <= value[i..] || value[i..] <= Braced(name))
    ensures Occurs(value + Completion(value, name, i), Braced(name))
    ensures Without(Completion(value, name, i), '{')
  {
    var rest := Completion(value, name, i);
    assert (value + rest)[i..] == value[i..] + rest;
    assert Braced(name) <= (value + rest)[i..];
    forall k | 0 <= k < |rest|
      ensures rest[k] != '{'
    {
      var at := |value| - i + k;
      assert rest[k] == Braced(name)[at] && at >= 1;
      assert at <= |name| ==> Braced(name)[at] == name[at - 1] && name[at - 1] in name;
    }
  }

  lemma TwoLast(rest: seq<(string, string)>, a: (string, string), b: (string, string), path: string)
    ensures Substituted(path, rest + [a, b]) == Replace(Replace(Substituted(path, rest), Braced(a.0), a.1), Braced(b.0), b.1)
  {
    var all := rest + [a, b];
    assert all[..|all| - 1] == rest + [a] && (rest + [a])[..|rest|] == rest;
  }

  /** On this path the last two names are all that matters. */
  lemma LastTwoMatter(others: seq<(string, string)>, a: (string, string), b: (string, string), tail: string)
    requires PlainNames(others) && NoBrace(a.0) && NoBrace(b.0) && Without(tail, '{')
    requires forall i :: 0 <= i < |others| ==> others[i].0 != a.0
    ensures Substituted(Braced(a.0) + tail, others + [a, b]) == Replace(a.1 + tail, Braced(b.0), b.1)
  {
    var path := [Hole(a.0)] + Chars(tail);
    PathOf(a.0, tail);
    OthersDoNothing(path, others);
    TwoLast(others, a, b, Text(path));
    ReplaceHere(a.0, tail, a.1);
    ReplaceSkips(tail, "", Braced(a.0), a.1);
    assert tail + "" == tail;
  }

  /** A value that opens another name makes some order of the names and some clean path differ from
      substituting all at once. */
  lemma SomeOrderDiffers(items: seq<(string, string)>, a: (string, string), b: (string, string))
    returns (path: seq<Token>, order: seq<(string, string)>)
    requires Distinct(items) && PlainNames(items) && a in items && b in items && a.0 != b.0
    requires Opens(a.1, b.0) && b.1 != Braced(b.0)
    ensures Clean(path) && Reordered(items, order)
    ensures Substituted(Text(path), order) != Text(Fill(path, ToMap(order)))
  {
    var k :| 0 <= k < |a.1| && (Braced(b.0) <= a.1[k..] || a.1[k..] <= Braced(b.0));
    var tail := Completion(a.1, b.0, k);
    var others := Except(items, a.0, b.0);
    path, order := [Hole(a.0)] + Chars(tail), others + [a, b];
    CompletionOpens(a.1, b.0, k);
    OrderWithLast(items, a, b);
    PlainReordered(items, order);
    PathOf(a.0, tail);
    PlainOthers(others, a, b);
    LastTwoMatter(others, a, b, tail);
    ReplaceChanges(a.1 + tail, Braced(b.0), b.1);
    LastButOne(others, a, b);
    FillOfPath(a.0, tail, ToMap(order));
  }

  lemma PlainOthers(others: seq<(string, string)>, a: (string, string), b: (string, string))
    requires PlainNames(others + [a, b]) && Distinct(others + [a, b])
    ensures PlainNames(others) && forall i :: 0 <= i < |others| ==> others[i].0 != a.0
  {
    var all := others + [a, b];
    assert all[|others|] == a;
    assert forall i :: 0 <= i < |others| ==> all[i] == others[i];
  }

  lemma LastButOne(others: seq<(string, string)>, a: (string, string), b: (string, string))
    requires Distinct(others + [a, b])
    ensures a.0 in ToMap(others + [a, b]) && ToMap(others + [a, b])[a.0] == a.1
  {
    ToMapKeys(others + [a, b]);
    assert (others + [a, b])[|others|] == a;
  }

  lemma PathOf(name: string, tail: string)
    requires NoBrace(name) && Without(tail, '{')
    ensures Clean([Hole(name)] + Chars(tail)) && Text([Hole(name)] + Chars(tail)) == Braced(name) + tail
  {
    TextStep(Hole(name), Chars(tail));
    TextOfChars(tail, []);
    assert Chars(tail) + [] == Chars(tail) && tail + "" == tail;
    forall i | 0 <= i < |tail|
      ensures tail[i] != '{'
    {
      assert tail[i] in tail;
    }
  }

  lemma FillOfPath(name: string, tail: string, values: map<string, string>)
    requires name in values
    ensures Text(Fill([Hole(name)] + Chars(tail), values)) == values[name] + tail
  {
    FillStep(Hole(name), Chars(tail), values);
    FillChars(tail, values);
    TextOfChars(values[name], Chars(tail));
    TextOfChars(tail, []);
    assert Chars(tail) + [] == Chars(tail) && tail + "" == tail;
  }

  lemma OrderWithLast(items: seq<(string, string)>, a: (string, string), b: (string, string))
    requires Distinct(items) && a in items && b in items && a.0 != b.0
    ensures Reordered(items, Except(items, a.0, b.0) + [a, b])
  {
    var others := Except(items, a.0, b.0);
    ExceptMeaning(items, a.0, b.0);
    var i :| 0 <= i < |items| && items[i] == a;
    var j :| 0 <= j < |items| && items[j] == b;
    forall k | 0 <= k < |others|
      ensures others[k].0 != a.0 && others[k].0 != b.0
    {
      assert others[k] in others;
    }
    forall item | item in items
      ensures item in others + [a, b]
    {
      var k :| 0 <= k < |items| && items[k] == item;
      assert item.0 == a.0 ==> k == i;
      assert item.0 == b.0 ==> k == j;
    }
  }

  /** Exactly when filling one name after the other is filling all at once, on every clean path and in
      every order: if no value opens another name. */
  lemma OrdersAgreeIffQuiet(items: seq<(string, string)>)
    requires Distinct(items) && PlainNames(items)
    ensures Quiet(items) <==>
              forall path: seq<Token>, order :: Clean(path) && Reordered(items, order) ==>
                Substituted(Text(path), order) == Text(Fill(path, ToMap(order)))
  {
    if Quiet(items) {
      forall path: seq<Token>, order | Clean(path) && Reordered(items, order)
        ensures Substituted(Text(path), order) == Text(Fill(path, ToMap(order)))
      {
        PlainReordered(items, order);
        QuietIsHarmless(order);
        SequentialIsSimultaneous(path, order);
      }
    } else {
      var a, b :| a in items && b in items && a.0 != b.0 && Opens(a.1, b.0) && b.1 != Braced(b.0);
      var path, order := SomeOrderDiffers(items, a, b);
    }
  }

  lemma SubstitutedPair(path: string, a: (string, string), b: (string, string))
    ensures Substituted(path, [a, b]) == Replace(Replace(path, Braced(a.0), a.1), Braced(b.0), b.1)
  {
    assert [a, b][..1] == [a] && [a][..0] == [];
    assert Substituted(path, [a]) == Replace(Substituted(path, []), Braced(a.0), a.1);
  }

  /** Without the precondition it does: a value that looks like a placeholder is filled in turn,
      if its name comes later. */
  lemma BracesInValuesMatter(name: string, other: string, value: string)
    requires NoBrace(name) && NoBrace(other) && NoBrace(value) && name != other
    ensures var nested, plain := (name, Braced(other)), (other, value);
      && Substituted(Braced(name), [nested, plain]) == value
      && Substituted(Braced(name), [plain, nested]) == Braced(other)
      && value != Braced(other)
  {
    SubstitutedPair(Braced(name), (name, Braced(other)), (other, value));
    SubstitutedPair(Braced(name), (other, value), (name, Braced(other)));
    ReplaceAll(name, Braced(other));
    ReplaceAll(other, value);
    ReplaceNotHere(other, name, "", value);
    assert Braced(name) + "" == Braced(name);
    assert '{' in Braced(other);
  }

  lemma ReplaceAll(name: string, value: string)
    ensures Replace(Braced(name), Braced(name), value) == value
    ensures Replace("", Braced(name), value) == ""
  {
    ReplaceHere(name, "", value);
    assert Braced(name) + "" == Braced(name) && value + "" == value;
  }
}
