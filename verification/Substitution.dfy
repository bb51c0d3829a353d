/** Filling `{node}` and `{vmid}` into an ACL path: one name after the other, as the code does it,
    and all at once, as it is meant. */
module Substitution {
  import opened Strings

  /** A path as it is read: characters, and placeholders by name. */
  datatype Token = Chr(c: char) | Hole(name: string)

  predicate NoBrace(s: string) {
    Without(s, '{') && Without(s, '}')
  }

  /** Placeholders are not nested, and no other brace opens. */
  predicate Clean(path: seq<Token>) {
    forall i :: 0 <= i < |path| ==> if path[i].Chr? then path[i].c != '{' else NoBrace(path[i].name)
  }

  function Braced(name: string): string {
    "{" + name + "}"
  }

  function Text(path: seq<Token>): string {
    if path == [] then ""
    else (if path[0].Chr? then [path[0].c] else Braced(path[0].name)) + Text(path[1..])
  }

  function Chars(s: string): (tokens: seq<Token>)
    ensures |tokens| == |s| && forall i :: 0 <= i < |s| ==> tokens[i] == Chr(s[i])
  {
    if s == "" then [] else [Chr(s[0])] + Chars(s[1..])
  }

  lemma TextStep(token: Token, path: seq<Token>)
    ensures Text([token] + path) == (if token.Chr? then [token.c] else Braced(token.name)) + Text(path)
  {
    assert ([token] + path)[1..] == path;
  }

  lemma CharsStep(s: string, path: seq<Token>)
    requires s != ""
    ensures Chars(s) + path == [Chr(s[0])] + (Chars(s[1..]) + path)
  {
  }

  lemma {:induction false} TextOfChars(s: string, path: seq<Token>)
    ensures Text(Chars(s) + path) == s + Text(path)
  {
    if s == "" {
      assert Chars(s) + path == path;
    } else {
      var rest := Chars(s[1..]) + path;
      CharsStep(s, path);
      TextOfChars(s[1..], path);
      TextStep(Chr(s[0]), rest);
      assert Text([Chr(s[0])] + rest) == [s[0]] + (s[1..] + Text(path));
      Concatenate(s, Text(path));
    }
  }

  // ---- simultaneous substitution -------------------------------------------------------------------------

  /** Every placeholder with a value is replaced by it, all at once. */
  function Fill(path: seq<Token>, values: map<string, string>): seq<Token> {
    if path == [] then []
    else
      FillOne(path[0], values) + Fill(path[1..], values)
  }

  function FillOne(token: Token, values: map<string, string>): seq<Token> {
    if token.Hole? && token.name in values then Chars(values[token.name]) else [token]
  }

  lemma FillStep(token: Token, path: seq<Token>, values: map<string, string>)
    ensures Fill([token] + path, values) == FillOne(token, values) + Fill(path, values)
  {
    assert ([token] + path)[1..] == path;
  }

  lemma {:induction false} FillAppend(a: seq<Token>, b: seq<Token>, values: map<string, string>)
    ensures Fill(a + b, values) == Fill(a, values) + Fill(b, values)
  {
    if a == [] {
      assert a + b == b;
    } else {
      FillAppend(a[1..], b, values);
      FillStep(a[0], a[1..] + b, values);
      Associate(FillOne(a[0], values), Fill(a[1..], values), Fill(b, values));
      Associate([a[0]], a[1..], b);
      assert a == [a[0]] + a[1..];
    }
  }

  lemma {:induction false} FillChars(s: string, values: map<string, string>)
    ensures Fill(Chars(s), values) == Chars(s)
  {
    if s == "" {
    } else {
      FillChars(s[1..], values);
    }
  }

  /** Filling one name after others is filling them together. */
  lemma {:induction false} FillTwice(path: seq<Token>, values: map<string, string>, name: string, value: string)
    requires name !in values
    ensures Fill(Fill(path, values), map[name := value]) == Fill(path, values[name := value])
  {
    if path == [] {
    } else {
      FillTwice(path[1..], values, name, value);
      var first := FillOne(path[0], values);
      FillAppend(first, Fill(path[1..], values), map[name := value]);
      if path[0].Hole? && path[0].name in values {
        FillChars(values[path[0].name], map[name := value]);
      } else {
        assert Fill(first, map[name := value]) ==
               if path[0] == Hole(name) then Chars(value) + [] else [path[0]] + [];
      }
    }
  }

  // ---- one replacement ---------------------------------------------------------------------------------------

  /** A placeholder of another name is no occurrence. */
  lemma OtherHole(name: string, other: string, tail: string)
    requires NoBrace(name) && NoBrace(other) && name != other
    ensures !(Braced(name) <= Braced(other) + tail)
  {
    var text := Braced(other) + tail;
    assert Braced(name)[1 + |name|] == '}' && text[1 + |other|] == '}';
    if |name| < |other| {
      assert text[1 + |name|] == other[|name|] && other[|name|] in other;
    } else if |other| < |name| {
      assert Braced(name)[1 + |other|] == name[|other|] && name[|other|] in name;
    } else {
      assert name == Braced(name)[1..1 + |name|] && other == text[1..1 + |name|];
    }
  }

  lemma ReplaceHere(name: string, rest: string, value: string)
    ensures Replace(Braced(name) + rest, Braced(name), value) == value + Replace(rest, Braced(name), value)
  {
    assert (Braced(name) + rest)[|Braced(name)|..] == rest;
    assert Braced(name) <= Braced(name) + rest;
  }

  lemma BracedFirst(name: string, rest: string)
    ensures Braced(name) + rest == "{" + ((name + "}") + rest)
  {
  }

  lemma ReplaceNotHere(name: string, other: string, rest: string, value: string)
    requires NoBrace(name) && NoBrace(other) && name != other
    ensures Replace(Braced(other) + rest, Braced(name), value) == Braced(other) + Replace(rest, Braced(name), value)
  {
    var pattern := Braced(name);
    var text := Braced(other) + rest;
    OtherHole(name, other, rest);
    BracedFirst(other, rest);
    BracedFirst(other, Replace(rest, pattern, value));
    if |text| >= |pattern| {
      ReplaceSkips(other + "}", rest, pattern, value);
      assert text[0] == '{' && text[1..] == (other + "}") + rest;
      assert Replace(text, pattern, value) == "{" + Replace((other + "}") + rest, pattern, value);
    }
  }

  predicate PlainHoles(path: seq<Token>) {
    forall i :: 0 <= i < |path| && path[i].Hole? ==> NoBrace(path[i].name)
  }

  /** No character of the path begins what reads like `{name}`. */
  predicate NoStray(path: seq<Token>, name: string) {
    forall i :: 0 <= i < |path| && path[i] == Chr('{') ==> !(Braced(name) <= Text(path[i..]))
  }

  lemma NoStrayRest(path: seq<Token>, name: string)
    requires path != [] && NoStray(path, name)
    ensures NoStray(path[1..], name)
  {
    forall i | 0 <= i < |path[1..]| && path[1..][i] == Chr('{')
      ensures !(Braced(name) <= Text(path[1..][i..]))
    {
      assert path[1..][i..] == path[i + 1..];
    }
  }

  /** A character that begins no occurrence is passed over. */
  lemma ReplaceNotAt(c: char, rest: string, name: string, value: string)
    requires !(Braced(name) <= [c] + rest)
    ensures Replace([c] + rest, Braced(name), value) == [c] + Replace(rest, Braced(name), value)
  {
    assert ([c] + rest)[1..] == rest;
  }

  /** One `str.replace` fills one name. */
  lemma {:induction false} ReplaceFillsOne(path: seq<Token>, name: string, value: string)
    requires PlainHoles(path) && NoBrace(name) && NoStray(path, name)
    ensures Replace(Text(path), Braced(name), value) == Text(Fill(path, map[name := value]))
  {
    if path == [] {
    } else {
      NoStrayRest(path, name);
      ReplaceFillsOne(path[1..], name, value);
      var rest := Text(path[1..]);
      var filled := Fill(path[1..], map[name := value]);
      match path[0] {
        case Chr(c) =>
          assert path[0..] == path && ([c] + rest)[0] == c && Braced(name)[0] == '{';
          ReplaceNotAt(c, rest, name, value);
          TextStep(Chr(c), filled);
        case Hole(other) =>
          if other == name {
            ReplaceHere(name, rest, value);
            TextOfChars(value, filled);
          } else {
            ReplaceNotHere(name, other, rest, value);
            TextStep(path[0], filled);
          }
      }
    }
  }

  // ---- values that read like placeholders ------------------------------------------------------------------

  /** From some place on, the value reads like `{name}` as far as it goes. */
  predicate Opens(value: string, name: string) {
    exists i :: 0 <= i < |value| && (Braced(name) <= value[i..] || value[i..] <= Braced(name))
  }

  lemma OpeningBrace(value: string, name: string)
    requires Opens(value, name)
    ensures '{' in value
  {
    var i :| 0 <= i < |value| && (Braced(name) <= value[i..] || value[i..] <= Braced(name));
    assert value[i] == value[i..][0] == Braced(name)[0];
  }

  lemma OnlyBracesOpen(value: string, name: string)
    requires Without(value, '{')
    ensures !Opens(value, name)
  {
    if Opens(value, name) {
      OpeningBrace(value, name);
    }
  }

  /** What reads like a placeholder at a place within the value is opened by the value. */
  lemma ReadsOn(value: string, rest: string, i: nat, name: string)
    requires i < |value| && Braced(name) <= value[i..] + rest
    ensures Opens(value, name)
  {
    var tail, braced := value[i..], Braced(name);
    if |braced| <= |tail| {
      assert braced == (tail + rest)[..|braced|] == tail[..|braced|];
    } else {
      assert tail == (tail + rest)[..|tail|] == braced[..|tail|];
    }
  }

  lemma TextFrom(value: string, path: seq<Token>, i: nat)
    requires i <= |value|
    ensures Text((Chars(value) + path)[i..]) == value[i..] + Text(path)
  {
    assert (Chars(value) + path)[i..] == Chars(value[i..]) + path;
    TextOfChars(value[i..], path);
  }

  /** What has been filled in begins no other placeholder, if no value opens it. */
  lemma {:induction false} FillHasNoStray(path: seq<Token>, values: map<string, string>, name: string)
    requires Clean(path) && forall n :: n in values ==> !Opens(values[n], name)
    ensures NoStray(Fill(path, values), name) && PlainHoles(Fill(path, values))
  {
    if path == [] {
    } else {
      var first, rest := FillOne(path[0], values), Fill(path[1..], values);
      FillHasNoStray(path[1..], values, name);
      forall i | 0 <= i < |first + rest| && (first + rest)[i] == Chr('{')
        ensures !(Braced(name) <= Text((first + rest)[i..]))
      {
        if i < |first| {
          var value := values[path[0].name];
          TextFrom(value, rest, i);
          if Braced(name) <= value[i..] + Text(rest) {
            ReadsOn(value, Text(rest), i, name);
          }
        } else {
          assert (first + rest)[i..] == rest[i - |first|..];
        }
      }
    }
  }

  // ---- one name after the other ----------------------------------------------------------------------------

  /** `values.items()` of a dict: the names are distinct. */
  ghost predicate Distinct(items: seq<(string, string)>) {
    forall i, j :: 0 <= i < j < |items| ==> items[i].0 != items[j].0
  }

  function ToMap(items: seq<(string, string)>): map<string, string> {
    if items == [] then map[] else ToMap(items[..|items| - 1])[items[|items| - 1].0 := items[|items| - 1].1]
  }

  lemma {:induction false} ToMapKeys(items: seq<(string, string)>)
    ensures forall name :: name in ToMap(items) <==> exists i :: 0 <= i < |items| && items[i].0 == name
    ensures Distinct(items) ==> forall i :: 0 <= i < |items| ==> items[i].0 in ToMap(items) && ToMap(items)[items[i].0] == items[i].1
  {
    if items == [] {
    } else {
      ToMapKeys(items[..|items| - 1]);
    }
  }

  /** The inner loop of `Check.substitute`. */
  function Substituted(path: string, items: seq<(string, string)>): string {
    if items == [] then path
    else Replace(Substituted(path, items[..|items| - 1]), Braced(items[|items| - 1].0), items[|items| - 1].1)
  }

  predicate PlainNames(items: seq<(string, string)>) {
    forall i :: 0 <= i < |items| ==> NoBrace(items[i].0)
  }

  /** No value opens a name that comes after it, unless that name stands for its own placeholder. */
  predicate Harmless(items: seq<(string, string)>) {
    forall i, j :: 0 <= i < j < |items| ==> !Opens(items[i].1, items[j].0) || items[j].1 == Braced(items[j].0)
  }

  /** A placeholder replaced by itself. */
  lemma {:induction false} ReplaceItself(s: string, pattern: string)
    requires pattern != ""
    ensures Replace(s, pattern, pattern) == s
  {
    if |s| < |pattern| {
    } else if pattern <= s {
      ReplaceItself(s[|pattern|..], pattern);
    } else {
      ReplaceItself(s[1..], pattern);
    }
  }

  lemma {:induction false} FillItself(path: seq<Token>, values: map<string, string>, name: string)
    requires name !in values
    ensures Text(Fill(path, values[name := Braced(name)])) == Text(Fill(path, values))
  {
    if path == [] {
    } else {
      var more := values[name := Braced(name)];
      var rest, same := Fill(path[1..], more), Fill(path[1..], values);
      FillItself(path[1..], values, name);
      match path[0] {
        case Chr(c) =>
          TextStep(path[0], rest);
          TextStep(path[0], same);
        case Hole(n) =>
          if n == name {
            TextOfChars(Braced(name), rest);
            TextStep(path[0], same);
          } else if n in values {
            TextOfChars(values[n], rest);
            TextOfChars(values[n], same);
          } else {
            TextStep(path[0], rest);
            TextStep(path[0], same);
          }
      }
    }
  }

  /** Replacing one name after the other is substituting all of them at once, where no value can be taken
      for the placeholder of a name still to come. */
  lemma {:induction false} SequentialIsSimultaneous(path: seq<Token>, items: seq<(string, string)>)
    requires Clean(path) && Distinct(items) && PlainNames(items) && Harmless(items)
    ensures Substituted(Text(path), items) == Text(Fill(path, ToMap(items)))
  {
    if items == [] {
      FillNothing(path);
    } else {
      var n := |items| - 1;
      var init := items[..n];
      var (name, value) := items[n];
      SequentialIsSimultaneous(path, init);
      ToMapKeys(init);
      if value == Braced(name) {
        ReplaceItself(Substituted(Text(path), init), Braced(name));
        FillItself(path, ToMap(init), name);
      } else {
        forall other | other in ToMap(init)
          ensures !Opens(ToMap(init)[other], name)
        {
          var i :| 0 <= i < n && init[i].0 == other;
          assert ToMap(init)[init[i].0] == items[i].1;
        }
        FillHasNoStray(path, ToMap(init), name);
        ReplaceFillsOne(Fill(path, ToMap(init)), name, value);
        FillTwice(path, ToMap(init), name, value);
      }
    }
  }

  lemma {:induction false} FillNothing(path: seq<Token>)
    ensures Fill(path, map[]) == path
  {
    if path == [] {
    } else {
      FillNothing(path[1..]);
    }
  }

  lemma SameEntries(items: seq<(string, string)>, others: seq<(string, string)>, name: string)
    requires Distinct(items) && Distinct(others)
    requires forall item :: item in items ==> item in others
    requires name in ToMap(items)
    ensures name in ToMap(others) && ToMap(others)[name] == ToMap(items)[name]
  {
    ToMapKeys(items);
    ToMapKeys(others);
    var i :| 0 <= i < |items| && items[i].0 == name;
    assert items[i] in others;
  }

  /** No value opens another name, whatever the order. */
  ghost predicate Quiet(items: seq<(string, string)>) {
    forall a, b :: a in items && b in items && a.0 != b.0 ==> !Opens(a.1, b.0) || b.1 == Braced(b.0)
  }

  lemma QuietIsHarmless(items: seq<(string, string)>)
    requires Distinct(items) && Quiet(items)
    ensures Harmless(items)
  {
    forall i, j | 0 <= i < j < |items|
      ensures !Opens(items[i].1, items[j].0) || items[j].1 == Braced(items[j].0)
    {
      assert items[i] in items && items[j] in items;
    }
  }

  /** Values in which no brace opens are quiet. */
  lemma BraceFreeIsQuiet(items: seq<(string, string)>)
    requires forall item :: item in items ==> Without(item.1, '{')
    ensures Quiet(items)
  {
    forall a, b | a in items && b in items
      ensures !Opens(a.1, b.0)
    {
      OnlyBracesOpen(a.1, b.0);
    }
  }

  /** The same names and values in another order. */
  ghost predicate Reordered(items: seq<(string, string)>, others: seq<(string, string)>) {
    Distinct(others) && forall item :: item in items <==> item in others
  }

  lemma PlainReordered(items: seq<(string, string)>, others: seq<(string, string)>)
    requires PlainNames(items) && Reordered(items, others)
    ensures PlainNames(others) && (Quiet(items) ==> Quiet(others))
  {
    forall i | 0 <= i < |others|
      ensures NoBrace(others[i].0)
    {
      assert others[i] in others && others[i] in items;
    }
  }

  /** So the order of the names does not matter. */
  lemma OrderDoesNotMatter(path: seq<Token>, items: seq<(string, string)>, others: seq<(string, string)>)
    requires Clean(path) && Distinct(items) && PlainNames(items) && Quiet(items) && Reordered(items, others)
    ensures Substituted(Text(path), items) == Substituted(Text(path), others)
  {
    forall name | name in ToMap(items)
      ensures name in ToMap(others) && ToMap(others)[name] == ToMap(items)[name]
    {
      SameEntries(items, others, name);
    }
    forall name | name in ToMap(others)
      ensures name in ToMap(items)
    {
      SameEntries(others, items, name);
    }
    assert ToMap(items) == ToMap(others);
    PlainReordered(items, others);
    QuietIsHarmless(items);
    QuietIsHarmless(others);
    SequentialIsSimultaneous(path, items);
    SequentialIsSimultaneous(path, others);
  }
}
