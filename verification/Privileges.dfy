/** Looking up what a route requires: by its template, and by the path as it is called. */
module Privileges {
  import opened Wrappers
  import opened Strings
  import opened Substitution
  import opened PrivilegeTable

  type Check = seq<Privileges>
  type Items = seq<(string, string)>

  // ---- Check.substitute ------------------------------------------------------------------------------

  function Substitute(check: Check, items: Items): (filled: Check)
    ensures |filled| == |check|
  {
    seq(|check|, i requires 0 <= i < |check| => check[i].(path := Substituted(check[i].path, items)))
  }

  /** Only the path of an alternative is filled in: what it demands, and whether one privilege of it is
      enough, stays. */
  lemma SubstituteKeepsDemands(check: Check, items: Items, i: nat)
    requires i < |check|
    ensures Substitute(check, items)[i] == Privileges(Substituted(check[i].path, items), check[i].privileges, check[i].anyOf)
  {
  }

  method SubstituteValues(check: Check, values: Items) returns (filled: Check)
    ensures filled == Substitute(check, values)
    ensures |filled| == |check|
    ensures forall i :: 0 <= i < |check| ==> filled[i].privileges == check[i].privileges && filled[i].anyOf == check[i].anyOf
  {
    filled := [];
    for i := 0 to |check|
      invariant |filled| == i && forall k :: 0 <= k < i ==> filled[k] == Substitute(check, values)[k]
    {
      var path := check[i].path;
      for j := 0 to |values|
        invariant path == Substituted(check[i].path, values[..j])
      {
        path := Replace(path, Braced(values[j].0), values[j].1);
        assert values[..j + 1][..j] == values[..j];
      }
      assert values[..|values|] == values;
      filled := filled + [check[i].(path := path)];
    }
  }

  // ---- privileges_for ----------------------------------------------------------------------------------

  /** `method.upper()`, for ASCII. */
  function Upper(s: string): string {
    seq(|s|, i requires 0 <= i < |s| => if 'a' <= s[i] <= 'z' then s[i] - 'a' + 'A' else s[i])
  }

  function PartsOf(path: string): seq<string> {
    Split(Strip(path, '/'), '/')
  }

  /** Assignment to a dict: a known name keeps its place. */
  function Put(items: Items, name: string, value: string): Items {
    if items == [] then [(name, value)]
    else if items[0].0 == name then [(name, value)] + items[1..]
    else [items[0]] + Put(items[1..], name, value)
  }

  /** What the loop over segments and parts has filled in, or None at a word that differs. */
  function Bind(segments: seq<Segment>, parts: seq<string>, items: Items): Option<Items>
    requires |segments| == |parts|
  {
    if segments == [] then Some(items)
    else match segments[0]
         case Slot(name) => Bind(segments[1..], parts[1..], Put(items, name, parts[0]))
         case Lit(text) => if text == parts[0] then Bind(segments[1..], parts[1..], items) else None
  }

  function Lookup(table: seq<Row>, verb: string, parts: seq<string>, values: Items): Option<Check> {
    if table == [] then None
    else
      var row := table[0];
      if row.verb == verb && |row.segments| == |parts| && Bind(row.segments, parts, values).Some?
      then Some(Substitute(row.entry, Bind(row.segments, parts, values).value))
      else Lookup(table[1..], verb, parts, values)
  }

  method PrivilegesFor(table: seq<Row>, verb: string, path: string, values: Items) returns (found: Option<Check>)
    ensures found == Lookup(table, Upper(verb), PartsOf(path), values)
  {
    var upper := Upper(verb);
    var parts := PartsOf(path);
    for k := 0 to |table|
      invariant Lookup(table, upper, parts, values) == Lookup(table[k..], upper, parts, values)
    {
      var row := table[k];
      assert table[k..][0] == row && table[k..][1..] == table[k + 1..];
      if row.verb != upper || |row.segments| != |parts| {
        continue;
      }
      var filled := values;
      var fits := true;
      var i := 0;
      while i < |parts| && fits
        invariant i <= |parts|
        invariant Bind(row.segments, parts, values) ==
                  if fits then Bind(row.segments[i..], parts[i..], filled) else None
      {
        assert row.segments[i..][1..] == row.segments[i + 1..] && parts[i..][1..] == parts[i + 1..];
        match row.segments[i] {
          case Slot(name) => filled := Put(filled, name, parts[i]);
          case Lit(text) => fits := text == parts[i];
        }
        i := i + 1;
      }
      if fits {
        assert row.segments[i..] == [] && parts[i..] == [];
        var check := SubstituteValues(row.entry, filled);
        return Some(check);
      }
    }
    return None;
  }

  /** The lookup by template; an empty entry reads as no check. */
  function RequiredPrivileges(table: seq<Row>, verb: string, path: string): Option<Check> {
    if table == [] then None
    else if table[0].verb == Upper(verb) && TemplateText(table[0].segments) == Strip(path, '/')
    then if table[0].entry != [] then Some(table[0].entry) else None
    else RequiredPrivileges(table[1..], verb, path)
  }

  // ---- templates as text -----------------------------------------------------------------------------------

  function SegmentText(segment: Segment): string {
    match segment
    case Lit(text) => text
    case Slot(name) => Braced(name)
  }

  function Texts(segments: seq<Segment>): seq<string> {
    seq(|segments|, i requires 0 <= i < |segments| => SegmentText(segments[i]))
  }

  function TemplateText(segments: seq<Segment>): string {
    if segments == [] then "" else Join(Texts(segments), '/')
  }

  /** The template with its placeholders filled in. */
  function Called(segments: seq<Segment>, values: map<string, string>): seq<string>
    requires forall s :: s in segments && s.Slot? ==> s.name in values
  {
    seq(|segments|, i requires 0 <= i < |segments| =>
      if segments[i].Lit? then segments[i].text else values[segments[i].name])
  }

  function CalledPath(segments: seq<Segment>, values: map<string, string>): string
    requires forall s :: s in segments && s.Slot? ==> s.name in values
  {
    if segments == [] then "" else Join(Called(segments, values), '/')
  }

  /** Templates have a word at either end. */
  predicate WellFormed(segments: seq<Segment>) {
    segments != [] && segments[0].Lit? && segments[|segments| - 1].Lit?
  }

  predicate Fillable(segments: seq<Segment>, values: map<string, string>) {
    && (forall s :: s in segments && s.Slot? ==> s.name in values)
    && forall name :: name in values ==> NoBrace(name) && Without(values[name], '/')
  }

  // ---- paths survive strip and split ---------------------------------------------------------------------

  lemma {:induction false} JoinEnds(parts: seq<string>, sep: char)
    requires |parts| > 0 && parts[0] != "" && parts[|parts| - 1] != ""
    ensures Join(parts, sep) != "" && Join(parts, sep)[0] == parts[0][0]
    ensures var text, last := Join(parts, sep), parts[|parts| - 1]; text[|text| - 1] == last[|last| - 1]
  {
    if |parts| > 1 {
      JoinLast(parts[1..], sep);
    }
  }

  lemma {:induction false} JoinLast(parts: seq<string>, sep: char)
    requires |parts| > 0 && parts[|parts| - 1] != ""
    ensures var text, last := Join(parts, sep), parts[|parts| - 1]; text != "" && text[|text| - 1] == last[|last| - 1]
  {
    if |parts| == 1 {
    } else {
      JoinLast(parts[1..], sep);
    }
  }

  lemma PartsOfJoin(parts: seq<string>)
    requires |parts| > 0 && IsWord(parts[0]) && IsWord(parts[|parts| - 1])
    requires forall p :: p in parts ==> Without(p, '/')
    ensures PartsOf(Join(parts, '/')) == parts && Strip(Join(parts, '/'), '/') == Join(parts, '/')
  {
    JoinEnds(parts, '/');
    SplitJoin(parts, '/');
    assert parts[0][0] in parts[0];
    var last := parts[|parts| - 1];
    assert last[|last| - 1] in last;
  }

  /** Slashes around a path, and the case of the method, do not matter. */
  lemma OuterSlashes(before: string, path: string, after: string)
    requires (forall i :: 0 <= i < |before| ==> before[i] == '/') && (forall i :: 0 <= i < |after| ==> after[i] == '/')
    requires path != "" && path[0] != '/' && path[|path| - 1] != '/'
    ensures Strip(before + path + after, '/') == path && PartsOf(before + path + after) == Split(path, '/')
  {
    LeftSlashes(before, path + after);
    assert before + path + after == before + (path + after);
    RightSlashes(path, after);
  }

  lemma {:induction false} LeftSlashes(before: string, rest: string)
    requires (forall i :: 0 <= i < |before| ==> before[i] == '/') && rest != "" && rest[0] != '/'
    ensures StripLeft(before + rest, '/') == rest
  {
    if before == "" {
      assert before + rest == rest;
    } else {
      LeftSlashes(before[1..], rest);
      assert (before + rest)[1..] == before[1..] + rest;
    }
  }

  lemma {:induction false} RightSlashes(rest: string, after: string)
    requires (forall i :: 0 <= i < |after| ==> after[i] == '/') && rest != "" && rest[|rest| - 1] != '/'
    ensures StripRight(rest + after, '/') == rest
  {
    if after == "" {
      assert rest + after == rest;
    } else {
      RightSlashes(rest, after[..|after| - 1]);
      assert (rest + after)[..|rest + after| - 1] == rest + after[..|after| - 1];
    }
  }

  lemma {:induction false} SlashesAroundTemplates(table: seq<Row>, verb: string, before: string, path: string, after: string)
    requires (forall i :: 0 <= i < |before| ==> before[i] == '/') && (forall i :: 0 <= i < |after| ==> after[i] == '/')
    requires path != "" && path[0] != '/' && path[|path| - 1] != '/'
    ensures RequiredPrivileges(table, verb, before + path + after) == RequiredPrivileges(table, verb, path)
  {
    OuterSlashes(before, path, after);
    OuterSlashes("", path, "");
    assert "" + path + "" == path;
    if table == [] {
    } else {
      SlashesAroundTemplates(table[1..], verb, before, path, after);
    }
  }

  lemma CaseDoesNotMatter(verb: string, i: nat)
    requires i < |verb|
    ensures |Upper(verb)| == |verb| && Upper(Upper(verb)) == Upper(verb)
    ensures 'a' <= verb[i] <= 'z' ==> 'A' <= Upper(verb)[i] <= 'Z' && Upper(verb)[i] - 'A' == verb[i] - 'a'
    ensures !('a' <= verb[i] <= 'z') ==> Upper(verb)[i] == verb[i]
  {
  }

  lemma PathIsRead(segments: seq<Segment>, values: map<string, string>)
    requires WellFormed(segments) && Fillable(segments, values)
    ensures PartsOf(CalledPath(segments, values)) == Called(segments, values)
  {
    PartsOfJoin(Called(segments, values));
  }

  lemma TemplateIsRead(segments: seq<Segment>)
    requires WellFormed(segments)
    ensures Strip(TemplateText(segments), '/') == TemplateText(segments)
    ensures Split(TemplateText(segments), '/') == Texts(segments)
  {
    assert Texts(segments)[0] == segments[0].text;
    PartsOfJoin(Texts(segments));
  }

  // ---- what a template binds -----------------------------------------------------------------------------

  lemma {:induction false} BindIffFits(segments: seq<Segment>, parts: seq<string>, items: Items)
    requires |segments| == |parts|
    ensures Bind(segments, parts, items).Some? <==> Fits(segments, parts)
  {
    if segments == [] {
    } else {
      var more := if segments[0].Slot? then Put(items, segments[0].name, parts[0]) else items;
      BindIffFits(segments[1..], parts[1..], more);
      if Fits(segments[1..], parts[1..]) && AgreesAt(segments, parts, 0) {
        forall i | 0 <= i < |parts|
          ensures AgreesAt(segments, parts, i)
        {
          assert i > 0 ==> AgreesAt(segments[1..], parts[1..], i - 1);
        }
      }
      if Fits(segments, parts) {
        assert AgreesAt(segments, parts, 0);
        forall i | 0 <= i < |parts| - 1
          ensures AgreesAt(segments[1..], parts[1..], i)
        {
          assert AgreesAt(segments, parts, i + 1);
        }
      }
    }
  }

  lemma {:induction false} PutSets(items: Items, name: string, value: string)
    requires Distinct(items)
    ensures Distinct(Put(items, name, value))
    ensures forall item :: item in Put(items, name, value) <==> item == (name, value) || (item in items && item.0 != name)
  {
    if items == [] {
    } else {
      var rest := items[1..];
      forall i, j | 0 <= i < j < |rest|
        ensures rest[i].0 != rest[j].0
      {
        assert rest[i] == items[i + 1] && rest[j] == items[j + 1];
      }
      PutSets(rest, name, value);
      var put := Put(items, name, value);
      assert items == [items[0]] + rest;
      forall i, j | 0 <= i < j < |put|
        ensures put[i].0 != put[j].0
      {
        if items[0].0 == name {
          assert put[j] == items[j];
        } else if i == 0 {
          assert put[j] in Put(rest, name, value);
        }
      }
    }
  }

  predicate IsSlot(segment: Segment, name: string) {
    segment.Slot? && segment.name == name
  }

  /** What the path says is bound whatever else was given under that name, and what was given under other
      names stays. */
  lemma {:induction false} PathIsBound(segments: seq<Segment>, parts: seq<string>, items: Items, name: string)
    requires |segments| == |parts| && Distinct(items) && Bind(segments, parts, items).Some?
    ensures var bound := Bind(segments, parts, items).value;
      && Distinct(bound)
      && (forall i :: 0 <= i < |segments| && IsSlot(segments[i], name)
            && (forall j :: i < j < |segments| ==> !IsSlot(segments[j], name))
            ==> (name, parts[i]) in bound)
      && ((forall i :: 0 <= i < |segments| ==> !IsSlot(segments[i], name)) ==>
            forall value: string :: (name, value) in bound <==> (name, value) in items)
  {
    if segments == [] {
    } else {
      var more := if segments[0].Slot? then Put(items, segments[0].name, parts[0]) else items;
      if segments[0].Slot? {
        PutSets(items, segments[0].name, parts[0]);
      }
      PathIsBound(segments[1..], parts[1..], more, name);
      assert forall i :: 0 < i < |segments| ==> segments[i] == segments[1..][i - 1] && parts[i] == parts[1..][i - 1];
    }
  }

  /** On a called path a template binds its own placeholders, to the values they were filled with. */
  lemma {:induction false} BindReadsBack(segments: seq<Segment>, values: map<string, string>, items: Items)
    requires forall s :: s in segments && s.Slot? ==> s.name in values
    requires Distinct(items) && forall item :: item in items ==> item.0 in values && item.1 == values[item.0]
    ensures var bound := Bind(segments, Called(segments, values), items);
      && bound.Some? && Distinct(bound.value)
      && (forall item :: item in bound.value ==> item.0 in values && item.1 == values[item.0])
      && (forall item :: item in items ==> item in bound.value)
      && (forall s :: s in segments && s.Slot? ==> (s.name, values[s.name]) in bound.value)
  {
    if segments == [] {
    } else {
      var parts := Called(segments, values);
      assert parts[1..] == Called(segments[1..], values);
      assert segments == [segments[0]] + segments[1..];
      match segments[0] {
        case Slot(name) =>
          PutSets(items, name, parts[0]);
          BindReadsBack(segments[1..], values, Put(items, name, parts[0]));
          assert (name, values[name]) in Put(items, name, parts[0]);
        case Lit(_) => BindReadsBack(segments[1..], values, items);
      }
    }
  }
}
