/** Both lookups agree: a path as it is called and its template name the same check, whatever the
    order of the table. */
module PrivilegeRoundTrip {
  import opened Wrappers
  import opened Strings
  import opened Substitution
  import opened PrivilegeTable
  import opened Privileges

  ghost predicate IsRow(row: Row) {
    exists k: nat :: k < ROWS && Checks(k) == row
  }

  /** A table with the rows of `CHECKS`, in any order. */
  ghost predicate IsTable(table: seq<Row>) {
    forall row :: row in table <==> IsRow(row)
  }

  // ---- the rows ----------------------------------------------------------------------------------------

  predicate Names(segments: seq<Segment>, name: string) {
    exists i :: 0 <= i < |segments| && segments[i].Slot? && segments[i].name == name
  }

  /** An ACL path of a row: its placeholders are placeholders of the template. */
  ghost predicate AclOk(path: string, segments: seq<Segment>) {
    exists tokens: seq<Token> :: Clean(tokens) && Text(tokens) == path && OwnHoles(tokens, segments)
  }

  predicate OwnHoles(tokens: seq<Token>, segments: seq<Segment>) {
    forall i :: 0 <= i < |tokens| && tokens[i].Hole? ==> Names(segments, tokens[i].name)
  }

  ghost predicate RowOk(row: Row) {
    && WellFormed(row.segments)
    && row.entry != []
    && forall i :: 0 <= i < |row.entry| ==> AclOk(row.entry[i].path, row.segments)
  }

  lemma RootIsOk(segments: seq<Segment>)
    ensures AclOk(ROOT_PATH, segments)
  {
    assert Text([Chr('/')]) == ROOT_PATH;
    assert Clean([Chr('/')]) && OwnHoles([Chr('/')], segments);
  }

  lemma HeadedPathIsOk(head: string, name: Word, segments: seq<Segment>)
    requires NoBrace(head) && Names(segments, name)
    ensures AclOk(head + Braced(name), segments)
  {
    var tokens := Chars(head) + [Hole(name)];
    TextOfChars(head, [Hole(name)]);
    assert Text([Hole(name)]) == Braced(name);
    forall i | 0 <= i < |head|
      ensures NoBrace([head[i]])
    {
      assert head[i] in head;
    }
    assert Clean(tokens) && OwnHoles(tokens, segments) && Text(tokens) == head + Braced(name);
  }

  lemma NodePathIsOk(segments: seq<Segment>)
    requires Names(segments, NODE_ID)
    ensures AclOk(NODE_PATH, segments)
  {
    assert NODE_PATH == "/nodes/" + Braced(NODE_ID);
    HeadedPathIsOk("/nodes/", NODE_ID, segments);
  }

  lemma VmPathIsOk(segments: seq<Segment>)
    requires Names(segments, VMID)
    ensures AclOk(VM_PATH, segments)
  {
    assert VM_PATH == "/vms/" + Braced(VMID);
    HeadedPathIsOk("/vms/", VMID, segments);
  }

  lemma ClusterRowIsOk(row: Row)
    requires WellFormed(row.segments) && |row.entry| == 1 && row.entry[0].path == ROOT_PATH
    ensures RowOk(row)
  {
    RootIsOk(row.segments);
  }

  lemma NodeRowIsOk(row: Row)
    requires WellFormed(row.segments) && |row.segments| > 1 && row.segments[1] == Slot(NODE_ID)
    requires 1 <= |row.entry| <= 2
    requires row.entry[0].path == ROOT_PATH || row.entry[0].path == NODE_PATH
    requires |row.entry| == 2 ==> row.entry[1].path == NODE_PATH
    ensures RowOk(row)
  {
    RootIsOk(row.segments);
    NodePathIsOk(row.segments);
  }

  lemma GuestRowIsOk(row: Row)
    requires WellFormed(row.segments) && |row.segments| > 3 && row.segments[3] == Slot(VMID)
    requires |row.entry| == 1 && row.entry[0].path == VM_PATH
    ensures RowOk(row)
  {
    VmPathIsOk(row.segments);
  }

  lemma ReadRowsAreOk(k: nat)
    requires k < 16
    ensures RowOk(Checks(k))
  {
    if k <= 3 {
      ClusterRowIsOk(Checks(k));
    } else if k <= 7 || k == 15 {
      NodeRowIsOk(Checks(k));
    } else {
      GuestRowIsOk(Checks(k));
    }
  }

  lemma CommandRowsAreOk(k: nat)
    requires 16 <= k < 26
    ensures RowOk(Checks(k))
  {
    if k <= 17 {
      ClusterRowIsOk(Checks(k));
    } else {
      GuestRowIsOk(Checks(k));
    }
  }

  lemma LastRowsAreOk(k: nat)
    requires 34 <= k < ROWS
    ensures RowOk(Checks(k))
  {
    if k <= 35 {
      NodeRowIsOk(Checks(k));
    } else {
      GuestRowIsOk(Checks(k));
    }
  }

  lemma QemuRowsAreOk(k: nat)
    requires 26 <= k < 34
    ensures RowOk(Checks(k))
  {
    GuestRowIsOk(Checks(k));
  }

  lemma TableRowIsOk(row: Row)
    requires IsRow(row)
    ensures RowOk(row)
  {
    var k: nat :| k < ROWS && Checks(k) == row;
    if k < 16 {
      ReadRowsAreOk(k);
    } else if 26 <= k < 34 {
      QemuRowsAreOk(k);
    } else if k < 26 {
      CommandRowsAreOk(k);
    } else {
      LastRowsAreOk(k);
    }
  }

  // ---- the lookup by path ----------------------------------------------------------------------------------

  /** If only one row of a table can fit, the lookup finds it wherever it stands. */
  lemma {:induction false} LookupFinds(table: seq<Row>, verb: string, parts: seq<string>, values: Items, row: Row)
    requires row in table && row.verb == verb && Fits(row.segments, parts)
    requires forall other :: other in table && other.verb == verb && Fits(other.segments, parts) ==> other == row
    ensures |row.segments| == |parts| && Bind(row.segments, parts, values).Some?
    ensures Lookup(table, verb, parts, values) == Some(Substitute(row.entry, Bind(row.segments, parts, values).value))
  {
    BindIffFits(row.segments, parts, values);
    var first := table[0];
    assert first in table && table == [first] + table[1..];
    if first.verb == verb && |first.segments| == |parts| {
      BindIffFits(first.segments, parts, values);
    }
    if first == row {
    } else {
      LookupFinds(table[1..], verb, parts, values, row);
    }
  }

  lemma {:induction false} LookupMisses(table: seq<Row>, verb: string, parts: seq<string>, values: Items)
    requires forall row :: row in table && row.verb == verb ==> !Fits(row.segments, parts)
    ensures Lookup(table, verb, parts, values) == None
  {
    if table == [] {
    } else {
      assert table == [table[0]] + table[1..];
      if |table[0].segments| == |parts| {
        BindIffFits(table[0].segments, parts, values);
      }
      LookupMisses(table[1..], verb, parts, values);
    }
  }

  lemma OnlyRow(row: Row, other: Row, parts: seq<string>)
    requires IsRow(row) && IsRow(other) && row.verb == other.verb
    requires Fits(row.segments, parts) && Fits(other.segments, parts)
    ensures row == other
  {
    var k: nat :| k < ROWS && Checks(k) == row;
    var l: nat :| l < ROWS && Checks(l) == other;
    AtMostOneRowFits(k, l, parts);
  }

  /** The first match does not depend on the order of the table: every order of the rows of `CHECKS`
      gives the same answer to every question. */
  lemma TableOrderDoesNotMatter(table: seq<Row>, other: seq<Row>, verb: string, parts: seq<string>, values: Items)
    requires IsTable(table) && IsTable(other)
    ensures Lookup(table, verb, parts, values) == Lookup(other, verb, parts, values)
  {
    if row: Row :| row in table && row.verb == verb && Fits(row.segments, parts) {
      forall another | another in table && another.verb == verb && Fits(another.segments, parts)
        ensures another == row
      {
        OnlyRow(row, another, parts);
      }
      LookupFinds(table, verb, parts, values, row);
      LookupFinds(other, verb, parts, values, row);
    } else {
      LookupMisses(table, verb, parts, values);
      LookupMisses(other, verb, parts, values);
    }
  }

  // ---- the lookup by template --------------------------------------------------------------------------------

  /** A template read back from its text: words and placeholders cannot be taken for each other. */
  lemma TextsTellSegments(a: seq<Segment>, b: seq<Segment>)
    requires WellFormed(a) && WellFormed(b) && TemplateText(a) == TemplateText(b)
    ensures a == b
  {
    TemplateIsRead(a);
    TemplateIsRead(b);
    assert Texts(a) == Texts(b);
    forall i | 0 <= i < |a|
      ensures a[i] == b[i]
    {
      assert Texts(a)[i] == SegmentText(a[i]) == SegmentText(b[i]);
      SegmentTextTells(a[i], b[i]);
    }
  }

  lemma SegmentTextTells(a: Segment, b: Segment)
    requires SegmentText(a) == SegmentText(b)
    ensures a == b
  {
    if a.Slot? && b.Slot? {
      assert Braced(a.name)[1..1 + |a.name|] == a.name && Braced(b.name)[1..1 + |b.name|] == b.name;
    }
  }

  lemma CalledFits(segments: seq<Segment>, values: map<string, string>)
    requires forall s :: s in segments && s.Slot? ==> s.name in values
    ensures Fits(segments, Called(segments, values))
  {
  }

  lemma {:induction false} RequiredFinds(table: seq<Row>, verb: string, row: Row)
    requires row in table && row.verb == Upper(verb) && row.entry != []
    requires Strip(TemplateText(row.segments), '/') == TemplateText(row.segments)
    requires forall other :: other in table && other.verb == row.verb && TemplateText(other.segments) == TemplateText(row.segments)
               ==> other == row
    ensures RequiredPrivileges(table, verb, TemplateText(row.segments)) == Some(row.entry)
  {
    var first := table[0];
    assert first in table && table == [first] + table[1..];
    if first == row {
    } else {
      RequiredFinds(table[1..], verb, row);
    }
  }

  /** By its template, every row of the table is found. */
  lemma TemplateIsFound(table: seq<Row>, row: Row, verb: string)
    requires IsTable(table) && IsRow(row) && row.verb == Upper(verb)
    ensures RequiredPrivileges(table, verb, TemplateText(row.segments)) == Some(row.entry)
  {
    TableRowIsOk(row);
    TemplateIsRead(row.segments);
    forall other | other in table && other.verb == row.verb && TemplateText(other.segments) == TemplateText(row.segments)
      ensures other == row
    {
      TableRowIsOk(other);
      TextsTellSegments(row.segments, other.segments);
      assert Fits(row.segments, Texts(row.segments));
      OnlyRow(row, other, Texts(row.segments));
    }
    RequiredFinds(table, verb, row);
  }

  // ---- both lookups ---------------------------------------------------------------------------------------------

  lemma {:induction false} FillAgrees(tokens: seq<Token>, some: map<string, string>, all: map<string, string>)
    requires forall i :: 0 <= i < |tokens| && tokens[i].Hole? ==>
               tokens[i].name in some && tokens[i].name in all && some[tokens[i].name] == all[tokens[i].name]
    ensures Fill(tokens, some) == Fill(tokens, all)
  {
    if tokens == [] {
    } else {
      FillAgrees(tokens[1..], some, all);
    }
  }

  lemma ToMapHolds(items: Items, item: (string, string))
    requires Distinct(items) && item in items
    ensures item.0 in ToMap(items) && ToMap(items)[item.0] == item.1
  {
    ToMapKeys(items);
    var i :| 0 <= i < |items| && items[i] == item;
  }

  /** Names and values of one quiet list, in whatever order and number, are harmless. */
  lemma PartIsHarmless(items: Items, part: Items)
    requires Distinct(items) && Quiet(items) && Distinct(part)
    requires forall name :: name in ToMap(items) ==> NoBrace(name)
    requires forall item :: item in part ==> item.0 in ToMap(items) && item.1 == ToMap(items)[item.0]
    ensures PlainNames(part) && Harmless(part)
  {
    ToMapKeys(items);
    forall item | item in part
      ensures item in items && NoBrace(item.0)
    {
      var i :| 0 <= i < |items| && items[i].0 == item.0;
      assert items[i] == item;
    }
    QuietIsHarmless(part);
    forall i | 0 <= i < |part|
      ensures NoBrace(part[i].0)
    {
      assert part[i] in part;
    }
  }

  lemma ItemsAreTheirs(items: Items)
    requires Distinct(items)
    ensures forall item :: item in items ==> item.0 in ToMap(items) && item.1 == ToMap(items)[item.0]
  {
    forall item | item in items
      ensures item.0 in ToMap(items) && item.1 == ToMap(items)[item.0]
    {
      ToMapHolds(items, item);
    }
  }

  /** The placeholders of an ACL path are among those the template bound. */
  lemma HolesAreBound(tokens: seq<Token>, segments: seq<Segment>, values: map<string, string>, bound: Items)
    requires OwnHoles(tokens, segments) && Distinct(bound)
    requires forall s :: s in segments && s.Slot? ==> s.name in values && (s.name, values[s.name]) in bound
    ensures forall i :: 0 <= i < |tokens| && tokens[i].Hole? ==>
              tokens[i].name in ToMap(bound) && tokens[i].name in values && ToMap(bound)[tokens[i].name] == values[tokens[i].name]
  {
    forall i | 0 <= i < |tokens| && tokens[i].Hole?
      ensures tokens[i].name in ToMap(bound) && tokens[i].name in values && ToMap(bound)[tokens[i].name] == values[tokens[i].name]
    {
      var j :| 0 <= j < |segments| && segments[j].Slot? && segments[j].name == tokens[i].name;
      assert segments[j] in segments;
      ToMapHolds(bound, (tokens[i].name, values[tokens[i].name]));
    }
  }

  /** One ACL path, filled from what the template bound or from the values themselves. */
  lemma AclPathAgrees(path: string, segments: seq<Segment>, values: map<string, string>, bound: Items, items: Items)
    requires AclOk(path, segments) && Fillable(segments, values)
    requires Distinct(items) && ToMap(items) == values && Quiet(items)
    requires Distinct(bound) && forall item :: item in bound ==> item.0 in values && item.1 == values[item.0]
    requires forall s :: s in segments && s.Slot? ==> (s.name, values[s.name]) in bound
    ensures Substituted(path, bound) == Substituted(path, items)
  {
    var tokens: seq<Token> :| Clean(tokens) && Text(tokens) == path && OwnHoles(tokens, segments);
    HolesAreBound(tokens, segments, values, bound);
    FillAgrees(tokens, ToMap(bound), values);
    ItemsAreTheirs(items);
    PartIsHarmless(items, items);
    PartIsHarmless(items, bound);
    SequentialIsSimultaneous(tokens, bound);
    SequentialIsSimultaneous(tokens, items);
  }

  /** A check is that of a row with the values filled in: alternative by alternative, on the row's ACL path
      with its holes filled all at once, and with the demands of the row. */
  ghost predicate IsFilled(check: Check, entry: Check, values: map<string, string>) {
    && |check| == |entry|
    && forall i :: 0 <= i < |entry| ==>
         && check[i].privileges == entry[i].privileges && check[i].anyOf == entry[i].anyOf
         && IsFilledPath(check[i].path, entry[i].path, values)
  }

  ghost predicate IsFilledPath(filled: string, path: string, values: map<string, string>) {
    exists tokens: seq<Token> :: Clean(tokens) && Text(tokens) == path && filled == Text(Fill(tokens, values))
  }

  lemma EntryIsFilled(row: Row, values: map<string, string>, items: Items)
    requires RowOk(row) && Fillable(row.segments, values)
    requires Distinct(items) && ToMap(items) == values && Quiet(items)
    ensures IsFilled(Substitute(row.entry, items), row.entry, values)
  {
    ItemsAreTheirs(items);
    PartIsHarmless(items, items);
    forall i | 0 <= i < |row.entry|
      ensures IsFilledPath(Substituted(row.entry[i].path, items), row.entry[i].path, values)
    {
      var tokens: seq<Token> :| Clean(tokens) && Text(tokens) == row.entry[i].path && OwnHoles(tokens, row.segments);
      SequentialIsSimultaneous(tokens, items);
    }
  }

  /** The path as it is called and the template with the same values filled in say the same: for every
      row, and for all values free of slashes that open no placeholder, in any order. */
  lemma BothLookupsAgree(table: seq<Row>, row: Row, verb: string, values: map<string, string>, items: Items)
    requires IsTable(table) && IsRow(row) && row.verb == Upper(verb) && Fillable(row.segments, values)
    requires Distinct(items) && ToMap(items) == values && Quiet(items)
    ensures var path := CalledPath(row.segments, values);
      var required := RequiredPrivileges(table, verb, TemplateText(row.segments));
      && required == Some(row.entry)
      && Lookup(table, Upper(verb), PartsOf(path), []) == Some(Substitute(required.value, items))
      && IsFilled(Substitute(required.value, items), row.entry, values)
  {
    TableRowIsOk(row);
    var parts := Called(row.segments, values);
    PathIsRead(row.segments, values);
    TemplateIsFound(table, row, verb);
    CalledFits(row.segments, values);
    forall other | other in table && other.verb == row.verb && Fits(other.segments, parts)
      ensures other == row
    {
      OnlyRow(row, other, parts);
    }
    LookupFinds(table, row.verb, parts, [], row);
    BindReadsBack(row.segments, values, []);
    var bound := Bind(row.segments, parts, []).value;
    forall i | 0 <= i < |row.entry|
      ensures Substituted(row.entry[i].path, bound) == Substituted(row.entry[i].path, items)
    {
      AclPathAgrees(row.entry[i].path, row.segments, values, bound, items);
    }
    assert Substitute(row.entry, bound) == Substitute(row.entry, items);
    EntryIsFilled(row, values, items);
  }
}
