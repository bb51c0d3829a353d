/** Flattening the checks of the API schema: a tree of permission checks becomes the list of ways to
    satisfy it, and says the same. */
module CheckTree {
  import opened PrivilegeTable

  /** What may follow the privileges of a `perm` check. */
  datatype Extra = AnyFlag | Number(value: int) | Word(text: string)

  /** A check as the schema writes it: a list whose first element says what it is. */
  datatype Check =
    | Empty
    | Perm(path: string, privileges: seq<string>, extras: seq<Extra>)
    | Or(parts: seq<Check>)
    | Unknown(kind: string, rest: seq<Check>)

  datatype Result = Ok(found: seq<Privileges>) | UnsupportedCheck

  /** `alternatives`. */
  function Alternatives(check: Check): Result
    decreases check, 0
  {
    match check
    case Empty => UnsupportedCheck
    case Perm(path, privileges, extras) => Ok([Privileges(path, privileges, AnyFlag in extras)])
    case Or(parts) => AllParts(parts)
    case Unknown(_, _) => UnsupportedCheck
  }

  function AllParts(parts: seq<Check>): Result
    decreases parts, 1
  {
    if parts == [] then Ok([])
    else
      var init, last := AllParts(parts[..|parts| - 1]), Alternatives(parts[|parts| - 1]);
      if init.Ok? && last.Ok? then Ok(init.found + last.found) else UnsupportedCheck
  }

  /** The recursion with its accumulator. */
  method FindAlternatives(check: Check) returns (result: Result)
    ensures result == Alternatives(check)
    decreases check
  {
    match check {
      case Empty => return UnsupportedCheck;
      case Unknown(_, _) => return UnsupportedCheck;
      case Perm(path, privileges, extras) => return Ok([Privileges(path, privileges, AnyFlag in extras)]);
      case Or(parts) =>
        var found := [];
        for i := 0 to |parts|
          invariant AllParts(parts[..i]) == Ok(found)
        {
          var more := FindAlternatives(parts[i]);
          assert parts[..i + 1][..i] == parts[..i];
          if more.UnsupportedCheck? {
            FailureSticks(parts, i + 1);
            return UnsupportedCheck;
          }
          found := found + more.found;
        }
        assert parts[..|parts|] == parts;
        return Ok(found);
    }
  }

  lemma {:induction false} FailureSticks(parts: seq<Check>, i: nat)
    requires i <= |parts| && AllParts(parts[..i]).UnsupportedCheck?
    ensures AllParts(parts).UnsupportedCheck?
    decreases |parts| - i
  {
    if i == |parts| {
      assert parts[..i] == parts;
    } else {
      assert parts[..i + 1][..i] == parts[..i];
      FailureSticks(parts, i + 1);
    }
  }

  // ---- what a check means ----------------------------------------------------------------------------------

  /** An access control list: which privileges are held on which path. */
  type Acl = set<(string, string)>

  predicate Holds(check: Check, acl: Acl)
    decreases check
  {
    match check
    case Perm(path, privileges, extras) =>
      if AnyFlag in extras then exists i :: 0 <= i < |privileges| && (path, privileges[i]) in acl
      else forall i :: 0 <= i < |privileges| ==> (path, privileges[i]) in acl
    case Or(parts) => exists i :: 0 <= i < |parts| && Holds(parts[i], acl)
    case _ => false
  }

  predicate Satisfies(way: Privileges, acl: Acl) {
    if way.anyOf then exists i :: 0 <= i < |way.privileges| && (way.path, way.privileges[i]) in acl
    else forall i :: 0 <= i < |way.privileges| ==> (way.path, way.privileges[i]) in acl
  }

  predicate SomeWay(ways: seq<Privileges>, acl: Acl) {
    exists i :: 0 <= i < |ways| && Satisfies(ways[i], acl)
  }

  lemma SomeWayAppend(a: seq<Privileges>, b: seq<Privileges>, acl: Acl)
    ensures SomeWay(a + b, acl) <==> SomeWay(a, acl) || SomeWay(b, acl)
  {
    if SomeWay(a, acl) {
      var i :| 0 <= i < |a| && Satisfies(a[i], acl);
      assert (a + b)[i] == a[i];
    }
    if SomeWay(b, acl) {
      var i :| 0 <= i < |b| && Satisfies(b[i], acl);
      assert (a + b)[|a| + i] == b[i];
    }
  }

  /** Flattening keeps the meaning: a check holds exactly if one of its alternatives is satisfied. */
  lemma {:induction false} FlatteningKeepsMeaning(check: Check, acl: Acl)
    requires Alternatives(check).Ok?
    ensures Holds(check, acl) <==> SomeWay(Alternatives(check).found, acl)
    decreases check, 0
  {
    match check {
      case Perm(path, privileges, extras) =>
        var way := Privileges(path, privileges, AnyFlag in extras);
        assert Alternatives(check).found == [way] && [way][0] == way;
      case Or(parts) => PartsKeepMeaning(parts, acl);
    }
  }

  lemma {:induction false} PartsKeepMeaning(parts: seq<Check>, acl: Acl)
    requires AllParts(parts).Ok?
    ensures (exists i :: 0 <= i < |parts| && Holds(parts[i], acl)) <==> SomeWay(AllParts(parts).found, acl)
    decreases parts, 1
  {
    if parts == [] {
    } else {
      var n := |parts| - 1;
      PartsKeepMeaning(parts[..n], acl);
      FlatteningKeepsMeaning(parts[n], acl);
      SomeWayAppend(AllParts(parts[..n]).found, Alternatives(parts[n]).found, acl);
      assert (exists i :: 0 <= i < n && Holds(parts[..n][i], acl)) <==> (exists i :: 0 <= i < n && Holds(parts[i], acl));
    }
  }

  // ---- what it is made of --------------------------------------------------------------------------------------

  /** Every node of the tree, a node before its parts and the parts in order. */
  function Nodes(check: Check): seq<Check>
    decreases check, 0
  {
    [check] + if check.Or? then NodesOf(check.parts) else []
  }

  function NodesOf(parts: seq<Check>): seq<Check>
    decreases parts, 1
  {
    if parts == [] then [] else NodesOf(parts[..|parts| - 1]) + Nodes(parts[|parts| - 1])
  }

  /** The leaves among some nodes, each read as one alternative. */
  function Leaves(nodes: seq<Check>): seq<Privileges> {
    if nodes == [] then []
    else
      Leaves(nodes[..|nodes| - 1]) +
      var last := nodes[|nodes| - 1];
      if last.Perm? then [Privileges(last.path, last.privileges, AnyFlag in last.extras)] else []
  }

  predicate Supported(nodes: seq<Check>) {
    forall i :: 0 <= i < |nodes| ==> nodes[i].Perm? || nodes[i].Or?
  }

  lemma {:induction false} LeavesAppend(a: seq<Check>, b: seq<Check>)
    ensures Leaves(a + b) == Leaves(a) + Leaves(b)
  {
    if b == [] {
      assert a + b == a;
    } else {
      assert (a + b)[..|a + b| - 1] == a + b[..|b| - 1];
      LeavesAppend(a, b[..|b| - 1]);
    }
  }

  /** The alternatives are the leaves of the tree, each once and in its order; the check is refused
      exactly if some node of it is empty or of another kind. */
  lemma {:induction false} AlternativesAreLeaves(check: Check)
    ensures Alternatives(check).Ok? <==> Supported(Nodes(check))
    ensures Alternatives(check).Ok? ==> Alternatives(check).found == Leaves(Nodes(check))
    decreases check, 0
  {
    LeavesAppend([check], if check.Or? then NodesOf(check.parts) else []);
    assert Nodes(check)[0] == check;
    match check {
      case Or(parts) =>
        PartsAreLeaves(parts);
        assert Leaves([check]) == [];
        assert Nodes(check)[1..] == NodesOf(parts);
        assert Supported(Nodes(check)) ==> Supported(Nodes(check)[1..]);
      case Perm(path, privileges, extras) =>
        assert Leaves([check]) == [] + [Privileges(path, privileges, AnyFlag in extras)];
      case _ =>
    }
  }

  lemma {:induction false} PartsAreLeaves(parts: seq<Check>)
    ensures AllParts(parts).Ok? <==> Supported(NodesOf(parts))
    ensures AllParts(parts).Ok? ==> AllParts(parts).found == Leaves(NodesOf(parts))
    decreases parts, 1
  {
    if parts == [] {
    } else {
      var n := |parts| - 1;
      var init, last := NodesOf(parts[..n]), Nodes(parts[n]);
      PartsAreLeaves(parts[..n]);
      AlternativesAreLeaves(parts[n]);
      LeavesAppend(init, last);
      SupportedAppend(init, last);
    }
  }

  lemma SupportedAppend(a: seq<Check>, b: seq<Check>)
    ensures Supported(a + b) <==> Supported(a) && Supported(b)
  {
    if Supported(a + b) {
      forall i | 0 <= i < |a|
        ensures a[i].Perm? || a[i].Or?
      {
        assert (a + b)[i] == a[i];
      }
      forall i | 0 <= i < |b|
        ensures b[i].Perm? || b[i].Or?
      {
        assert (a + b)[|a| + i] == b[i];
      }
    }
  }

  /** No `or` is left without parts. */
  predicate NoEmptyOr(nodes: seq<Check>) {
    forall i :: 0 <= i < |nodes| && nodes[i].Or? ==> nodes[i].parts != []
  }

  /** A check whose `or` nodes have parts never flattens to nothing, which the lookup would take for
      "no check stated". */
  lemma {:induction false} NeverReadAsNoCheck(check: Check)
    requires Alternatives(check).Ok? && NoEmptyOr(Nodes(check))
    ensures Alternatives(check).found != []
    decreases check
  {
    match check {
      case Perm(_, _, _) =>
      case Or(parts) =>
        var n := |parts| - 1;
        assert Nodes(check)[0] == check;
        var nodes := Nodes(check);
        assert nodes[|nodes| - |Nodes(parts[n])|..] == Nodes(parts[n]);
        NeverReadAsNoCheck(parts[n]);
    }
  }
}
