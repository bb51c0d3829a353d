/** ACL inheritance as the client answers it: a path, its parent, and the root. */
module Permissions {
  import opened Strings

  type Acl = map<string, set<string>>

  /** The compiled answer: the privileges with value 1, and no empty entries. */
  function FromApi(data: map<string, map<string, int>>): Acl {
    map path | path in data && Allowed(data[path]) != {} :: Allowed(data[path])
  }

  /** `from_api_response`. */
  method Compile(data: map<string, map<string, int>>) returns (compiled: Acl)
    ensures compiled == FromApi(data)
  {
    compiled := map[];
    var left := data.Keys;
    while left != {}
      invariant left <= data.Keys
      invariant compiled == map path | path in data.Keys - left && Allowed(data[path]) != {} :: Allowed(data[path])
    {
      var path :| path in left;
      var allowed := Allowed(data[path]);
      if allowed != {} {
        compiled := compiled[path := allowed];
      }
      left := left - {path};
    }
  }

  function Allowed(privileges: map<string, int>): set<string> {
    set p | p in privileges && privileges[p] == 1
  }

  predicate Grants(acl: Acl, path: string, privilege: string) {
    path in acl && privilege in acl[path]
  }

  predicate Stated(data: map<string, map<string, int>>, path: string, privilege: string) {
    path in data && privilege in data[path] && data[path][privilege] == 1
  }

  /** Compiling the answer keeps what it grants. */
  lemma CompiledGrants(data: map<string, map<string, int>>, path: string, privilege: string)
    ensures Grants(FromApi(data), path, privilege) <==> Stated(data, path, privilege)
  {
    if Stated(data, path, privilege) {
      assert privilege in Allowed(data[path]);
    }
  }

  /** `path.rpartition("/")[0]`: what stands before the last slash. */
  function Parent(path: string): string {
    if path == "" then ""
    else if path[|path| - 1] == '/' then path[..|path| - 1]
    else Parent(path[..|path| - 1])
  }

  /** `has_permission`. */
  method HasPermission(acl: Acl, path: string, privilege: string) returns (has: bool)
    ensures has <==> Has(acl, path, privilege)
  {
    var paths := [path, Parent(path), "/"];
    for i := 0 to |paths|
      invariant forall k :: 0 <= k < i ==> !Grants(acl, paths[k], privilege)
    {
      if paths[i] in acl && acl[paths[i]] != {} && privilege in acl[paths[i]] {
        assert Grants(acl, paths[i], privilege);
        return true;
      }
    }
    assert !Grants(acl, paths[0], privilege) && !Grants(acl, paths[1], privilege) && !Grants(acl, paths[2], privilege);
    return false;
  }

  predicate Has(acl: Acl, path: string, privilege: string) {
    Grants(acl, path, privilege) || Grants(acl, Parent(path), privilege) || Grants(acl, "/", privilege)
  }

  // ---- inheritance ---------------------------------------------------------------------------------------

  /** `/a/b/...` with the given parts. */
  function Path(parts: seq<string>): string {
    if parts == [] then "" else Path(parts[..|parts| - 1]) + "/" + parts[|parts| - 1]
  }

  /** Inheritance as it is meant: the path, any of its ancestors, or the root. */
  predicate Inherits(acl: Acl, parts: seq<string>, privilege: string) {
    Grants(acl, "/", privilege) || exists n :: 1 <= n <= |parts| && Grants(acl, Path(parts[..n]), privilege)
  }

  lemma {:induction false} ParentDropsPart(front: string, part: string)
    requires Without(part, '/')
    ensures Parent(front + "/" + part) == front
  {
    var path := front + "/" + part;
    if part == "" {
      assert path[..|path| - 1] == front;
    } else {
      ParentDropsPart(front, part[..|part| - 1]);
      assert path[..|path| - 1] == front + "/" + part[..|part| - 1];
      assert path[|path| - 1] == part[|part| - 1] && part[|part| - 1] in part;
    }
  }

  lemma {:induction false} PathsDiffer(parts: seq<string>, m: nat, n: nat)
    requires m < n <= |parts|
    ensures |Path(parts[..m])| < |Path(parts[..n])|
    decreases n
  {
    assert parts[..n][..n - 1] == parts[..n - 1];
    if m == n - 1 {
    } else {
      PathsDiffer(parts, m, n - 1);
    }
  }

  /** For every path of at most two parts - a guest, a node, a storage - the client's answer is full
      inheritance, in every list without an entry for the empty path. */
  lemma ShortPathsInherit(acl: Acl, parts: seq<string>, privilege: string)
    requires 1 <= |parts| <= 2 && forall p :: p in parts ==> IsWord(p)
    requires "" !in acl
    ensures Has(acl, Path(parts), privilege) <==> Inherits(acl, parts, privilege)
  {
    var n := |parts|;
    LastPart(parts);
    assert parts[..n] == parts;
    if n == 1 {
      assert Parent(Path(parts)) == "";
    } else {
      assert Parent(Path(parts)) == Path(parts[..1]);
    }
  }

  /** For every longer path it is not: a grant on the topmost part is inherited and not seen. */
  lemma LongPathsMissAnAncestor(parts: seq<string>, privilege: string)
    requires |parts| >= 3 && forall p :: p in parts ==> IsWord(p)
    ensures var acl: Acl := map[Path(parts[..1]) := {privilege}];
      "" !in acl && Inherits(acl, parts, privilege) && !Has(acl, Path(parts), privilege)
  {
    var n := |parts|;
    assert parts[0] in parts;
    OnePart(parts);
    LastPart(parts);
    PathsDiffer(parts, 1, n - 1);
    PathsDiffer(parts, n - 1, n);
    assert parts[..n] == parts;
    NotSeen(Path(parts[..1]), Path(parts), privilege);
    GrantedAbove(map[Path(parts[..1]) := {privilege}], parts, 1, privilege);
  }

  lemma NotSeen(top: string, path: string, privilege: string)
    requires top != path && top != Parent(path) && top != "/"
    ensures !Has(map[top := {privilege}], path, privilege)
  {
  }

  lemma GrantedAbove(acl: Acl, parts: seq<string>, n: nat, privilege: string)
    requires 1 <= n <= |parts| && Grants(acl, Path(parts[..n]), privilege)
    ensures Inherits(acl, parts, privilege)
  {
  }

  lemma LastPart(parts: seq<string>)
    requires |parts| > 0 && forall p :: p in parts ==> IsWord(p)
    ensures Parent(Path(parts)) == Path(parts[..|parts| - 1])
  {
    assert parts[|parts| - 1] in parts;
    ParentDropsPart(Path(parts[..|parts| - 1]), parts[|parts| - 1]);
  }

  lemma OnePart(parts: seq<string>)
    requires |parts| > 0 && IsWord(parts[0])
    ensures |Path(parts[..1])| >= 2
  {
    var one := parts[..1];
    assert one[..0] == [] && one[0] == parts[0];
    assert Path(one) == "" + "/" + parts[0];
  }
}
