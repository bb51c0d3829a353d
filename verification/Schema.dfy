/** Flattening the API tree: every path and method of the tree, once, with its own entry. */
module Schema {
  import opened Wrappers
  import opened Sums

  /** What the schema says of one method; names are kept as the set that is written out sorted. */
  datatype Info = Info(properties: set<string>, check: Option<string>)

  datatype Entry = Entry(parameters: set<string>, check: Option<string>)

  datatype Node = Node(path: string, info: seq<(string, Info)>, children: seq<Node>)

  type Methods = map<string, Entry>
  type Routes = map<string, Methods>

  function EntryOf(info: Info): Entry {
    Entry(info.properties, info.check)
  }

  /** `routes.setdefault(path, {})[method] = entry`. */
  function Put(routes: Routes, path: string, verb: string, entry: Entry): Routes {
    routes[path := (if path in routes then routes[path] else map[])[verb := entry]]
  }

  function PutAll(routes: Routes, path: string, info: seq<(string, Info)>): Routes {
    if info == [] then routes
    else
      var n := |info| - 1;
      Put(PutAll(routes, path, info[..n]), path, info[n].0, EntryOf(info[n].1))
  }

  /** `flatten`: the routes of the children replace whatever their paths had. */
  function Flat(nodes: seq<Node>): Routes {
    if nodes == [] then map[]
    else
      var n := |nodes| - 1;
      PutAll(Flat(nodes[..n]), nodes[n].path, nodes[n].info) + Flat(nodes[n].children)
  }

  method Flatten(nodes: seq<Node>) returns (routes: Routes)
    ensures routes == Flat(nodes)
    decreases nodes
  {
    routes := map[];
    for i := 0 to |nodes|
      invariant routes == Flat(nodes[..i])
    {
      var node := nodes[i];
      assert nodes[..i + 1][..i] == nodes[..i];
      ghost var before := routes;
      for j := 0 to |node.info|
        invariant routes == PutAll(before, node.path, node.info[..j])
      {
        assert node.info[..j + 1][..j] == node.info[..j];
        routes := Put(routes, node.path, node.info[j].0, EntryOf(node.info[j].1));
      }
      assert node.info[..|node.info|] == node.info;
      var below := Flatten(node.children);
      routes := routes + below;
    }
    assert nodes[..|nodes|] == nodes;
  }

  // ---- the tree --------------------------------------------------------------------------------------

  /** Every node of the tree, a node before its children. */
  function Tree(nodes: seq<Node>): seq<Node> {
    if nodes == [] then []
    else
      var n := |nodes| - 1;
      Tree(nodes[..n]) + [nodes[n]] + Tree(nodes[n].children)
  }

  ghost predicate DistinctPaths(nodes: seq<Node>) {
    forall i, j :: 0 <= i < j < |nodes| ==> nodes[i].path != nodes[j].path
  }

  /** `info` is a dict: every method stands in it once. */
  ghost predicate DistinctMethods(info: seq<(string, Info)>) {
    forall i, j :: 0 <= i < j < |info| ==> info[i].0 != info[j].0
  }

  function MethodsOf(info: seq<(string, Info)>): Methods {
    if info == [] then map[]
    else
      var n := |info| - 1;
      MethodsOf(info[..n])[info[n].0 := EntryOf(info[n].1)]
  }

  /** The routes a node stands for, and those of some nodes, later ones last. */
  function OwnOf(node: Node): Routes {
    if node.info == [] then map[] else map[node.path := MethodsOf(node.info)]
  }

  function Own(nodes: seq<Node>): Routes {
    if nodes == [] then map[] else Own(nodes[..|nodes| - 1]) + OwnOf(nodes[|nodes| - 1])
  }

  lemma OwnStep(nodes: seq<Node>, node: Node)
    ensures Own(nodes + [node]) == Own(nodes) + OwnOf(node)
  {
    assert (nodes + [node])[..|nodes|] == nodes;
  }

  lemma UnionAssociates(a: Routes, b: Routes, c: Routes)
    ensures (a + b) + c == a + (b + c)
  {
  }

  lemma OwnAppendStep(a: seq<Node>, init: seq<Node>, last: Node)
    requires Own(a + init) == Own(a) + Own(init)
    ensures Own(a + (init + [last])) == Own(a) + Own(init + [last])
  {
    OwnStep(a + init, last);
    OwnStep(init, last);
    assert (a + init) + [last] == a + (init + [last]);
    UnionAssociates(Own(a), Own(init), OwnOf(last));
  }

  lemma {:induction false} OwnAppend(a: seq<Node>, b: seq<Node>)
    ensures Own(a + b) == Own(a) + Own(b)
  {
    if b == [] {
      assert a + b == a;
    } else {
      var init, last := b[..|b| - 1], b[|b| - 1];
      OwnAppend(a, init);
      OwnAppendStep(a, init, last);
      assert b == init + [last];
    }
  }

  lemma {:induction false} OwnPaths(nodes: seq<Node>, path: string)
    ensures path in Own(nodes) <==> exists i :: 0 <= i < |nodes| && nodes[i].path == path && nodes[i].info != []
  {
    if nodes == [] {
    } else {
      OwnPaths(nodes[..|nodes| - 1], path);
    }
  }

  lemma {:induction false} PutAllNew(routes: Routes, path: string, info: seq<(string, Info)>)
    requires path !in routes
    ensures PutAll(routes, path, info) == if info == [] then routes else routes[path := MethodsOf(info)]
  {
    if info == [] {
    } else {
      PutAllNew(routes, path, info[..|info| - 1]);
    }
  }

  lemma DistinctPart(nodes: seq<Node>, a: seq<Node>, b: seq<Node>)
    requires DistinctPaths(nodes) && nodes == a + b
    ensures DistinctPaths(a) && DistinctPaths(b)
    ensures forall i, j :: 0 <= i < |a| && 0 <= j < |b| ==> a[i].path != b[j].path
  {
    forall i, j | 0 <= i < j < |a|
      ensures a[i].path != a[j].path
    {
      assert nodes[i] == a[i] && nodes[j] == a[j];
    }
    forall i, j | 0 <= i < j < |b|
      ensures b[i].path != b[j].path
    {
      assert nodes[|a| + i] == b[i] && nodes[|a| + j] == b[j];
    }
    forall i, j | 0 <= i < |a| && 0 <= j < |b|
      ensures a[i].path != b[j].path
    {
      assert nodes[i] == a[i] && nodes[|a| + j] == b[j];
    }
  }

  lemma TreeStep(nodes: seq<Node>)
    requires nodes != []
    ensures var n := |nodes| - 1;
      Tree(nodes) == (Tree(nodes[..n]) + [nodes[n]]) + Tree(nodes[n].children)
  {
  }

  /** A node whose path is new adds its own routes. */
  lemma PutAllAdds(routes: Routes, node: Node)
    requires node.path !in routes
    ensures PutAll(routes, node.path, node.info) == routes + OwnOf(node)
  {
    PutAllNew(routes, node.path, node.info);
  }

  lemma NewPath(nodes: seq<Node>, node: Node)
    requires DistinctPaths(nodes + [node])
    ensures node.path !in Own(nodes)
  {
    DistinctPart(nodes + [node], nodes, [node]);
    OwnPaths(nodes, node.path);
    assert [node][0] == node;
  }

  /** With distinct paths, flattening the tree is writing down each of its nodes. */
  lemma {:induction false} FlatIsOwn(nodes: seq<Node>)
    requires DistinctPaths(Tree(nodes))
    ensures Flat(nodes) == Own(Tree(nodes))
    decreases nodes
  {
    if nodes == [] {
    } else {
      var n := |nodes| - 1;
      var node, init := nodes[n], Tree(nodes[..n]);
      var below := Tree(node.children);
      TreeStep(nodes);
      DistinctPart(Tree(nodes), init + [node], below);
      DistinctPart(init + [node], init, [node]);
      FlatIsOwn(nodes[..n]);
      FlatIsOwn(node.children);
      NewPath(init, node);
      PutAllAdds(Own(init), node);
      OwnStep(init, node);
      OwnAppend(init + [node], below);
    }
  }

  lemma {:induction false} OwnIsLookedUp(nodes: seq<Node>, i: nat)
    requires DistinctPaths(nodes) && i < |nodes| && nodes[i].info != []
    ensures nodes[i].path in Own(nodes) && Own(nodes)[nodes[i].path] == MethodsOf(nodes[i].info)
  {
    var n := |nodes| - 1;
    if i == n {
    } else {
      OwnIsLookedUp(nodes[..n], i);
    }
  }

  lemma {:induction false} MethodsAreTheDict(info: seq<(string, Info)>, verb: string, entry: Entry)
    requires DistinctMethods(info)
    ensures verb in MethodsOf(info) && MethodsOf(info)[verb] == entry
            <==> exists j :: 0 <= j < |info| && info[j].0 == verb && EntryOf(info[j].1) == entry
    ensures verb in MethodsOf(info) ==> exists j :: 0 <= j < |info| && info[j].0 == verb
  {
    if info == [] {
    } else {
      MethodsAreTheDict(info[..|info| - 1], verb, entry);
    }
  }

  /** Nothing is lost and nothing is invented: with distinct paths, a path answers a method with an entry
      exactly if a node of the tree says so. */
  lemma FlattenKeepsEveryPair(nodes: seq<Node>, path: string, verb: string, entry: Entry)
    requires DistinctPaths(Tree(nodes))
    requires forall i :: 0 <= i < |Tree(nodes)| ==> DistinctMethods(Tree(nodes)[i].info)
    ensures (path in Flat(nodes) && verb in Flat(nodes)[path] && Flat(nodes)[path][verb] == entry)
            <==> exists i, j :: 0 <= i < |Tree(nodes)| && Tree(nodes)[i].path == path && 0 <= j < |Tree(nodes)[i].info|
                   && Tree(nodes)[i].info[j].0 == verb && Tree(nodes)[i].info[j].1.properties == entry.parameters
                   && Tree(nodes)[i].info[j].1.check == entry.check
  {
    var all := Tree(nodes);
    FlatIsOwn(nodes);
    OwnPaths(all, path);
    forall i | 0 <= i < |all| && all[i].path == path && all[i].info != []
      ensures path in Own(all) && Own(all)[path] == MethodsOf(all[i].info)
      ensures verb in MethodsOf(all[i].info) && MethodsOf(all[i].info)[verb] == entry
              <==> exists j :: 0 <= j < |all[i].info| && all[i].info[j].0 == verb && EntryOf(all[i].info[j].1) == entry
    {
      OwnIsLookedUp(all, i);
      MethodsAreTheDict(all[i].info, verb, entry);
    }
  }

  // ---- counting ----------------------------------------------------------------------------------------

  function Sizes(routes: Routes): map<string, int> {
    map path | path in routes :: |routes[path]|
  }

  function PairsOf(nodes: seq<Node>): nat {
    if nodes == [] then 0 else PairsOf(nodes[..|nodes| - 1]) + |nodes[|nodes| - 1].info|
  }

  lemma {:induction false} MethodCount(info: seq<(string, Info)>)
    requires DistinctMethods(info)
    ensures |MethodsOf(info)| == |info|
  {
    if info == [] {
    } else {
      var n := |info| - 1;
      MethodCount(info[..n]);
      MethodsAreTheDict(info[..n], info[n].0, EntryOf(info[n].1));
      assert info[n].0 !in MethodsOf(info[..n]);
    }
  }

  lemma SizesPut(routes: Routes, path: string, verbs: Methods)
    ensures Sizes(routes[path := verbs]) == Sizes(routes)[path := |verbs|]
  {
    var more := routes[path := verbs];
    assert forall p :: p in more ==> more[p] == if p == path then verbs else routes[p];
  }

  lemma SizesOfOneMore(routes: Routes, path: string, verbs: Methods)
    requires path !in routes
    ensures Sum(Sizes(routes + map[path := verbs])) == Sum(Sizes(routes)) + |verbs|
  {
    assert routes + map[path := verbs] == routes[path := verbs];
    SizesPut(routes, path, verbs);
    SumAdds(Sizes(routes), path, |verbs|);
  }

  lemma SizesStep(nodes: seq<Node>, last: Node)
    requires last.path !in Own(nodes) && DistinctMethods(last.info)
    ensures Sum(Sizes(Own(nodes) + OwnOf(last))) == Sum(Sizes(Own(nodes))) + |last.info|
  {
    if last.info == [] {
      assert Own(nodes) + OwnOf(last) == Own(nodes);
    } else {
      MethodCount(last.info);
      SizesOfOneMore(Own(nodes), last.path, MethodsOf(last.info));
    }
  }

  lemma {:induction false} OwnCount(nodes: seq<Node>)
    requires DistinctPaths(nodes) && forall i :: 0 <= i < |nodes| ==> DistinctMethods(nodes[i].info)
    ensures Sum(Sizes(Own(nodes))) == PairsOf(nodes)
  {
    if nodes == [] {
    } else {
      var n := |nodes| - 1;
      OwnCount(nodes[..n]);
      assert nodes == nodes[..n] + [nodes[n]];
      NewPath(nodes[..n], nodes[n]);
      SizesStep(nodes[..n], nodes[n]);
    }
  }

  /** The number of pairs written out is the number of pairs in the tree. */
  lemma PairCount(nodes: seq<Node>)
    requires DistinctPaths(Tree(nodes))
    requires forall i :: 0 <= i < |Tree(nodes)| ==> DistinctMethods(Tree(nodes)[i].info)
    ensures Sum(Sizes(Flat(nodes))) == PairsOf(Tree(nodes))
  {
    FlatIsOwn(nodes);
    OwnCount(Tree(nodes));
  }

  // ---- repeated paths ------------------------------------------------------------------------------------

  predicate Occurs(nodes: seq<Node>, path: string) {
    exists i :: 0 <= i < |nodes| && nodes[i].path == path && nodes[i].info != []
  }

  /** A node strictly below this one stands for the path. */
  predicate OccursBelow(node: Node, path: string) {
    Occurs(Tree(node.children), path)
  }

  predicate HasMethod(info: seq<(string, Info)>, verb: string) {
    exists j :: 0 <= j < |info| && info[j].0 == verb
  }

  predicate Has(routes: Routes, path: string, verb: string) {
    path in routes && verb in routes[path]
  }

  lemma OccursAppend(a: seq<Node>, b: seq<Node>, path: string)
    ensures Occurs(a + b, path) <==> Occurs(a, path) || Occurs(b, path)
  {
    if Occurs(a, path) {
      var i :| 0 <= i < |a| && a[i].path == path && a[i].info != [];
      assert (a + b)[i] == a[i];
    }
    if Occurs(b, path) {
      var i :| 0 <= i < |b| && b[i].path == path && b[i].info != [];
      assert (a + b)[|a| + i] == b[i];
    }
  }

  lemma {:induction false} PutAllHas(routes: Routes, path: string, info: seq<(string, Info)>, p: string, verb: string)
    ensures p in PutAll(routes, path, info) <==> p in routes || (p == path && info != [])
    ensures Has(PutAll(routes, path, info), p, verb) <==> Has(routes, p, verb) || (p == path && HasMethod(info, verb))
  {
    if info == [] {
    } else {
      PutAllHas(routes, path, info[..|info| - 1], p, verb);
    }
  }

  /** A path is written out exactly if some node of the tree stands for it. */
  lemma {:induction false} FlatPaths(nodes: seq<Node>, path: string)
    ensures path in Flat(nodes) <==> Occurs(Tree(nodes), path)
    decreases nodes
  {
    if nodes == [] {
    } else {
      var n := |nodes| - 1;
      FlatPaths(nodes[..n], path);
      FlatPaths(nodes[n].children, path);
      PutAllHas(Flat(nodes[..n]), nodes[n].path, nodes[n].info, path, "");
      TreeStep(nodes);
      OccursAppend(Tree(nodes[..n]) + [nodes[n]], Tree(nodes[n].children), path);
      OccursAppend(Tree(nodes[..n]), [nodes[n]], path);
      assert [nodes[n]][0] == nodes[n];
      assert Occurs([nodes[n]], path) <==> nodes[n].path == path && nodes[n].info != [];
    }
  }

  /** Where a method of a path comes from: from the last node of the list with that path below it, or from
      one after it that has the path itself. */
  predicate Survives(nodes: seq<Node>, path: string, verb: string, i: nat)
    requires i < |nodes|
  {
    && (forall j :: i < j < |nodes| ==> !OccursBelow(nodes[j], path))
    && (if OccursBelow(nodes[i], path) then Has(Flat(nodes[i].children), path, verb)
        else nodes[i].path == path && HasMethod(nodes[i].info, verb))
  }

  lemma SurvivesLater(nodes: seq<Node>, path: string, verb: string, i: nat)
    requires i < |nodes| - 1 && !OccursBelow(nodes[|nodes| - 1], path)
    ensures Survives(nodes, path, verb, i) <==> Survives(nodes[..|nodes| - 1], path, verb, i)
  {
    var init := nodes[..|nodes| - 1];
    assert forall j :: 0 <= j < |init| ==> init[j] == nodes[j];
  }

  ghost predicate SomeSurvives(nodes: seq<Node>, path: string, verb: string) {
    exists i: nat :: i < |nodes| && Survives(nodes, path, verb, i)
  }

  /** The last node decides alone if it has the path below it, and otherwise adds to what survived. */
  lemma LastDecides(nodes: seq<Node>, path: string, verb: string)
    requires nodes != []
    ensures var n := |nodes| - 1;
      SomeSurvives(nodes, path, verb) <==>
        if OccursBelow(nodes[n], path) then Has(Flat(nodes[n].children), path, verb)
        else SomeSurvives(nodes[..n], path, verb) || (nodes[n].path == path && HasMethod(nodes[n].info, verb))
  {
    var n := |nodes| - 1;
    var init := nodes[..n];
    if OccursBelow(nodes[n], path) {
      assert Has(Flat(nodes[n].children), path, verb) ==> Survives(nodes, path, verb, n);
    } else {
      if i: nat :| i < |init| && Survives(init, path, verb, i) {
        SurvivesLater(nodes, path, verb, i);
      }
      if i: nat :| i < n && Survives(nodes, path, verb, i) {
        SurvivesLater(nodes, path, verb, i);
      }
      if nodes[n].path == path && HasMethod(nodes[n].info, verb) {
        assert Survives(nodes, path, verb, n);
      }
    }
  }

  /** For every tree whatever, repeated paths included: a method is written out exactly if it survives. */
  lemma {:induction false} WhichMethodsSurvive(nodes: seq<Node>, path: string, verb: string)
    ensures Has(Flat(nodes), path, verb) <==> SomeSurvives(nodes, path, verb)
  {
    if nodes == [] {
    } else {
      var n := |nodes| - 1;
      WhichMethodsSurvive(nodes[..n], path, verb);
      FlatPaths(nodes[n].children, path);
      PutAllHas(Flat(nodes[..n]), nodes[n].path, nodes[n].info, path, verb);
      LastDecides(nodes, path, verb);
    }
  }

  /** So a method that one node has, and no other of that path, is lost exactly if that node or one after
      it has the path again strictly below it. */
  lemma WhenAMethodIsLost(nodes: seq<Node>, i: nat, verb: string)
    requires i < |nodes| && HasMethod(nodes[i].info, verb)
    requires forall j :: 0 <= j < |nodes| && j != i ==> !(nodes[j].path == nodes[i].path && HasMethod(nodes[j].info, verb))
    requires forall j :: 0 <= j < |nodes| ==> !Has(Flat(nodes[j].children), nodes[i].path, verb)
    ensures !Has(Flat(nodes), nodes[i].path, verb)
            <==> exists j :: i <= j < |nodes| && OccursBelow(nodes[j], nodes[i].path)
  {
    var path := nodes[i].path;
    WhichMethodsSurvive(nodes, path, verb);
    if forall j :: i <= j < |nodes| ==> !OccursBelow(nodes[j], path) {
      assert Survives(nodes, path, verb, i);
    } else {
      forall k: nat | k < |nodes|
        ensures !Survives(nodes, path, verb, k)
      {
      }
    }
  }

  /** Distinct paths are needed: a child with its parent's path takes the parent's methods away. */
  lemma ChildrenReplace(path: string, info: Info)
    ensures var child := Node(path, [("POST", info)], []);
      Flat([Node(path, [("GET", info)], [child])]) == map[path := map["POST" := EntryOf(info)]]
  {
    var child := Node(path, [("POST", info)], []);
    var parent := Node(path, [("GET", info)], [child]);
    assert [child][..0] == [] && [parent][..0] == [];
    assert child.info[..0] == [] && parent.info[..0] == [];
    assert PutAll(map[], path, child.info) == map[path := map["POST" := EntryOf(info)]];
    assert PutAll(map[], path, parent.info) == map[path := map["GET" := EntryOf(info)]];
    assert Flat([child]) == map[path := map["POST" := EntryOf(info)]];
  }
}
