/** The cluster's resource list: its index, the search through it, and the totals. */
module ClusterResources {
  import opened Wrappers
  import opened Strings
  import opened Sorting

  datatype Resource =
    | NodeResource(node: string, online: bool, cpu: real, maxcpu: int, mem: int, maxmem: int)
    | Qemu(vmid: int, node: string, running: bool, isTemplate: bool)
    | Container(vmid: int, node: string, running: bool, isTemplate: bool)
    | Storage(node: string, storage: string)
    | Network(id: string)

  // ---- the index -----------------------------------------------------------------------------------------

  datatype Cache = Cache(
    nodes: map<string, Resource>, qemu: map<int, Resource>, lxc: map<int, Resource>, storage: map<string, Resource>)

  const EMPTY := Cache(map[], map[], map[], map[])

  /** `f"{node}:{storage}"`. */
  function StorageKey(node: string, storage: string): string {
    node + ":" + storage
  }

  function Add(cache: Cache, res: Resource): Cache {
    match res
    case NodeResource(node, _, _, _, _, _) => cache.(nodes := cache.nodes[node := res])
    case Qemu(vmid, _, _, _) => cache.(qemu := cache.qemu[vmid := res])
    case Container(vmid, _, _, _) => cache.(lxc := cache.lxc[vmid := res])
    case Storage(node, storage) => cache.(storage := cache.storage[StorageKey(node, storage) := res])
    case Network(_) => cache
  }

  function Index(resources: seq<Resource>): Cache {
    if resources == [] then EMPTY
    else Add(Index(resources[..|resources| - 1]), resources[|resources| - 1])
  }

  /** `pve_cluster_cache`: four dictionaries, filled in one pass. */
  method ClusterCache(resources: seq<Resource>) returns (cache: Cache)
    ensures cache == Index(resources)
  {
    var nodes: map<string, Resource>, qemu: map<int, Resource> := map[], map[];
    var lxc: map<int, Resource>, storage: map<string, Resource> := map[], map[];
    for i := 0 to |resources|
      invariant Cache(nodes, qemu, lxc, storage) == Index(resources[..i])
    {
      assert resources[..i + 1][..i] == resources[..i];
      var res := resources[i];
      match res {
        case NodeResource(node, _, _, _, _, _) => nodes := nodes[node := res];
        case Qemu(vmid, _, _, _) => qemu := qemu[vmid := res];
        case Container(vmid, _, _, _) => lxc := lxc[vmid := res];
        case Storage(node, store) => storage := storage[StorageKey(node, store) := res];
        case Network(_) =>
      }
    }
    assert resources[..|resources|] == resources;
    cache := Cache(nodes, qemu, lxc, storage);
  }

  /** What a resource is filed under. */
  datatype Key = NodeKey(node: string) | QemuKey(vmid: int) | LxcKey(vmid: int) | StoreKey(key: string)

  function KeyOf(res: Resource): Option<Key> {
    match res
    case NodeResource(node, _, _, _, _, _) => Some(NodeKey(node))
    case Qemu(vmid, _, _, _) => Some(QemuKey(vmid))
    case Container(vmid, _, _, _) => Some(LxcKey(vmid))
    case Storage(node, storage) => Some(StoreKey(StorageKey(node, storage)))
    case Network(_) => None
  }

  function Filed(cache: Cache, key: Key): Option<Resource> {
    match key
    case NodeKey(node) => if node in cache.nodes then Some(cache.nodes[node]) else None
    case QemuKey(vmid) => if vmid in cache.qemu then Some(cache.qemu[vmid]) else None
    case LxcKey(vmid) => if vmid in cache.lxc then Some(cache.lxc[vmid]) else None
    case StoreKey(k) => if k in cache.storage then Some(cache.storage[k]) else None
  }

  lemma AddFilesOne(cache: Cache, res: Resource, key: Key)
    ensures Filed(Add(cache, res), key) == if KeyOf(res) == Some(key) then Some(res) else Filed(cache, key)
  {
  }

  predicate IsLastOf(resources: seq<Resource>, key: Key, i: nat) {
    && i < |resources| && KeyOf(resources[i]) == Some(key)
    && forall j :: i < j < |resources| ==> KeyOf(resources[j]) != Some(key)
  }

  /** The index holds, under every key, the last resource of that key, and nothing that has gone. */
  lemma {:induction false} IndexHoldsTheLast(resources: seq<Resource>, key: Key)
    ensures match Filed(Index(resources), key)
            case Some(res) => exists i: nat :: IsLastOf(resources, key, i) && resources[i] == res
            case None => forall i :: 0 <= i < |resources| ==> KeyOf(resources[i]) != Some(key)
  {
    if resources == [] {
    } else {
      var n := |resources| - 1;
      var init := resources[..n];
      IndexHoldsTheLast(init, key);
      AddFilesOne(Index(init), resources[n], key);
      if KeyOf(resources[n]) == Some(key) {
        assert IsLastOf(resources, key, n);
      } else if Filed(Index(init), key).Some? {
        var i: nat :| IsLastOf(init, key, i) && init[i] == Filed(Index(init), key).value;
        assert IsLastOf(resources, key, i);
      }
    }
  }

  /** What stands under a name or number is the last entry of that kind that carries it. */
  lemma FiledByItsFields(resources: seq<Resource>, i: nat)
    requires i < |resources|
    requires forall j :: i < j < |resources| ==> KeyOf(resources[j]) != KeyOf(resources[i])
    ensures var cache := Index(resources);
      match resources[i]
      case NodeResource(node, _, _, _, _, _) => node in cache.nodes && cache.nodes[node] == resources[i]
      case Qemu(vmid, _, _, _) => vmid in cache.qemu && cache.qemu[vmid] == resources[i]
      case Container(vmid, _, _, _) => vmid in cache.lxc && cache.lxc[vmid] == resources[i]
      case Storage(node, storage) => node + ":" + storage in cache.storage && cache.storage[node + ":" + storage] == resources[i]
      case Network(_) => true
  {
    if !resources[i].Network? {
      var key := KeyOf(resources[i]).value;
      IndexHoldsTheLast(resources, key);
      var k: nat :| IsLastOf(resources, key, k) && resources[k] == Filed(Index(resources), key).value;
    }
  }

  /** Two storages share a key only if they are the same one, as long as node names hold no colon. */
  lemma StorageKeysDoNotCollide(a: string, s: string, b: string, t: string)
    requires Without(a, ':') && Without(b, ':') && StorageKey(a, s) == StorageKey(b, t)
    ensures a == b && s == t
  {
    SplitPrefix(a, ':', s);
    SplitPrefix(b, ':', t);
    assert a + [':'] + s == StorageKey(a, s) && b + [':'] + t == StorageKey(b, t);
    assert Split(StorageKey(a, s), ':')[0] == a && Split(StorageKey(b, t), ':')[0] == b;
    assert StorageKey(a, s)[|a| + 1..] == s && StorageKey(b, t)[|b| + 1..] == t;
  }

  // ---- the search ------------------------------------------------------------------------------------------

  predicate IsGuest(res: Resource, vmid: int) {
    (res.Qemu? || res.Container?) && res.vmid == vmid
  }

  function Scan(resources: seq<Resource>, vmid: int): Option<string> {
    if resources == [] then None
    else if IsGuest(resources[0], vmid) then Some(resources[0].node)
    else Scan(resources[1..], vmid)
  }

  /** `pve_find_node_in_cache`. */
  method FindNode(resources: seq<Resource>, vmid: int) returns (node: Option<string>)
    ensures node == Scan(resources, vmid)
  {
    for i := 0 to |resources|
      invariant Scan(resources, vmid) == Scan(resources[i..], vmid)
    {
      assert resources[i..][0] == resources[i] && resources[i..][1..] == resources[i + 1..];
      if IsGuest(resources[i], vmid) {
        return Some(resources[i].node);
      }
    }
    return None;
  }

  lemma {:induction false} ScanFindsTheFirst(resources: seq<Resource>, vmid: int)
    ensures match Scan(resources, vmid)
            case Some(node) =>
              exists i :: 0 <= i < |resources| && IsGuest(resources[i], vmid) && resources[i].node == node
                          && forall j :: 0 <= j < i ==> !IsGuest(resources[j], vmid)
            case None => forall i :: 0 <= i < |resources| ==> !IsGuest(resources[i], vmid)
  {
    if resources == [] || IsGuest(resources[0], vmid) {
    } else {
      var rest := resources[1..];
      ScanFindsTheFirst(rest, vmid);
      if Scan(rest, vmid).Some? {
        var i :| 0 <= i < |rest| && IsGuest(rest[i], vmid) && rest[i].node == Scan(rest, vmid).value
                 && forall j :: 0 <= j < i ==> !IsGuest(rest[j], vmid);
        assert resources[i + 1] == rest[i];
        forall j | 0 <= j < i + 1
          ensures !IsGuest(resources[j], vmid)
        {
          assert j > 0 ==> resources[j] == rest[j - 1];
        }
      } else {
        forall i | 0 <= i < |resources|
          ensures !IsGuest(resources[i], vmid)
        {
          assert i > 0 ==> resources[i] == rest[i - 1];
        }
      }
    }
  }

  /** The node the index names for a guest of either kind. */
  function IndexedNode(cache: Cache, vmid: int): Option<string> {
    if vmid in cache.qemu && cache.qemu[vmid].Qemu? then Some(cache.qemu[vmid].node)
    else if vmid in cache.lxc && cache.lxc[vmid].Container? then Some(cache.lxc[vmid].node)
    else None
  }

  ghost predicate Unique(resources: seq<Resource>, vmid: int) {
    forall i, j :: 0 <= i < j < |resources| && IsGuest(resources[i], vmid) ==> !IsGuest(resources[j], vmid)
  }

  /** Where a vmid is used once across both kinds of guests, the index and the search name the same node. */
  lemma IndexAndScanAgree(resources: seq<Resource>, vmid: int)
    requires Unique(resources, vmid)
    ensures IndexedNode(Index(resources), vmid) == Scan(resources, vmid)
  {
    IndexHoldsTheLast(resources, QemuKey(vmid));
    IndexHoldsTheLast(resources, LxcKey(vmid));
    ScanFindsTheFirst(resources, vmid);
    var q, c := Filed(Index(resources), QemuKey(vmid)), Filed(Index(resources), LxcKey(vmid));
    if q.Some? {
      var i: nat :| IsLastOf(resources, QemuKey(vmid), i) && resources[i] == q.value;
      assert IsGuest(resources[i], vmid);
    } else if c.Some? {
      var i: nat :| IsLastOf(resources, LxcKey(vmid), i) && resources[i] == c.value;
      assert IsGuest(resources[i], vmid);
    }
  }

  predicate IsFirstGuest(resources: seq<Resource>, vmid: int, i: nat) {
    && i < |resources| && IsGuest(resources[i], vmid)
    && forall j :: 0 <= j < i ==> !IsGuest(resources[j], vmid)
  }

  /** The last VM of that vmid or, if there is none, the last container. */
  predicate IsIndexed(resources: seq<Resource>, vmid: int, i: nat) {
    && i < |resources| && IsGuest(resources[i], vmid)
    && (forall j :: i < j < |resources| && IsGuest(resources[j], vmid) ==> resources[i].Qemu? && resources[j].Container?)
    && (resources[i].Container? ==> forall j :: 0 <= j < |resources| && IsGuest(resources[j], vmid) ==> resources[j].Container?)
  }

  lemma IndexNamesTheLast(resources: seq<Resource>, vmid: int, i: nat)
    requires IsIndexed(resources, vmid, i)
    ensures IndexedNode(Index(resources), vmid) == Some(resources[i].node)
  {
    IndexHoldsTheLast(resources, QemuKey(vmid));
    IndexHoldsTheLast(resources, LxcKey(vmid));
    var key := if resources[i].Qemu? then QemuKey(vmid) else LxcKey(vmid);
    assert KeyOf(resources[i]) == Some(key);
    var held := Filed(Index(resources), key);
    var k: nat :| IsLastOf(resources, key, k) && resources[k] == held.value;
    assert IsGuest(resources[k], vmid);
    assert k == i;
  }

  /** However often a vmid is used: the search takes the first guest of that vmid, the index the last VM or
      else the last container, so they agree exactly if these two are on the same node. */
  lemma WhenIndexAndScanAgree(resources: seq<Resource>, vmid: int, first: nat, indexed: nat)
    requires IsFirstGuest(resources, vmid, first) && IsIndexed(resources, vmid, indexed)
    ensures Scan(resources, vmid) == Some(resources[first].node)
    ensures IndexedNode(Index(resources), vmid) == Some(resources[indexed].node)
    ensures IndexedNode(Index(resources), vmid) == Scan(resources, vmid)
            <==> resources[first].node == resources[indexed].node
  {
    IndexNamesTheLast(resources, vmid, indexed);
    ScanFindsTheFirst(resources, vmid);
  }

  /** Both guests exist, unless there is none: then both lookups say so. */
  lemma {:induction false} BothFindAGuest(resources: seq<Resource>, vmid: int)
    ensures if exists i :: 0 <= i < |resources| && IsGuest(resources[i], vmid)
            then (exists i: nat :: IsFirstGuest(resources, vmid, i)) && (exists i: nat :: IsIndexed(resources, vmid, i))
            else Scan(resources, vmid) == None && IndexedNode(Index(resources), vmid) == None
  {
    IndexHoldsTheLast(resources, QemuKey(vmid));
    IndexHoldsTheLast(resources, LxcKey(vmid));
    ScanFindsTheFirst(resources, vmid);
    if exists i :: 0 <= i < |resources| && IsGuest(resources[i], vmid) {
      var g :| 0 <= g < |resources| && IsGuest(resources[g], vmid);
      assert Scan(resources, vmid).Some?;
      var i :| 0 <= i < |resources| && IsGuest(resources[i], vmid) && forall j :: 0 <= j < i ==> !IsGuest(resources[j], vmid);
      assert IsFirstGuest(resources, vmid, i);
      LastGuest(resources, vmid, g);
    }
  }

  lemma LastGuest(resources: seq<Resource>, vmid: int, g: nat)
    requires g < |resources| && IsGuest(resources[g], vmid)
    ensures exists i: nat :: IsIndexed(resources, vmid, i)
  {
    IndexHoldsTheLast(resources, QemuKey(vmid));
    IndexHoldsTheLast(resources, LxcKey(vmid));
    assert KeyOf(resources[g]) == Some(if resources[g].Qemu? then QemuKey(vmid) else LxcKey(vmid));
    var key := if Filed(Index(resources), QemuKey(vmid)).Some? then QemuKey(vmid) else LxcKey(vmid);
    var k: nat :| IsLastOf(resources, key, k);
    forall j | 0 <= j < |resources| && IsGuest(resources[j], vmid)
      ensures j > k ==> resources[k].Qemu? && resources[j].Container?
      ensures resources[k].Container? ==> resources[j].Container?
    {
      assert KeyOf(resources[j]) == Some(if resources[j].Qemu? then QemuKey(vmid) else LxcKey(vmid));
    }
    assert IsIndexed(resources, vmid, k);
  }

  /** Two VMs of one vmid on different nodes: the search takes the first and the index the last. */
  lemma DuplicatesDisagree(vmid: int, a: string, b: string)
    ensures var resources := [Qemu(vmid, a, true, false), Qemu(vmid, b, true, false)];
      Scan(resources, vmid) == Some(a) && IndexedNode(Index(resources), vmid) == Some(b)
  {
    var resources := [Qemu(vmid, a, true, false), Qemu(vmid, b, true, false)];
    WhenIndexAndScanAgree(resources, vmid, 0, 1);
  }

  // ---- the client's copy -----------------------------------------------------------------------------------

  datatype Lookup = Found(node: string) | ResourceNotFound | NeverFetched

  class Cluster {
    var resources: Option<seq<Resource>>
    var cache: Cache

    /** The cache is the index of the list at hand, and empty before there is one. */
    predicate Valid()
      reads this
    {
      cache == if resources.Some? then Index(resources.value) else EMPTY
    }

    constructor ()
      ensures Valid() && resources == None
    {
      resources, cache := None, EMPTY;
    }

    /** `cluster.resources()`: both fields are written after the one await. */
    method Resources(raw: seq<Resource>)
      modifies this
      ensures Valid() && resources == Some(raw)
    {
      resources := Some(raw);
      cache := ClusterCache(raw);
    }

    /** The lookup of `status.current()`: the list at hand first, and one fetch if that does not name
        the guest. `meanwhile` is the last list that other tasks stored while this one waited, and
        `fetched` is None where the fetch raises. Before any list is stored the attribute does not
        exist, and the lookup raises. */
    method Locate(vmid: int, meanwhile: Option<seq<Resource>>, fetched: Option<seq<Resource>>) returns (found: Lookup)
      requires Valid()
      modifies this
      ensures Valid()
      ensures found.NeverFetched? <==> old(resources).None?
      ensures found.Found? ==> found.node != "" && resources.Some? && Scan(resources.value, vmid) == Some(found.node)
      ensures var known := old(resources).Some? && Scan(old(resources).value, vmid).Some?
                           && Scan(old(resources).value, vmid) != Some("");
        && (known ==> found.Found?)
        && resources == if known || old(resources).None? then old(resources)
                     else if fetched.Some? then fetched
                     else if meanwhile.Some? then meanwhile
                     else old(resources)
      ensures found.ResourceNotFound? ==>
                fetched.None? || Scan(fetched.value, vmid).None? || Scan(fetched.value, vmid) == Some("")
    {
      if resources.None? {
        return NeverFetched;
      }
      var node := FindNode(resources.value, vmid);
      if node.None? || node.value == "" {
        if meanwhile.Some? {
          Resources(meanwhile.value);
        }
        if fetched.None? {
          return ResourceNotFound;
        }
        Resources(fetched.value);
        node := FindNode(resources.value, vmid);
        if node.None? || node.value == "" {
          return ResourceNotFound;
        }
      }
      return Found(node.value);
    }
  }

  // ---- the cluster at a glance -----------------------------------------------------------------------------

  datatype Summary = Summary(
    nodesTotal: nat, nodesOnline: nat, nodesOffline: seq<string>,
    qemuTotal: nat, qemuRunning: nat, lxcTotal: nat, lxcRunning: nat,
    cpu: Option<real>, memoryUsed: Option<int>, memoryTotal: Option<int>)

  function NodesOf(resources: seq<Resource>): seq<Resource> {
    if resources == [] then []
    else
      var init, last := NodesOf(resources[..|resources| - 1]), resources[|resources| - 1];
      if last.NodeResource? then init + [last] else init
  }

  /** `[n for n in nodes if n.status == ONLINE]`, or the others. */
  function WithStatus(nodes: seq<Resource>, online: bool): seq<Resource> {
    if nodes == [] then []
    else
      var init, last := WithStatus(nodes[..|nodes| - 1], online), nodes[|nodes| - 1];
      if last.NodeResource? && last.online == online then init + [last] else init
  }

  function Names(nodes: seq<Resource>): seq<string> {
    if nodes == [] then []
    else
      var init, last := Names(nodes[..|nodes| - 1]), nodes[|nodes| - 1];
      if last.NodeResource? then init + [last.node] else init
  }

  /** A VM, or a container; templates are no guests. */
  predicate Counts(res: Resource, vm: bool) {
    if vm then res.Qemu? && !res.isTemplate else res.Container? && !res.isTemplate
  }

  function Guests(resources: seq<Resource>, vm: bool): seq<Resource> {
    if resources == [] then []
    else
      var init, last := Guests(resources[..|resources| - 1], vm), resources[|resources| - 1];
      if Counts(last, vm) then init + [last] else init
  }

  function Running(guests: seq<Resource>): nat {
    if guests == [] then 0
    else
      var last := guests[|guests| - 1];
      Running(guests[..|guests| - 1]) + if (last.Qemu? || last.Container?) && last.running then 1 else 0
  }

  function Weight(node: Resource): int {
    if node.NodeResource? && node.maxcpu > 0 then node.maxcpu else 0
  }

  function Load(node: Resource): real {
    if node.NodeResource? && node.maxcpu > 0 then node.cpu * node.maxcpu as real else 0.0
  }

  function Cpus(nodes: seq<Resource>): int {
    if nodes == [] then 0 else Cpus(nodes[..|nodes| - 1]) + Weight(nodes[|nodes| - 1])
  }

  function WeightedCpu(nodes: seq<Resource>): real {
    if nodes == [] then 0.0 else WeightedCpu(nodes[..|nodes| - 1]) + Load(nodes[|nodes| - 1])
  }

  function Quotient(x: real, n: int): real
    requires n != 0
  {
    x / n as real
  }

  function CpuOf(nodes: seq<Resource>): Option<real> {
    if Cpus(nodes) != 0 then Some(Quotient(WeightedCpu(nodes), Cpus(nodes))) else None
  }

  function Memory(nodes: seq<Resource>, all: bool): int {
    if nodes == [] then 0
    else
      var last := nodes[|nodes| - 1];
      Memory(nodes[..|nodes| - 1], all) + if last.NodeResource? then (if all then last.maxmem else last.mem) else 0
  }

  // ---- the sums, of the resource list itself ---------------------------------------------------------------

  /** What the online nodes of a list add up to. */
  datatype Totals = Totals(cores: int, load: real, used: int, total: int)

  /** Cores, each node's use times its cores, and memory, of the nodes that are online. */
  function TotalsOf(resources: seq<Resource>): Totals {
    if resources == [] then Totals(0, 0.0, 0, 0)
    else
      var so := TotalsOf(resources[..|resources| - 1]);
      match resources[|resources| - 1]
      case NodeResource(_, true, cpu, maxcpu, mem, maxmem) =>
        Totals(
          if maxcpu > 0 then so.cores + maxcpu else so.cores,
          if maxcpu > 0 then so.load + cpu * maxcpu as real else so.load,
          so.used + mem, so.total + maxmem)
      case _ => so
  }

  /** One more online node adds its cores, its use weighted by its cores, and both its memory figures. */
  lemma OneMoreOnlineNode(resources: seq<Resource>, node: string, cpu: real, maxcpu: int, mem: int, maxmem: int)
    ensures var before, after := TotalsOf(resources), TotalsOf(resources + [NodeResource(node, true, cpu, maxcpu, mem, maxmem)]);
      && after.used == before.used + mem && after.total == before.total + maxmem
      && (maxcpu > 0 ==> after.cores == before.cores + maxcpu && after.load == before.load + cpu * maxcpu as real)
      && (maxcpu <= 0 ==> after.cores == before.cores && after.load == before.load)
  {
    var more := resources + [NodeResource(node, true, cpu, maxcpu, mem, maxmem)];
    assert more[..|more| - 1] == resources;
  }

  /** Anything else adds nothing, and no entries add up to nothing. */
  lemma OneMoreOther(resources: seq<Resource>, res: Resource)
    requires !(res.NodeResource? && res.online)
    ensures TotalsOf(resources + [res]) == TotalsOf(resources)
    ensures TotalsOf([]) == Totals(0, 0.0, 0, 0)
  {
    assert (resources + [res])[..|resources|] == resources;
  }

  lemma {:induction false} OnlineTotals(resources: seq<Resource>)
    ensures var online := WithStatus(NodesOf(resources), true);
      TotalsOf(resources) == Totals(Cpus(online), WeightedCpu(online), Memory(online, false), Memory(online, true))
  {
    if resources == [] {
    } else {
      var n := |resources| - 1;
      OnlineTotals(resources[..n]);
      OnlineStep(resources);
    }
  }

  lemma OnlineStep(resources: seq<Resource>)
    requires resources != []
    ensures var n := |resources| - 1;
      var online, before := WithStatus(NodesOf(resources), true), WithStatus(NodesOf(resources[..n]), true);
      var last := resources[n];
      && online == (if last.NodeResource? && last.online then before + [last] else before)
      && Cpus(online) == Cpus(before) + (if last.NodeResource? && last.online then Weight(last) else 0)
      && WeightedCpu(online) == WeightedCpu(before) + (if last.NodeResource? && last.online then Load(last) else 0.0)
      && Memory(online, false) == Memory(before, false) + (if last.NodeResource? && last.online then last.mem else 0)
      && Memory(online, true) == Memory(before, true) + (if last.NodeResource? && last.online then last.maxmem else 0)
  {
    var n := |resources| - 1;
    var last, nodes := resources[n], NodesOf(resources[..n]);
    if last.NodeResource? {
      assert (nodes + [last])[..|nodes|] == nodes;
      var before := WithStatus(nodes, true);
      assert (before + [last])[..|before|] == before;
    }
  }

  /** The CPU is given where there are cores, and times all of them it is the use of every core. */
  predicate IsShare(cpu: Option<real>, cores: int, load: real) {
    match cpu
    case Some(c) => cores != 0 && c * cores as real == load
    case None => cores == 0
  }

  /** The figures of a summary are those of the online nodes. */
  predicate AddsUp(summary: Summary, totals: Totals) {
    && IsShare(summary.cpu, totals.cores, totals.load)
    && summary.memoryUsed == (if totals.total != 0 then Some(totals.used) else None)
    && summary.memoryTotal == (if totals.total != 0 then Some(totals.total) else None)
  }

  lemma CpuIsShare(nodes: seq<Resource>, cores: int, load: real)
    requires cores == Cpus(nodes) && load == WeightedCpu(nodes)
    ensures IsShare(CpuOf(nodes), cores, load)
  {
    if cores != 0 {
      QuotientTimes(load, cores);
    }
  }

  lemma QuotientTimes(x: real, n: int)
    requires n != 0
    ensures Quotient(x, n) * n as real == x
  {
  }

  function SummaryOf(resources: seq<Resource>): Summary {
    var nodes := NodesOf(resources);
    var online := WithStatus(nodes, true);
    Summary(
      |nodes|, |online|, Sort(Names(WithStatus(nodes, false))),
      |Guests(resources, true)|, Running(Guests(resources, true)),
      |Guests(resources, false)|, Running(Guests(resources, false)),
      CpuOf(online),
      if Memory(online, true) != 0 then Some(Memory(online, false)) else None,
      if Memory(online, true) != 0 then Some(Memory(online, true)) else None)
  }

  lemma SummaryAddsUp(resources: seq<Resource>)
    ensures AddsUp(SummaryOf(resources), TotalsOf(resources))
  {
    var online := WithStatus(NodesOf(resources), true);
    OnlineTotals(resources);
    CpuIsShare(online, TotalsOf(resources).cores, TotalsOf(resources).load);
  }

  /** `ClusterSummary.from_resources`. */
  method Summarize(resources: seq<Resource>) returns (summary: Summary)
    ensures summary == SummaryOf(resources)
    ensures AddsUp(summary, TotalsOf(resources))
  {
    var nodes := NodesOf(resources);
    var online := WithStatus(nodes, true);
    var qemu, lxc := Guests(resources, true), Guests(resources, false);
    var weightedCpu, totalCpus := 0.0, 0;
    var memoryTotal, memoryUsed := 0, 0;
    for i := 0 to |online|
      invariant weightedCpu == WeightedCpu(online[..i]) && totalCpus == Cpus(online[..i])
      invariant memoryTotal == Memory(online[..i], true) && memoryUsed == Memory(online[..i], false)
    {
      assert online[..i + 1][..i] == online[..i];
      var node := online[i];
      if node.NodeResource? {
        if node.maxcpu > 0 {
          weightedCpu := weightedCpu + node.cpu * node.maxcpu as real;
          totalCpus := totalCpus + node.maxcpu;
        }
        memoryTotal := memoryTotal + node.maxmem;
        memoryUsed := memoryUsed + node.mem;
      }
    }
    assert online[..|online|] == online;
    summary := Summary(
      |nodes|, |online|, Sort(Names(WithStatus(nodes, false))),
      |qemu|, Running(qemu), |lxc|, Running(lxc),
      if totalCpus != 0 then Some(Quotient(weightedCpu, totalCpus)) else None,
      if memoryTotal != 0 then Some(memoryUsed) else None,
      if memoryTotal != 0 then Some(memoryTotal) else None);
    SummaryAddsUp(resources);
  }

  /** Every node is online or offline. */
  lemma {:induction false} OnlineAndOffline(nodes: seq<Resource>)
    requires forall i :: 0 <= i < |nodes| ==> nodes[i].NodeResource?
    ensures |WithStatus(nodes, true)| + |WithStatus(nodes, false)| == |nodes|
  {
    if nodes == [] {
    } else {
      OnlineAndOffline(nodes[..|nodes| - 1]);
    }
  }

  lemma ProductBetween(lo: real, cpu: real, hi: real, n: int)
    requires lo <= cpu <= hi && n > 0
    ensures lo * n as real <= cpu * n as real <= hi * n as real
  {
  }

  lemma Distribute(x: real, m: int, n: int)
    ensures x * (m + n) as real == x * m as real + x * n as real
  {
    assert (m + n) as real == m as real + n as real;
  }

  lemma SumBetween(lo: real, hi: real, m: int, x: real, n: int, y: real)
    requires lo * m as real <= x <= hi * m as real && lo * n as real <= y <= hi * n as real
    ensures lo * (m + n) as real <= x + y <= hi * (m + n) as real
  {
    Distribute(lo, m, n);
    Distribute(hi, m, n);
  }

  lemma LoadOfOne(node: Resource, lo: real, hi: real)
    requires Weight(node) > 0 ==> lo <= node.cpu <= hi
    ensures lo * Weight(node) as real <= Load(node) <= hi * Weight(node) as real
  {
    if Weight(node) > 0 {
      ProductBetween(lo, node.cpu, hi, node.maxcpu);
    }
  }

  /** `x` is what `n` cores, each used between `lo` and `hi`, add up to. */
  predicate Between(lo: real, hi: real, x: real, n: int) {
    n >= 0 && lo * n as real <= x <= hi * n as real
  }

  lemma LoadStep(nodes: seq<Resource>, lo: real, hi: real)
    requires nodes != [] && var last := nodes[|nodes| - 1]; Weight(last) > 0 ==> lo <= last.cpu <= hi
    requires var init := nodes[..|nodes| - 1]; Between(lo, hi, WeightedCpu(init), Cpus(init))
    ensures Between(lo, hi, WeightedCpu(nodes), Cpus(nodes))
  {
    var init, last := nodes[..|nodes| - 1], nodes[|nodes| - 1];
    LoadOfOne(last, lo, hi);
    SumBetween(lo, hi, Cpus(init), WeightedCpu(init), Weight(last), Load(last));
  }

  lemma {:induction false} LoadBetween(nodes: seq<Resource>, lo: real, hi: real)
    requires forall i :: 0 <= i < |nodes| && Weight(nodes[i]) > 0 ==> lo <= nodes[i].cpu <= hi
    ensures Between(lo, hi, WeightedCpu(nodes), Cpus(nodes))
  {
    if nodes == [] {
    } else {
      LoadBetween(nodes[..|nodes| - 1], lo, hi);
      LoadStep(nodes, lo, hi);
    }
  }

  /** The CPU of the cluster lies between the least and the most loaded of the nodes that have cores. */
  lemma CpuIsAnAverage(nodes: seq<Resource>, lo: real, hi: real)
    requires forall i :: 0 <= i < |nodes| && Weight(nodes[i]) > 0 ==> lo <= nodes[i].cpu <= hi
    ensures match CpuOf(nodes)
            case Some(cpu) => lo <= cpu <= hi
            case None => forall i :: 0 <= i < |nodes| ==> Weight(nodes[i]) == 0
  {
    LoadBetween(nodes, lo, hi);
    if Cpus(nodes) != 0 {
      QuotientBetween(lo, WeightedCpu(nodes), hi, Cpus(nodes));
    } else {
      NoCores(nodes);
    }
  }

  lemma {:induction false} NoCores(nodes: seq<Resource>)
    ensures Cpus(nodes) >= 0
    ensures Cpus(nodes) == 0 ==> forall i :: 0 <= i < |nodes| ==> Weight(nodes[i]) == 0
  {
    if nodes == [] {
    } else {
      NoCores(nodes[..|nodes| - 1]);
    }
  }

  lemma QuotientAtLeast(x: real, y: real, n: real)
    requires n > 0.0 && x * n <= y * n
    ensures x <= y
  {
    assert (y - x) * n == y * n - x * n;
  }

  lemma QuotientBetween(lo: real, x: real, hi: real, n: int)
    requires n > 0 && lo * n as real <= x <= hi * n as real
    ensures lo <= Quotient(x, n) <= hi
  {
    var d := n as real;
    assert Quotient(x, n) * d == x;
    QuotientAtLeast(lo, Quotient(x, n), d);
    QuotientAtLeast(Quotient(x, n), hi, d);
  }

  /** Memory used is within the total where it is on every node. */
  lemma {:induction false} MemoryWithinTotal(nodes: seq<Resource>)
    requires forall i :: 0 <= i < |nodes| && nodes[i].NodeResource? ==> nodes[i].mem <= nodes[i].maxmem
    ensures Memory(nodes, false) <= Memory(nodes, true)
  {
    if nodes == [] {
    } else {
      MemoryWithinTotal(nodes[..|nodes| - 1]);
    }
  }

  // ---- the same, of the resource list --------------------------------------------------------------------

  lemma {:induction false} NodesMeaning(resources: seq<Resource>, res: Resource)
    ensures res in NodesOf(resources) <==> res.NodeResource? && res in resources
  {
    if resources == [] {
    } else {
      var n := |resources| - 1;
      NodesMeaning(resources[..n], res);
      assert resources == resources[..n] + [resources[n]];
    }
  }

  lemma {:induction false} StatusMeaning(nodes: seq<Resource>, online: bool, res: Resource)
    ensures res in WithStatus(nodes, online) <==> res in nodes && res.NodeResource? && res.online == online
  {
    if nodes == [] {
    } else {
      var n := |nodes| - 1;
      StatusMeaning(nodes[..n], online, res);
      assert nodes == nodes[..n] + [nodes[n]];
    }
  }

  predicate IsOnline(res: Resource) {
    res.NodeResource? && res.online
  }

  /** What `from_resources` adds up, for bounds that hold of the nodes online. */
  lemma SummaryIsBounded(resources: seq<Resource>, lo: real, hi: real)
    requires forall res :: res in resources && IsOnline(res) && res.maxcpu > 0 ==> lo <= res.cpu <= hi
    requires forall res :: res in resources && IsOnline(res) ==> res.mem <= res.maxmem
    ensures var nodes := NodesOf(resources);
      var online := WithStatus(nodes, true);
      && |online| + |WithStatus(nodes, false)| == |nodes|
      && (CpuOf(online).Some? ==> lo <= CpuOf(online).value <= hi)
      && Memory(online, false) <= Memory(online, true)
  {
    var nodes := NodesOf(resources);
    var online := WithStatus(nodes, true);
    forall i | 0 <= i < |online|
      ensures IsOnline(online[i]) && online[i] in resources
    {
      StatusMeaning(nodes, true, online[i]);
      NodesMeaning(resources, online[i]);
    }
    forall i | 0 <= i < |nodes|
      ensures nodes[i].NodeResource?
    {
      NodesMeaning(resources, nodes[i]);
    }
    OnlineAndOffline(nodes);
    CpuIsAnAverage(online, lo, hi);
    MemoryWithinTotal(online);
  }

  // ---- guests and names ------------------------------------------------------------------------------------

  /** The positions of the guests of one kind, or of those that run. */
  function Positions(resources: seq<Resource>, vm: bool, running: bool): set<int> {
    set i | 0 <= i < |resources| && (if vm then resources[i].Qemu? else resources[i].Container?)
            && !resources[i].isTemplate && (running ==> resources[i].running)
  }

  lemma OneMorePosition(resources: seq<Resource>, vm: bool, running: bool)
    requires resources != []
    ensures var n := |resources| - 1;
      |Positions(resources, vm, running)| == |Positions(resources[..n], vm, running)|
        + if Counts(resources[n], vm) && (running ==> resources[n].running) then 1 else 0
  {
    var n := |resources| - 1;
    var before := Positions(resources[..n], vm, running);
    assert n !in before;
    assert Positions(resources, vm, running) ==
           before + if Counts(resources[n], vm) && (running ==> resources[n].running) then {n} else {};
  }

  /** The counts of guests are those of the entries of their kind that are no templates, and of those
      that run. */
  lemma {:induction false} GuestsAreCounted(resources: seq<Resource>, vm: bool)
    ensures |Guests(resources, vm)| == |Positions(resources, vm, false)|
    ensures Running(Guests(resources, vm)) == |Positions(resources, vm, true)|
  {
    if resources == [] {
    } else {
      GuestsAreCounted(resources[..|resources| - 1], vm);
      OneMorePosition(resources, vm, false);
      OneMorePosition(resources, vm, true);
    }
  }

  /** The positions of nodes, or of those with one status. */
  function NodePositions(resources: seq<Resource>): set<int> {
    set i | 0 <= i < |resources| && resources[i].NodeResource?
  }

  function StatusPositions(resources: seq<Resource>, online: bool): set<int> {
    set i | 0 <= i < |resources| && resources[i].NodeResource? && resources[i].online == online
  }

  lemma OneMoreNodePosition(resources: seq<Resource>, online: bool)
    requires resources != []
    ensures var n := |resources| - 1;
      && |NodePositions(resources)| == |NodePositions(resources[..n])| + (if resources[n].NodeResource? then 1 else 0)
      && |StatusPositions(resources, online)| == |StatusPositions(resources[..n], online)|
           + (if resources[n].NodeResource? && resources[n].online == online then 1 else 0)
  {
    var n := |resources| - 1;
    var nodes, some := NodePositions(resources[..n]), StatusPositions(resources[..n], online);
    assert NodePositions(resources) == nodes + (if resources[n].NodeResource? then {n} else {});
    assert StatusPositions(resources, online) ==
           some + (if resources[n].NodeResource? && resources[n].online == online then {n} else {});
  }

  /** The counts of nodes are those of the entries: all of them, and those online or not. */
  lemma {:induction false} NodesAreCounted(resources: seq<Resource>, online: bool)
    ensures |NodesOf(resources)| == |NodePositions(resources)|
    ensures |WithStatus(NodesOf(resources), online)| == |StatusPositions(resources, online)|
  {
    if resources == [] {
    } else {
      var n := |resources| - 1;
      NodesAreCounted(resources[..n], online);
      OneMoreNodePosition(resources, online);
      if resources[n].NodeResource? {
        var nodes := NodesOf(resources[..n]);
        assert (nodes + [resources[n]])[..|nodes|] == nodes;
      }
    }
  }

  lemma {:induction false} NamesMeaning(nodes: seq<Resource>, name: string)
    requires forall i :: 0 <= i < |nodes| ==> nodes[i].NodeResource?
    ensures |Names(nodes)| == |nodes|
    ensures name in Names(nodes) <==> exists i :: 0 <= i < |nodes| && nodes[i].node == name
  {
    if nodes == [] {
    } else {
      NamesMeaning(nodes[..|nodes| - 1], name);
    }
  }

  predicate IsOffline(res: Resource, name: string) {
    res.NodeResource? && !res.online && res.node == name
  }

  /** Sorting keeps the names and their number. */
  lemma SortedNames(names: seq<string>, name: string)
    ensures IsSorted(Sort(names)) && |Sort(names)| == |names|
    ensures name in Sort(names) <==> name in names
  {
    SortSorts(names);
    assert |Sort(names)| == |multiset(Sort(names))| == |multiset(names)| == |names|;
    assert name in Sort(names) <==> name in multiset(Sort(names));
    assert name in names <==> name in multiset(names);
  }

  lemma OfflineNodes(resources: seq<Resource>, name: string)
    ensures var offline := WithStatus(NodesOf(resources), false);
      && |Names(offline)| == |offline|
      && (name in Names(offline) <==> exists res :: res in resources && IsOffline(res, name))
  {
    var offline := WithStatus(NodesOf(resources), false);
    forall res
      ensures res in offline <==> res in resources && res.NodeResource? && !res.online
    {
      NodesMeaning(resources, res);
      StatusMeaning(NodesOf(resources), false, res);
    }
    forall i | 0 <= i < |offline|
      ensures offline[i].NodeResource?
    {
      assert offline[i] in offline;
    }
    NamesMeaning(offline, name);
    if res: Resource :| res in resources && IsOffline(res, name) {
      assert res in offline;
    }
    if i :| 0 <= i < |offline| && offline[i].node == name {
      assert IsOffline(offline[i], name) && offline[i] in offline;
    }
  }

  /** The names of offline nodes are in order, and exactly those of the nodes in the list that are not
      online, one for each. */
  lemma OfflineNames(resources: seq<Resource>, name: string)
    ensures var offline := WithStatus(NodesOf(resources), false);
      var names := Sort(Names(offline));
      && IsSorted(names) && |names| == |offline|
      && (name in names <==> exists res :: res in resources && IsOffline(res, name))
  {
    OfflineNodes(resources, name);
    SortedNames(Names(WithStatus(NodesOf(resources), false)), name);
  }
}
