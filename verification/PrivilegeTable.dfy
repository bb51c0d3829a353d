/** The generated table: which privileges each route requires, by method and path template. */
module PrivilegeTable {
  import opened Strings

  /** One path of a template, split at its slashes. */
  datatype Segment = Lit(text: Word) | Slot(name: Word)

  datatype Privileges = Privileges(path: string, privileges: seq<string>, anyOf: bool)

  datatype Row = Row(verb: string, segments: seq<Segment>, entry: seq<Privileges>)

  // The words of the routes.
  const AGENT: Word := "agent"
  const APT: Word := "apt"
  const ARM_HA: Word := "arm-ha"
  const BACKUP_INFO: Word := "backup-info"
  const CEPH: Word := "ceph"
  const CLUSTER: Word := "cluster"
  const CONFIG: Word := "config"
  const CURRENT: Word := "current"
  const DISARM_HA: Word := "disarm-ha"
  const DISKS: Word := "disks"
  const GET_FSINFO: Word := "get-fsinfo"
  const HA: Word := "ha"
  const INTERFACES: Word := "interfaces"
  const LIST: Word := "list"
  const LXC: Word := "lxc"
  const NETWORK_GET_INTERFACES: Word := "network-get-interfaces"
  const NODES: Word := "nodes"
  const NOT_BACKED_UP: Word := "not-backed-up"
  const PING: Word := "ping"
  const QEMU: Word := "qemu"
  const REBOOT: Word := "reboot"
  const RESET: Word := "reset"
  const RESUME: Word := "resume"
  const SHUTDOWN: Word := "shutdown"
  const SMART: Word := "smart"
  const SNAPSHOT: Word := "snapshot"
  const START: Word := "start"
  const STATUS: Word := "status"
  const STOP: Word := "stop"
  const SUSPEND: Word := "suspend"
  const UPDATE: Word := "update"
  const WAKEONLAN: Word := "wakeonlan"
  const ZFS: Word := "zfs"
  const NODE_ID: Word := "node"
  const VMID: Word := "vmid"

  function Cluster(tail: seq<Segment>): seq<Segment> {
    [Lit(CLUSTER)] + tail
  }

  function Node(tail: seq<Segment>): seq<Segment> {
    [Lit(NODES), Slot(NODE_ID)] + tail
  }

  function Guest(kind: Word, tail: seq<Segment>): seq<Segment> {
    [Lit(NODES), Slot(NODE_ID), Lit(kind), Slot(VMID)] + tail
  }

  function All(path: string, privilege: string): seq<Privileges> {
    [Privileges(path, [privilege], false)]
  }

  const ROOT_PATH := "/"
  const NODE_PATH := "/nodes/{node}"
  const VM_PATH := "/vms/{vmid}"

  function Agent(): seq<Privileges> {
    [Privileges(VM_PATH, ["VM.GuestAgent.Audit", "VM.GuestAgent.Unrestricted"], true)]
  }

  const ROWS: nat := 38

  /** The rows of `CHECKS`, in its order. */
  function Checks(k: nat): Row
    requires k < ROWS
  {
    match k
    case 0 => Row("GET", Cluster([Lit(BACKUP_INFO), Lit(NOT_BACKED_UP)]), All(ROOT_PATH, "Sys.Audit"))
    case 1 => Row("GET", Cluster([Lit(CEPH), Lit(STATUS)]),
                  [Privileges(ROOT_PATH, ["Sys.Audit", "Datastore.Audit"], true)])
    case 2 => Row("GET", Cluster([Lit(HA), Lit(STATUS), Lit(CURRENT)]), All(ROOT_PATH, "Sys.Audit"))
    case 3 => Row("GET", Cluster([Lit(STATUS)]), All(ROOT_PATH, "Sys.Audit"))
    case 4 => Row("GET", Node([Lit(APT), Lit(UPDATE)]), All(NODE_PATH, "Sys.Modify"))
    case 5 => Row("GET", Node([Lit(DISKS), Lit(LIST)]), All(ROOT_PATH, "Sys.Audit") + All(NODE_PATH, "Sys.Audit"))
    case 6 => Row("GET", Node([Lit(DISKS), Lit(SMART)]), All(ROOT_PATH, "Sys.Audit"))
    case 7 => Row("GET", Node([Lit(DISKS), Lit(ZFS)]), All(ROOT_PATH, "Sys.Audit"))
    case 8 => Row("GET", Guest(LXC, [Lit(INTERFACES)]), All(VM_PATH, "VM.Audit"))
    case 9 => Row("GET", Guest(LXC, [Lit(SNAPSHOT)]), All(VM_PATH, "VM.Audit"))
    case 10 => Row("GET", Guest(LXC, [Lit(STATUS), Lit(CURRENT)]), All(VM_PATH, "VM.Audit"))
    case 11 => Row("GET", Guest(QEMU, [Lit(AGENT), Lit(GET_FSINFO)]), Agent())
    case 12 => Row("GET", Guest(QEMU, [Lit(AGENT), Lit(NETWORK_GET_INTERFACES)]), Agent())
    case 13 => Row("GET", Guest(QEMU, [Lit(SNAPSHOT)]), All(VM_PATH, "VM.Audit"))
    case 14 => Row("GET", Guest(QEMU, [Lit(STATUS), Lit(CURRENT)]), All(VM_PATH, "VM.Audit"))
    case 15 => Row("GET", Node([Lit(STATUS)]), All(NODE_PATH, "Sys.Audit"))
    case 16 => Row("POST", Cluster([Lit(HA), Lit(STATUS), Lit(ARM_HA)]), All(ROOT_PATH, "Sys.Console"))
    case 17 => Row("POST", Cluster([Lit(HA), Lit(STATUS), Lit(DISARM_HA)]), All(ROOT_PATH, "Sys.Console"))
    case 18 => Row("POST", Guest(LXC, [Lit(SNAPSHOT)]), All(VM_PATH, "VM.Snapshot"))
    case 19 => Row("POST", Guest(LXC, [Lit(STATUS), Lit(REBOOT)]), All(VM_PATH, "VM.PowerMgmt"))
    case 20 => Row("POST", Guest(LXC, [Lit(STATUS), Lit(RESUME)]), All(VM_PATH, "VM.PowerMgmt"))
    case 21 => Row("POST", Guest(LXC, [Lit(STATUS), Lit(SHUTDOWN)]), All(VM_PATH, "VM.PowerMgmt"))
    case 22 => Row("POST", Guest(LXC, [Lit(STATUS), Lit(START)]), All(VM_PATH, "VM.PowerMgmt"))
    case 23 => Row("POST", Guest(LXC, [Lit(STATUS), Lit(STOP)]), All(VM_PATH, "VM.PowerMgmt"))
    case 24 => Row("POST", Guest(LXC, [Lit(STATUS), Lit(SUSPEND)]), All(VM_PATH, "VM.PowerMgmt"))
    case 25 => Row("POST", Guest(QEMU, [Lit(AGENT), Lit(PING)]), Agent())
    case 26 => Row("POST", Guest(QEMU, [Lit(SNAPSHOT)]), All(VM_PATH, "VM.Snapshot"))
    case 27 => Row("POST", Guest(QEMU, [Lit(STATUS), Lit(REBOOT)]), All(VM_PATH, "VM.PowerMgmt"))
    case 28 => Row("POST", Guest(QEMU, [Lit(STATUS), Lit(RESET)]), All(VM_PATH, "VM.PowerMgmt"))
    case 29 => Row("POST", Guest(QEMU, [Lit(STATUS), Lit(RESUME)]), All(VM_PATH, "VM.PowerMgmt"))
    case 30 => Row("POST", Guest(QEMU, [Lit(STATUS), Lit(SHUTDOWN)]), All(VM_PATH, "VM.PowerMgmt"))
    case 31 => Row("POST", Guest(QEMU, [Lit(STATUS), Lit(START)]), All(VM_PATH, "VM.PowerMgmt"))
    case 32 => Row("POST", Guest(QEMU, [Lit(STATUS), Lit(STOP)]), All(VM_PATH, "VM.PowerMgmt"))
    case 33 => Row("POST", Guest(QEMU, [Lit(STATUS), Lit(SUSPEND)]), All(VM_PATH, "VM.PowerMgmt"))
    case 34 => Row("POST", Node([Lit(STATUS)]), All(NODE_PATH, "Sys.PowerMgmt"))
    case 35 => Row("POST", Node([Lit(WAKEONLAN)]), All(NODE_PATH, "Sys.PowerMgmt"))
    case 36 => Row("PUT", Guest(LXC, [Lit(CONFIG)]),
                   [Privileges(VM_PATH, ["VM.Config.Disk", "VM.Config.CPU", "VM.Config.Memory", "VM.Config.Network",
                                    "VM.Config.Options"], true)])
    case 37 => Row("PUT", Guest(QEMU, [Lit(CONFIG)]),
                   [Privileges(VM_PATH, ["VM.Config.Disk", "VM.Config.CDROM", "VM.Config.CPU", "VM.Config.Memory",
                                    "VM.Config.Network", "VM.Config.HWType", "VM.Config.Options",
                                    "VM.Config.Cloudinit"], true)])
  }

  predicate AgreesAt(segments: seq<Segment>, parts: seq<string>, i: nat)
    requires i < |segments| == |parts|
  {
    segments[i].Lit? ==> segments[i].text == parts[i]
  }

  /** The route template fits a concrete path. */
  predicate Fits(segments: seq<Segment>, parts: seq<string>) {
    |segments| == |parts| && forall i :: 0 <= i < |parts| ==> AgreesAt(segments, parts, i)
  }

  // ---- no two templates of a method fit one path ---------------------------------------------------------

  /** Reads a concrete path word by word, as an independent account of the table. */
  function RouteOf(verb: string, parts: seq<string>): nat {
    match |parts|
    case 2 => 3
    case 3 =>
      if verb == "POST" then (if parts[2] == "status" then 34 else 35)
      else if parts[0] == "nodes" then 15 else if parts[1] == "ceph" then 1 else 0
    case 4 =>
      if verb == "POST" then (if parts[3] == "arm-ha" then 16 else 17)
      else if parts[0] == "cluster" then 2 else if parts[2] == "apt" then 4
      else if parts[3] == "list" then 5 else if parts[3] == "smart" then 6 else 7
    case 5 =>
      if verb == "PUT" then (if parts[2] == "lxc" then 36 else 37)
      else if verb == "POST" then (if parts[2] == "lxc" then 18 else 26)
      else if parts[2] == "qemu" then 13 else if parts[4] == "snapshot" then 9 else 8
    case 6 =>
      if verb == "GET" then
        (if parts[2] == "lxc" then 10 else if parts[5] == "current" then 14
         else if parts[5] == "get-fsinfo" then 11 else 12)
      else PowerRoute(parts[2] == "lxc", parts[5])
    case _ => ROWS
  }

  function PowerRoute(lxc: bool, verb: string): nat {
    if verb == "reboot" then (if lxc then 19 else 27)
    else if verb == "resume" then (if lxc then 20 else 29)
    else if verb == "shutdown" then (if lxc then 21 else 30)
    else if verb == "start" then (if lxc then 22 else 31)
    else if verb == "stop" then (if lxc then 23 else 32)
    else if verb == "suspend" then (if lxc then 24 else 33)
    else if verb == "ping" then 25 else 28
  }

  predicate AgreesAtAll(segments: seq<Segment>, parts: seq<string>) {
    && |segments| == |parts| <= 6
    && (|parts| > 0 ==> AgreesAt(segments, parts, 0))
    && (|parts| > 1 ==> AgreesAt(segments, parts, 1))
    && (|parts| > 2 ==> AgreesAt(segments, parts, 2))
    && (|parts| > 3 ==> AgreesAt(segments, parts, 3))
    && (|parts| > 4 ==> AgreesAt(segments, parts, 4))
    && (|parts| > 5 ==> AgreesAt(segments, parts, 5))
  }

  lemma ReadsGet(k: nat, parts: seq<string>)
    requires k < 16 && AgreesAtAll(Checks(k).segments, parts)
    ensures RouteOf(Checks(k).verb, parts) == k
  {
  }

  lemma ReadsPut(k: nat, parts: seq<string>)
    requires 36 <= k < 38 && AgreesAtAll(Checks(k).segments, parts)
    ensures RouteOf(Checks(k).verb, parts) == k
  {
  }

  lemma ReadsOtherPost(k: nat, parts: seq<string>)
    requires k in [16, 17, 18, 26, 34, 35] && AgreesAtAll(Checks(k).segments, parts)
    ensures RouteOf(Checks(k).verb, parts) == k
  {
  }

  lemma ReadsContainerPower(k: nat, parts: seq<string>)
    requires 19 <= k < 25 && AgreesAtAll(Checks(k).segments, parts)
    ensures RouteOf(Checks(k).verb, parts) == k
  {
  }

  lemma ReadsVmPower(k: nat, parts: seq<string>)
    requires (k == 25 || 27 <= k < 34) && AgreesAtAll(Checks(k).segments, parts)
    ensures RouteOf(Checks(k).verb, parts) == k
  {
  }

  lemma ReadsRow(k: nat, parts: seq<string>)
    requires k < ROWS && Fits(Checks(k).segments, parts)
    ensures RouteOf(Checks(k).verb, parts) == k
  {
    assert AgreesAtAll(Checks(k).segments, parts);
    if k < 16 {
      ReadsGet(k, parts);
    } else if k >= 36 {
      ReadsPut(k, parts);
    } else if k in [16, 17, 18, 26, 34, 35] {
      ReadsOtherPost(k, parts);
    } else if k < 25 {
      ReadsContainerPower(k, parts);
    } else {
      ReadsVmPower(k, parts);
    }
  }

  /** For every path and method at most one row fits, so the order of the table says nothing. */
  lemma AtMostOneRowFits(k: nat, l: nat, parts: seq<string>)
    requires k < ROWS && l < ROWS && Checks(k).verb == Checks(l).verb
    requires Fits(Checks(k).segments, parts) && Fits(Checks(l).segments, parts)
    ensures k == l
  {
    ReadsRow(k, parts);
    ReadsRow(l, parts);
  }
}
