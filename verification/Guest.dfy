/** A guest's disk usage out of its filesystems: every device counts once, at its largest figure. */
module Guest {
  import opened Wrappers
  import opened Sums

  /** One entry of the `disk` list; `dev` may be missing or empty. */
  datatype Disk = Dict(dev: Option<string>) | NotADict

  datatype Filesystem = Filesystem(name: string, used: Option<int>, total: Option<int>, disk: seq<Disk>)

  /** The device behind the filesystem, or its name when the agent gives none. */
  function Device(f: Filesystem): string {
    if f.disk != [] && f.disk[0].Dict? && f.disk[0].dev.Some? && f.disk[0].dev.value != ""
    then f.disk[0].dev.value
    else f.name
  }

  predicate Contributes(f: Filesystem) {
    f.disk != [] && f.used.Some?
  }

  function Max(a: int, b: int): int {
    if a < b then b else a
  }

  // ---- what is meant -----------------------------------------------------------------------------------

  predicate HasDevice(fs: seq<Filesystem>, device: string) {
    exists i :: 0 <= i < |fs| && Contributes(fs[i]) && Device(fs[i]) == device
  }

  predicate HasTotal(fs: seq<Filesystem>, device: string) {
    exists i :: 0 <= i < |fs| && Contributes(fs[i]) && Device(fs[i]) == device && fs[i].total.Some?
  }

  /** The largest used figure of a device, and never less than nothing. */
  predicate IsLargestUsed(fs: seq<Filesystem>, device: string, n: int) {
    && n >= 0
    && (forall i :: 0 <= i < |fs| && Contributes(fs[i]) && Device(fs[i]) == device ==> fs[i].used.value <= n)
    && (n == 0 || exists i :: 0 <= i < |fs| && Contributes(fs[i]) && Device(fs[i]) == device && fs[i].used.value == n)
  }

  predicate IsLargestTotal(fs: seq<Filesystem>, device: string, n: int) {
    && n >= 0
    && (forall i :: 0 <= i < |fs| && Contributes(fs[i]) && Device(fs[i]) == device && fs[i].total.Some? ==> fs[i].total.value <= n)
    && (n == 0 || exists i :: 0 <= i < |fs| && Contributes(fs[i]) && Device(fs[i]) == device && fs[i].total == Some(n))
  }

  // ---- the loop ------------------------------------------------------------------------------------------

  lemma HasDeviceSteps(fs: seq<Filesystem>, f: Filesystem, device: string)
    ensures HasDevice(fs + [f], device) <==> HasDevice(fs, device) || (Contributes(f) && Device(f) == device)
    ensures HasTotal(fs + [f], device) <==> HasTotal(fs, device) || (Contributes(f) && Device(f) == device && f.total.Some?)
  {
    assert (fs + [f])[|fs|] == f;
    if HasDevice(fs, device) {
      var i :| 0 <= i < |fs| && Contributes(fs[i]) && Device(fs[i]) == device;
      assert (fs + [f])[i] == fs[i];
    }
    if HasTotal(fs, device) {
      var i :| 0 <= i < |fs| && Contributes(fs[i]) && Device(fs[i]) == device && fs[i].total.Some?;
      assert (fs + [f])[i] == fs[i];
    }
  }

  lemma UsedSteps(fs: seq<Filesystem>, f: Filesystem, device: string, n: int)
    requires IsLargestUsed(fs, device, n)
    ensures Contributes(f) && Device(f) == device ==> IsLargestUsed(fs + [f], device, Max(n, f.used.value))
    ensures !(Contributes(f) && Device(f) == device) ==> IsLargestUsed(fs + [f], device, n)
  {
    assert (fs + [f])[|fs|] == f;
    if n != 0 {
      var i :| 0 <= i < |fs| && Contributes(fs[i]) && Device(fs[i]) == device && fs[i].used.value == n;
      assert (fs + [f])[i] == fs[i];
    }
  }

  lemma TotalSteps(fs: seq<Filesystem>, f: Filesystem, device: string, n: int)
    requires IsLargestTotal(fs, device, n)
    ensures Contributes(f) && Device(f) == device && f.total.Some? ==> IsLargestTotal(fs + [f], device, Max(n, f.total.value))
    ensures !(Contributes(f) && Device(f) == device && f.total.Some?) ==> IsLargestTotal(fs + [f], device, n)
  {
    assert (fs + [f])[|fs|] == f;
    if n != 0 {
      var i :| 0 <= i < |fs| && Contributes(fs[i]) && Device(fs[i]) == device && fs[i].total == Some(n);
      assert (fs + [f])[i] == fs[i];
    }
  }

  lemma NothingYet(fs: seq<Filesystem>, device: string)
    ensures !HasDevice(fs, device) ==> IsLargestUsed(fs, device, 0)
    ensures !HasTotal(fs, device) ==> IsLargestTotal(fs, device, 0)
  {
  }

  function Get(m: map<string, int>, device: string): int {
    if device in m then m[device] else 0
  }

  function WithUsed(m: map<string, int>, f: Filesystem): map<string, int> {
    if Contributes(f) then m[Device(f) := Max(Get(m, Device(f)), f.used.value)] else m
  }

  function WithTotal(m: map<string, int>, f: Filesystem): map<string, int> {
    if Contributes(f) && f.total.Some? then m[Device(f) := Max(Get(m, Device(f)), f.total.value)] else m
  }

  /** The dictionaries the loop has built after some filesystems. */
  function UsedBy(fs: seq<Filesystem>): map<string, int> {
    if fs == [] then map[] else WithUsed(UsedBy(fs[..|fs| - 1]), fs[|fs| - 1])
  }

  function TotalBy(fs: seq<Filesystem>): map<string, int> {
    if fs == [] then map[] else WithTotal(TotalBy(fs[..|fs| - 1]), fs[|fs| - 1])
  }

  /** They hold the contributing devices, each with its largest figure. */
  lemma {:induction false} UsedByMeaning(fs: seq<Filesystem>, device: string)
    ensures device in UsedBy(fs) <==> HasDevice(fs, device)
    ensures device in UsedBy(fs) ==> IsLargestUsed(fs, device, UsedBy(fs)[device])
  {
    if fs == [] {
    } else {
      var init, last := fs[..|fs| - 1], fs[|fs| - 1];
      assert fs == init + [last];
      UsedByMeaning(init, device);
      HasDeviceSteps(init, last, device);
      NothingYet(init, device);
      if device in UsedBy(fs) {
        UsedSteps(init, last, device, Get(UsedBy(init), device));
      }
    }
  }

  lemma {:induction false} TotalByMeaning(fs: seq<Filesystem>, device: string)
    ensures device in TotalBy(fs) <==> HasTotal(fs, device)
    ensures device in TotalBy(fs) ==> IsLargestTotal(fs, device, TotalBy(fs)[device])
  {
    if fs == [] {
    } else {
      var init, last := fs[..|fs| - 1], fs[|fs| - 1];
      assert fs == init + [last];
      TotalByMeaning(init, device);
      HasDeviceSteps(init, last, device);
      NothingYet(init, device);
      if device in TotalBy(fs) {
        TotalSteps(init, last, device, Get(TotalBy(init), device));
      }
    }
  }

  ghost function Used(fs: seq<Filesystem>): Option<int> {
    if UsedBy(fs).Keys == {} then None else Some(Sum(UsedBy(fs)))
  }

  ghost function Total(fs: seq<Filesystem>): Option<int> {
    if UsedBy(fs).Keys != {} && TotalBy(fs).Keys == UsedBy(fs).Keys then Some(Sum(TotalBy(fs))) else None
  }

  /** `guest_disk_usage`: the sums of the largest figures; a total only if both dictionaries are about
      the same devices. */
  method GuestDiskUsage(fs: seq<Filesystem>) returns (used: Option<int>, total: Option<int>)
    ensures used == Used(fs) && total == Total(fs)
  {
    var usedBy: map<string, int>, totalBy: map<string, int> := map[], map[];
    for i := 0 to |fs|
      invariant usedBy == UsedBy(fs[..i]) && totalBy == TotalBy(fs[..i])
    {
      var f := fs[i];
      assert fs[..i + 1][..i] == fs[..i];
      if f.disk == [] || f.used.None? {
        continue;
      }
      var device := Device(f);
      usedBy := usedBy[device := Max(Get(usedBy, device), f.used.value)];
      if f.total.Some? {
        totalBy := totalBy[device := Max(Get(totalBy, device), f.total.value)];
      }
    }
    assert fs[..|fs|] == fs;
    if usedBy.Keys == {} {
      return None, None;
    }
    var sum := SumValues(usedBy);
    used, total := Some(sum), None;
    if totalBy.Keys == usedBy.Keys {
      var all := SumValues(totalBy);
      total := Some(all);
    }
  }

  // ---- what the figures say --------------------------------------------------------------------------------

  ghost predicate SameFilesystems(a: seq<Filesystem>, b: seq<Filesystem>) {
    forall f :: f in a <==> f in b
  }

  lemma SameDevices(a: seq<Filesystem>, b: seq<Filesystem>, device: string)
    requires SameFilesystems(a, b)
    ensures HasDevice(a, device) ==> HasDevice(b, device)
    ensures HasTotal(a, device) ==> HasTotal(b, device)
  {
    if HasDevice(a, device) {
      var i :| 0 <= i < |a| && Contributes(a[i]) && Device(a[i]) == device;
      assert a[i] in b;
    }
    if HasTotal(a, device) {
      var i :| 0 <= i < |a| && Contributes(a[i]) && Device(a[i]) == device && a[i].total.Some?;
      assert a[i] in b;
    }
  }

  lemma LargestIsOne(a: seq<Filesystem>, b: seq<Filesystem>, device: string, m: int, n: int)
    requires SameFilesystems(a, b)
    ensures IsLargestUsed(a, device, m) && IsLargestUsed(b, device, n) ==> m <= n
    ensures IsLargestTotal(a, device, m) && IsLargestTotal(b, device, n) ==> m <= n
  {
    if IsLargestUsed(a, device, m) && IsLargestUsed(b, device, n) && m != 0 {
      var i :| 0 <= i < |a| && Contributes(a[i]) && Device(a[i]) == device && a[i].used.value == m;
      assert a[i] in b;
    }
    if IsLargestTotal(a, device, m) && IsLargestTotal(b, device, n) && m != 0 {
      var i :| 0 <= i < |a| && Contributes(a[i]) && Device(a[i]) == device && a[i].total == Some(m);
      assert a[i] in b;
    }
  }

  lemma SameFigures(a: seq<Filesystem>, b: seq<Filesystem>, device: string)
    requires SameFilesystems(a, b)
    ensures device in UsedBy(a) <==> device in UsedBy(b)
    ensures device in UsedBy(a) ==> UsedBy(a)[device] == UsedBy(b)[device]
    ensures device in TotalBy(a) <==> device in TotalBy(b)
    ensures device in TotalBy(a) ==> TotalBy(a)[device] == TotalBy(b)[device]
  {
    UsedByMeaning(a, device);
    UsedByMeaning(b, device);
    TotalByMeaning(a, device);
    TotalByMeaning(b, device);
    SameDevices(a, b, device);
    SameDevices(b, a, device);
    if device in UsedBy(a) {
      LargestIsOne(a, b, device, UsedBy(a)[device], UsedBy(b)[device]);
      LargestIsOne(b, a, device, UsedBy(b)[device], UsedBy(a)[device]);
    }
    if device in TotalBy(a) {
      LargestIsOne(a, b, device, TotalBy(a)[device], TotalBy(b)[device]);
      LargestIsOne(b, a, device, TotalBy(b)[device], TotalBy(a)[device]);
    }
  }

  /** Reordering filesystems, or listing one again, never changes the figures. */
  lemma OrderAndRepeatsDoNotMatter(a: seq<Filesystem>, b: seq<Filesystem>)
    requires SameFilesystems(a, b)
    ensures Used(a) == Used(b) && Total(a) == Total(b)
  {
    forall device
      ensures device in UsedBy(a) <==> device in UsedBy(b)
      ensures device in UsedBy(a) ==> UsedBy(a)[device] == UsedBy(b)[device]
      ensures device in TotalBy(a) <==> device in TotalBy(b)
      ensures device in TotalBy(a) ==> TotalBy(a)[device] == TotalBy(b)[device]
    {
      SameFigures(a, b, device);
    }
    assert UsedBy(a) == UsedBy(b);
    assert TotalBy(a) == TotalBy(b);
  }

  lemma TotalsAreOfDevices(fs: seq<Filesystem>, device: string)
    ensures device in TotalBy(fs) ==> device in UsedBy(fs)
  {
    UsedByMeaning(fs, device);
    TotalByMeaning(fs, device);
  }

  /** A total is given exactly if there is a contributing device and each has reported one at least once. */
  lemma WhenATotalIsGiven(fs: seq<Filesystem>)
    ensures Used(fs).Some? <==> exists device :: HasDevice(fs, device)
    ensures Total(fs).Some? <==> Used(fs).Some? && forall device :: HasDevice(fs, device) ==> HasTotal(fs, device)
  {
    forall device
      ensures device in UsedBy(fs).Keys <==> HasDevice(fs, device)
      ensures device in TotalBy(fs).Keys <==> HasTotal(fs, device)
      ensures device in TotalBy(fs).Keys ==> device in UsedBy(fs).Keys
    {
      UsedByMeaning(fs, device);
      TotalByMeaning(fs, device);
      TotalsAreOfDevices(fs, device);
    }
    assert TotalBy(fs).Keys == UsedBy(fs).Keys <==> UsedBy(fs).Keys <= TotalBy(fs).Keys;
  }

  lemma UsedWithinTotalOf(fs: seq<Filesystem>, device: string, used: int, total: int)
    requires forall i :: 0 <= i < |fs| && Contributes(fs[i]) ==> fs[i].total.Some? && fs[i].used.value <= fs[i].total.value
    requires IsLargestUsed(fs, device, used) && IsLargestTotal(fs, device, total)
    ensures used <= total
  {
    if used != 0 {
      var j :| 0 <= j < |fs| && Contributes(fs[j]) && Device(fs[j]) == device && fs[j].used.value == used;
      assert fs[j].total.value <= total;
    }
  }

  /** Where every contributing filesystem reports a total no smaller than its used figure, used does
      not exceed the total. */
  lemma UsedWithinTotal(fs: seq<Filesystem>)
    requires forall i :: 0 <= i < |fs| && Contributes(fs[i]) ==> fs[i].total.Some? && fs[i].used.value <= fs[i].total.value
    ensures Used(fs).Some? <==> Total(fs).Some?
    ensures Used(fs).Some? ==> Used(fs).value <= Total(fs).value
  {
    forall device
      ensures device in UsedBy(fs).Keys <==> device in TotalBy(fs).Keys
      ensures device in UsedBy(fs) ==> UsedBy(fs)[device] <= TotalBy(fs)[device]
    {
      DeviceWithinTotal(fs, device);
    }
    assert UsedBy(fs).Keys == TotalBy(fs).Keys;
    SumMonotone(UsedBy(fs), TotalBy(fs));
  }

  lemma DeviceWithinTotal(fs: seq<Filesystem>, device: string)
    requires forall i :: 0 <= i < |fs| && Contributes(fs[i]) ==> fs[i].total.Some? && fs[i].used.value <= fs[i].total.value
    ensures device in UsedBy(fs) <==> device in TotalBy(fs)
    ensures device in UsedBy(fs) ==> UsedBy(fs)[device] <= TotalBy(fs)[device]
  {
    UsedByMeaning(fs, device);
    TotalByMeaning(fs, device);
    assert HasDevice(fs, device) ==> HasTotal(fs, device);
    if device in UsedBy(fs) {
      UsedWithinTotalOf(fs, device, UsedBy(fs)[device], TotalBy(fs)[device]);
    }
  }

  // ---- one filesystem more ----------------------------------------------------------------------------------

  /** A filesystem without a disk or a used figure is left out. */
  lemma WithoutDiskIsLeftOut(fs: seq<Filesystem>, name: string, used: Option<int>, total: Option<int>, disk: seq<Disk>)
    requires disk == [] || used == None
    ensures var more := fs + [Filesystem(name, used, total, disk)];
      UsedBy(more) == UsedBy(fs) && TotalBy(more) == TotalBy(fs) && Used(more) == Used(fs) && Total(more) == Total(fs)
  {
    assert (fs + [Filesystem(name, used, total, disk)])[..|fs|] == fs;
  }

  /** Every other one counts for the device named by its first disk, or else under its own name, at the
      larger of its figure and what was reported for it before. */
  lemma OneMoreMount(fs: seq<Filesystem>, name: string, used: int, total: Option<int>, disk: seq<Disk>)
    requires disk != []
    ensures var more := fs + [Filesystem(name, Some(used), total, disk)];
      var device := if disk[0] == NotADict || disk[0] == Dict(None) || disk[0] == Dict(Some("")) then name
                    else disk[0].dev.value;
      && UsedBy(more) == UsedBy(fs)[device := Max(if device in UsedBy(fs) then UsedBy(fs)[device] else 0, used)]
      && TotalBy(more) == if total.None? then TotalBy(fs)
                          else TotalBy(fs)[device := Max(if device in TotalBy(fs) then TotalBy(fs)[device] else 0, total.value)]
  {
    assert (fs + [Filesystem(name, Some(used), total, disk)])[..|fs|] == fs;
  }

  lemma SumOfOne(dev: string, m: int)
    ensures Sum(map[dev := m]) == m
  {
    SumAdds(map[], dev, m);
    assert map[][dev := m] == map[dev := m];
  }

  lemma SumOfTwo(dev: string, other: string, m: int, n: int)
    requires dev != other
    ensures Sum(map[dev := m, other := n]) == m + n
  {
    SumOfOne(dev, m);
    SumAdds(map[dev := m], other, n);
  }

  function Mount(name: string, used: int, dev: string): Filesystem {
    Filesystem(name, Some(used), None, [Dict(Some(dev))])
  }

  lemma TwoMounts(one: string, two: string, dev: string, other: string, m: nat, n: nat)
    requires dev != "" && other != ""
    ensures UsedBy([Mount(one, m, dev), Mount(two, n, other)]) ==
            if dev == other then map[dev := Max(m, n)] else map[dev := m, other := n]
  {
    var a, b := Mount(one, m, dev), Mount(two, n, other);
    assert [] + [a] == [a] && [a] + [b] == [a, b];
    OneMoreMount([], one, m, None, [Dict(Some(dev))]);
    assert UsedBy([a]) == map[dev := m];
    OneMoreMount([a], two, n, None, [Dict(Some(other))]);
  }

  /** Two mounts of one device are one device, whatever their names; two devices are two. */
  lemma MountsOfOneDevice(one: string, two: string, dev: string, other: string, m: nat, n: nat)
    requires dev != "" && other != "" && dev != other
    ensures Used([Mount(one, m, dev), Mount(two, n, dev)]) == Some(if m < n then n else m)
    ensures Used([Mount(one, m, dev), Mount(two, n, other)]) == Some(m + n)
  {
    TwoMounts(one, two, dev, dev, m, n);
    TwoMounts(one, two, dev, other, m, n);
    SumOfOne(dev, Max(m, n));
    SumOfTwo(dev, other, m, n);
    assert dev in map[dev := Max(m, n)].Keys && dev in map[dev := m, other := n].Keys;
  }

  /** The test is by device, not by filesystem: of two mounts of one device, one without a total does
      not withhold it, and used can then exceed the total. */
  lemma OneTotalPerDeviceIsEnough(name: string)
    ensures var disk := [Dict(Some("sda"))];
      var fs := [Filesystem(name, Some(10), None, disk), Filesystem(name, Some(5), Some(6), disk)];
      Used(fs) == Some(10) && Total(fs) == Some(6)
  {
    var disk := [Dict(Some("sda"))];
    var one, two := Filesystem(name, Some(10), None, disk), Filesystem(name, Some(5), Some(6), disk);
    assert [one, two][..1] == [one] && [one][..0] == [];
    assert UsedBy([one]) == map["sda" := 10] && TotalBy([one]) == map[];
    assert UsedBy([one, two]) == map["sda" := 10] && TotalBy([one, two]) == map["sda" := 6];
    SumAdds(map[], "sda", 10);
    SumAdds(map[], "sda", 6);
    assert "sda" in UsedBy([one, two]).Keys;
  }
}
