/**
 * The record filters and joins of services/usb-archiver/misc.js (the same
 * `getAllPartsInfo`, `getAllFsInfo` and `mergePartAndSpace` appear again in
 * archiver.js). The operating-system queries (`si.blockDevices`, `si.fsSize`,
 * `si.usb`, `udev.list`) are the sequence parameters of these functions.
 *
 * JavaScript records are objects whose absent keys read as `undefined`; a
 * field that only some records carry is an `Option` here.
 */
module Misc {
  import opened Text
  import opened Seqs

  /**
   * A partition as listed by `si.blockDevices()`. The joins add fields to the
   * same record: `fs`, `used`, `available` and `use` come from the capacity
   * record of `mergePartAndSpace`, `isUsb3` and `usbBus` from the device
   * record of `getDiskUsbAssign`; until then they are `undefined` (None).
   */
  datatype Part = Part(
    name: String,
    kind: String,        // the `type` key: 'part', 'disk', ...
    fsType: String,
    mount: String,
    volumeLabel: String,
    size: int,
    fs: Option<String>,
    used: Option<int>,
    available: Option<int>,
    use: Option<real>,
    isUsb3: Option<bool>,
    usbBus: Option<String>)

  /** A capacity record as listed by `si.fsSize()`. */
  datatype FsInfo = FsInfo(
    fs: String,
    kind: String,        // the `type` key: the file-system type
    size: int,
    used: int,
    available: int,
    use: real,
    mount: String)

  /** A device record of `udev.list()`; only the keys the filter and the join read. */
  datatype UdevDevice = UdevDevice(
    devPath: String,
    idType: Option<String>,
    devType: Option<String>,
    idFsType: Option<String>,
    idFsLabel: Option<String>)

  /** A device record after `getUdevInfo` added `USB_BUS` and `IS_USB3`. */
  datatype UdevEntry = UdevEntry(dev: UdevDevice, usbBus: String, isUsb3: bool)

  /** A record of `si.usb()`. */
  datatype UsbDevice = UsbDevice(deviceId: Option<int>, bus: Option<int>, name: String)

  /** An operation that either returns a value or throws (a rejected promise). */
  datatype Result<T> = Ok(value: T) | Err(error: String)

  // ---------------------------------------------------------------- filters

  /** The `_.filter({type: 'part', fsType: 'ext4'})` and mount-prefix test of `getAllPartsInfo`. */
  predicate IsFarmPart(p: Part, farmDir: String) {
    p.kind == "part" && p.fsType == "ext4" && StartsWith(p.mount, farmDir)
  }

  /** `getAllPartsInfo(farmDir)` over the block-device listing `devices`. */
  function AllPartsInfo(devices: seq<Part>, farmDir: String): (r: seq<Part>)
    ensures forall i :: 0 <= i < |r| ==> IsFarmPart(r[i], farmDir)
    ensures forall i :: 0 <= i < |devices| && IsFarmPart(devices[i], farmDir) ==> devices[i] in r
  {
    Filter(devices, p => IsFarmPart(p, farmDir))
  }

  /** `getAllPartsInfo` keeps exactly the farm partitions, each as often as listed, in listing order. */
  lemma AllPartsInfoExact(devices: seq<Part>, more: seq<Part>, farmDir: String, p: Part)
    ensures multiset(AllPartsInfo(devices, farmDir))[p]
            == if IsFarmPart(p, farmDir) then multiset(devices)[p] else 0
    ensures AllPartsInfo(devices + more, farmDir)
            == AllPartsInfo(devices, farmDir) + AllPartsInfo(more, farmDir)
  {
    FilterCount(devices, q => IsFarmPart(q, farmDir), p);
    FilterConcat(devices, more, q => IsFarmPart(q, farmDir));
  }

  /** `getAllFsInfo(farmDir)` over the capacity listing `spaces`. */
  function AllFsInfo(spaces: seq<FsInfo>, farmDir: String): (r: seq<FsInfo>)
    ensures forall i :: 0 <= i < |r| ==> StartsWith(r[i].mount, farmDir)
    ensures forall i :: 0 <= i < |spaces| && StartsWith(spaces[i].mount, farmDir) ==> spaces[i] in r
  {
    Filter(spaces, (s: FsInfo) => StartsWith(s.mount, farmDir))
  }

  /** `getAllFsInfo` keeps exactly the capacity records under the farm root, in listing order. */
  lemma AllFsInfoExact(spaces: seq<FsInfo>, more: seq<FsInfo>, farmDir: String, s: FsInfo)
    ensures multiset(AllFsInfo(spaces, farmDir))[s]
            == if StartsWith(s.mount, farmDir) then multiset(spaces)[s] else 0
    ensures AllFsInfo(spaces + more, farmDir)
            == AllFsInfo(spaces, farmDir) + AllFsInfo(more, farmDir)
  {
    FilterCount(spaces, (q: FsInfo) => StartsWith(q.mount, farmDir), s);
    FilterConcat(spaces, more, (q: FsInfo) => StartsWith(q.mount, farmDir));
  }

  // ------------------------------------------------------- capacity join

  /** `{...part, ...fsInfo}`: every key of the capacity record overrides the partition's. */
  function Spread(part: Part, info: FsInfo): (r: Part)
    ensures r.kind == info.kind && r.size == info.size && r.mount == info.mount
    ensures r.fs == Some(info.fs) && r.used == Some(info.used)
    ensures r.available == Some(info.available) && r.use == Some(info.use)
    ensures r.name == part.name && r.fsType == part.fsType && r.volumeLabel == part.volumeLabel
    ensures r.isUsb3 == part.isUsb3 && r.usbBus == part.usbBus
  {
    part.(kind := info.kind, size := info.size, mount := info.mount, fs := Some(info.fs),
          used := Some(info.used), available := Some(info.available), use := Some(info.use))
  }

  /** `_.find(spaces, {mount})` as an index: the first capacity record for `mount`, or -1. */
  function FindSpace(spaces: seq<FsInfo>, mount: String): (k: int)
    ensures -1 <= k < |spaces|
    ensures k >= 0 ==> spaces[k].mount == mount
    ensures forall j :: 0 <= j < (if k < 0 then |spaces| else k) ==> spaces[j].mount != mount
  {
    FirstIndex(spaces, (s: FsInfo) => s.mount == mount)
  }

  /** The join of one partition: spreading `undefined` leaves the partition as it is. */
  function MergeOne(part: Part, spaces: seq<FsInfo>): Part {
    var k := FindSpace(spaces, part.mount);
    if k < 0 then part else Spread(part, spaces[k])
  }

  /** `mergePartAndSpace(parts, spaces)`: a left join on the mount path. */
  function MergePartAndSpace(parts: seq<Part>, spaces: seq<FsInfo>): (r: seq<Part>)
    ensures |r| == |parts|
    ensures forall i :: 0 <= i < |r| ==> r[i].mount == parts[i].mount
    ensures forall i :: 0 <= i < |r| ==>
      var k := FindSpace(spaces, parts[i].mount);
      if k < 0 then r[i] == parts[i] else r[i] == Spread(parts[i], spaces[k])
    ensures forall i :: 0 <= i < |r| ==>
      (r[i].available.Some? <==> parts[i].available.Some? || exists s :: s in spaces && s.mount == parts[i].mount)
  {
    seq(|parts|, i requires 0 <= i < |parts| => MergeOne(parts[i], spaces))
  }

  // ------------------------------------------------------------ udev records

  /** The four conditions of the `udev.list()` filter in `getUdevInfo`. */
  predicate IsUsbExt4Partition(dev: UdevDevice) {
    Contains(dev.devPath, "usb") && dev.idType == Some("disk") &&
    dev.devType == Some("partition") && dev.idFsType == Some("ext4")
  }

  /** The end of the run of digits in `s` that starts at `k`. */
  function DigitRunEnd(s: String, k: nat): (e: nat)
    requires k <= |s|
    ensures k <= e <= |s| && AllDigits(s[k..e])
    ensures e == |s| || !IsDigit(s[e])
    decreases |s| - k
  {
    if k < |s| && IsDigit(s[k]) then
      var e := DigitRunEnd(s, k + 1);
      assert s[k..e] == [s[k]] + s[k + 1..e];
      e
    else k
  }

  /** The regular expression `/\/usb\d+\//` matches `s` at position `i`. */
  predicate BusMatchAt(s: String, i: int) {
    OccursAt(s, "/usb", i) &&
    var e := DigitRunEnd(s, i + 4);
    e > i + 4 && e < |s| && s[e] == '/'
  }

  /** The leftmost match of `/\/usb\d+\//` at or after `from`, or -1. */
  function FindBusMatch(s: String, from: nat): (r: int)
    ensures r == -1 || (from <= r && BusMatchAt(s, r))
    ensures forall j :: from <= j < (if r == -1 then |s| else r) ==> !BusMatchAt(s, j)
    decreases |s| - from
  {
    if from >= |s| then -1
    else if BusMatchAt(s, from) then from
    else FindBusMatch(s, from + 1)
  }

  /**
   * `devPath.match(/\/usb\d+\//)[0].replace(/\//g, '')`: the first
   * `/usb<digits>/` segment without its slashes; None where `match` gives
   * null and the indexing throws.
   */
  function UsbBusOf(devPath: String): (r: Option<String>)
    ensures r.None? <==> forall j :: 0 <= j < |devPath| ==> !BusMatchAt(devPath, j)
    ensures r.Some? ==> |r.value| > 3 && r.value[..3] == "usb" && AllDigits(r.value[3..])
    ensures r.Some? ==> exists i :: OccursAt(devPath, "/" + r.value + "/", i) &&
                                    forall j :: 0 <= j < i ==> !BusMatchAt(devPath, j)
  {
    var i := FindBusMatch(devPath, 0);
    if i == -1 then None
    else
      var e := DigitRunEnd(devPath, i + 4);
      var bus := devPath[i + 1..e];
      assert devPath[i + 1..i + 4] == "usb";
      assert bus[..3] == devPath[i + 1..i + 4];
      assert bus[3..] == devPath[i + 4..e];
      assert devPath[i..i + 4] == "/usb";
      assert devPath[i] == '/' && devPath[e] == '/';
      var pat := "/" + bus + "/";
      assert i + |pat| == e + 1;
      forall k | 0 <= k < |pat| ensures devPath[i..e + 1][k] == pat[k] {
        if 0 < k < |pat| - 1 {
          assert pat[k] == bus[k - 1];
        }
      }
      assert devPath[i..e + 1] == pat;
      assert OccursAt(devPath, pat, i);
      Some(bus)
  }

  /** The usb hubs of `si.usb()`: `_.filter(usbInfo, u => u.deviceId === 1)`. */
  function UsbHubs(usb: seq<UsbDevice>): seq<UsbDevice> {
    Filter(usb, (u: UsbDevice) => u.deviceId == Some(1))
  }

  /** `Number(bus.replace('usb', ''))` for a bus name of the form `usb<digits>`. */
  function BusNumber(bus: String): nat
    requires |bus| >= 3 && AllDigits(bus[3..])
  {
    DigitsValue(bus[3..])
  }

  /**
   * `IS_USB3`: whether the first hub whose `bus` is the bus number has a name
   * containing `3.0`; false when no hub has that bus.
   */
  function IsUsb3(hubs: seq<UsbDevice>, n: nat): bool {
    var k := FirstIndex(hubs, (h: UsbDevice) => h.bus == Some(n));
    if k < 0 then false else Contains(hubs[k].name, "3.0")
  }

  /** `u` is a hub (`deviceId === 1`) on bus number `n`. */
  predicate IsHubOn(u: UsbDevice, n: nat) {
    u.deviceId == Some(1) && u.bus == Some(n)
  }

  /** `usb[k]` is the first hub on bus `n` in the device listing. */
  predicate FirstHubAt(usb: seq<UsbDevice>, n: nat, k: int) {
    0 <= k < |usb| && IsHubOn(usb[k], n) && forall j :: 0 <= j < k ==> !IsHubOn(usb[j], n)
  }

  /** The first hub on bus `n` exists and its name contains `3.0`. */
  ghost predicate FirstHubIsUsb3(usb: seq<UsbDevice>, n: nat) {
    exists k :: FirstHubAt(usb, n, k) && Contains(usb[k].name, "3.0")
  }

  /** The flag is set exactly when the first hub on the bus names 3.0, and never without a hub. */
  lemma IsUsb3Spec(usb: seq<UsbDevice>, n: nat)
    ensures IsUsb3(UsbHubs(usb), n) <==> FirstHubIsUsb3(usb, n)
    ensures (forall j :: 0 <= j < |usb| ==> !IsHubOn(usb[j], n)) ==> !IsUsb3(UsbHubs(usb), n)
  {
    HubsSpec(usb, n);
  }

  lemma {:induction false} HubsSpec(usb: seq<UsbDevice>, n: nat)
    ensures IsUsb3(UsbHubs(usb), n) <==> FirstHubIsUsb3(usb, n)
  {
    if usb != [] {
      var u := usb[0];
      HubsSpec(usb[1..], n);
      var hubs := UsbHubs(usb);
      if u.deviceId == Some(1) {
        assert hubs == [u] + UsbHubs(usb[1..]);
        if u.bus == Some(n) {
          assert FirstIndex(hubs, (h: UsbDevice) => h.bus == Some(n)) == 0;
          assert FirstHubAt(usb, n, 0);
          if FirstHubIsUsb3(usb, n) {
            var k :| FirstHubAt(usb, n, k) && Contains(usb[k].name, "3.0");
            assert k == 0;
          }
        } else {
          var rest := UsbHubs(usb[1..]);
          assert FirstIndex(hubs, (h: UsbDevice) => h.bus == Some(n)) ==
            (var k := FirstIndex(rest, (h: UsbDevice) => h.bus == Some(n)); if k < 0 then -1 else k + 1);
          ShiftWitness(usb, n);
        }
      } else {
        assert hubs == UsbHubs(usb[1..]);
        ShiftWitness(usb, n);
      }
    }
  }

  /** A listing whose head is not a hub on `n` has the same first hub as its tail. */
  lemma ShiftWitness(usb: seq<UsbDevice>, n: nat)
    requires usb != [] && !IsHubOn(usb[0], n)
    ensures FirstHubIsUsb3(usb, n) <==> FirstHubIsUsb3(usb[1..], n)
  {
    var t := usb[1..];
    if FirstHubIsUsb3(usb, n) {
      var k :| FirstHubAt(usb, n, k) && Contains(usb[k].name, "3.0");
      assert t[k - 1] == usb[k];
      forall j | 0 <= j < k - 1 ensures !IsHubOn(t[j], n) {
        assert t[j] == usb[j + 1];
      }
      assert FirstHubAt(t, n, k - 1);
    }
    if FirstHubIsUsb3(t, n) {
      var k :| FirstHubAt(t, n, k) && Contains(t[k].name, "3.0");
      assert usb[k + 1] == t[k];
      forall j | 0 <= j < k + 1 ensures !IsHubOn(usb[j], n) {
        if j > 0 { assert usb[j] == t[j - 1]; }
      }
      assert FirstHubAt(usb, n, k + 1);
    }
  }


  /** The entry `getUdevInfo` makes of one filtered device, if its DEVPATH has a bus segment. */
  function UdevEntryOf(dev: UdevDevice, hubs: seq<UsbDevice>): (r: Option<UdevEntry>)
    ensures r.Some? <==> UsbBusOf(dev.devPath).Some?
    ensures r.Some? ==> r.value.dev == dev && Some(r.value.usbBus) == UsbBusOf(dev.devPath)
  {
    match UsbBusOf(dev.devPath)
    case None => None
    case Some(bus) => Some(UdevEntry(dev, bus, IsUsb3(hubs, BusNumber(bus))))
  }

  /**
   * `getUdevInfo()` over the listings `devices` (udev) and `usb` (si.usb):
   * the USB ext4 partitions, each with its bus and its USB3 flag; it throws
   * when a kept device has no `/usb<digits>/` segment.
   */
  function UdevInfo(devices: seq<UdevDevice>, usb: seq<UsbDevice>): (r: Result<seq<UdevEntry>>)
    ensures var kept := Filter(devices, IsUsbExt4Partition);
      && (r.Ok? <==> forall i :: 0 <= i < |kept| ==> UsbBusOf(kept[i].devPath).Some?)
      && (r.Ok? ==> |r.value| == |kept|)
      && (r.Ok? ==>
           forall i :: 0 <= i < |kept| ==>
             && r.value[i].dev == kept[i]
             && Some(r.value[i].usbBus) == UsbBusOf(kept[i].devPath)
             && r.value[i].isUsb3 == IsUsb3(UsbHubs(usb), BusNumber(r.value[i].usbBus)))
  {
    var kept := Filter(devices, IsUsbExt4Partition);
    var hubs := UsbHubs(usb);
    if forall i :: 0 <= i < |kept| ==> UsbBusOf(kept[i].devPath).Some? then
      Ok(seq(|kept|, i requires 0 <= i < |kept| => UdevEntryOf(kept[i], hubs).value))
    else
      Err("TypeError: Cannot read properties of null (reading '0')")
  }

  // ------------------------------------------------------------- label join

  /** `_.find(allUdevInfo, {ID_FS_LABEL: label})` as an index, or -1. */
  function FindLabel(entries: seq<UdevEntry>, wanted: String): (k: int)
    ensures -1 <= k < |entries|
    ensures k >= 0 ==> entries[k].dev.idFsLabel == Some(wanted)
    ensures forall j :: 0 <= j < (if k < 0 then |entries| else k) ==> entries[j].dev.idFsLabel != Some(wanted)
  {
    FirstIndex(entries, (e: UdevEntry) => e.dev.idFsLabel == Some(wanted))
  }

  /**
   * The map of `getDiskUsbAssign`: every partition takes `isUsb3`/`usbBus`
   * from the first device record with its label; a partition with no such
   * record makes `udevInfo['IS_USB3']` throw.
   */
  function AssignBuses(parts: seq<Part>, entries: seq<UdevEntry>): (r: Result<seq<Part>>)
    ensures r.Ok? <==> forall i :: 0 <= i < |parts| ==> FindLabel(entries, parts[i].volumeLabel) >= 0
    ensures r.Ok? ==> |r.value| == |parts|
    ensures r.Ok? ==> forall i :: 0 <= i < |parts| ==>
        var e := entries[FindLabel(entries, parts[i].volumeLabel)];
        r.value[i] == parts[i].(isUsb3 := Some(e.isUsb3), usbBus := Some(e.usbBus))
  {
    if forall i :: 0 <= i < |parts| ==> FindLabel(entries, parts[i].volumeLabel) >= 0 then
      Ok(seq(|parts|, i requires 0 <= i < |parts| =>
        var e := entries[FindLabel(entries, parts[i].volumeLabel)];
        parts[i].(isUsb3 := Some(e.isUsb3), usbBus := Some(e.usbBus))))
    else
      Err("TypeError: Cannot read properties of undefined (reading 'IS_USB3')")
  }

  /** `getDiskUsbAssign(farmDir)`: the farm partitions joined with their USB bus records. */
  function DiskUsbAssign(farmDir: String, devices: seq<Part>, udev: seq<UdevDevice>, usb: seq<UsbDevice>)
    : (r: Result<seq<Part>>)
    ensures r.Ok? ==> forall i :: 0 <= i < |r.value| ==>
      IsFarmPart(r.value[i], farmDir) && r.value[i].isUsb3.Some? && r.value[i].usbBus.Some?
    ensures r.Ok? ==> |r.value| == |AllPartsInfo(devices, farmDir)|
    ensures UdevInfo(udev, usb).Err? ==> r.Err?
  {
    match UdevInfo(udev, usb)
    case Err(msg) => Err(msg)
    case Ok(entries) => AssignBuses(AllPartsInfo(devices, farmDir), entries)
  }
}
