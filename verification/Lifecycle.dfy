/** The table of snapshot devices: their state bits, the range of minors in use,
    the COW files of a series, and what setup, destroy, the two mode transitions
    and mount events do to them. */
module Lifecycle {
  import opened Blocks

  const WIDTH: nat := 0x1_0000_0000_0000_0000

  /** What a COW header says about its place in a series. */
  datatype CowId = CowId(uuid: nat, seqid: nat)

  /** `base` is the traced block device; `cow` the in-memory COW manager; `file`
      the mount its COW file is open on. Files are named by number. */
  datatype Device = Device(
    snapshot: bool, active: bool, unverified: bool, fail: bool,
    base: Option<nat>, bdevPath: nat, cowPath: nat, cow: Option<CowId>, file: Option<nat>
  )

  type Devices = seq<Option<Device>>

  datatype System = System(
    devices: Devices,       // by minor
    lowest: nat, highest: nat,
    files: map<nat, CowId>, // headers of the COW files
    made: seq<CowId>        // history: COW files created
  )

  /** How building a tracer went, and whether a failure took the COW file along. */
  datatype Building = Works | Fails(unlinked: bool) | Lost

  datatype Unmounting = Unmounted(stillMounted: bool) | Refused(gone: bool, reopened: bool)

  datatype Event =
    | SetupSnap(minor: nat, found: Option<nat>, mounted: bool, bdevPath: nat, cowPath: nat, mnt: nat,
                uuid: nat, how: Building)
    | Reload(minor: nat, snap: bool, found: Option<nat>, mounted: bool, bdevPath: nat, cowPath: nat, how: Building)
    | Destroy(minor: nat, busy: bool)
    | ToIncremental(minor: nat, busy: bool, how: Building, drained: bool, unlinked: bool)
    | ToSnapshot(minor: nat, busy: bool, cowPath: nat, mnt: nat, how: Building, synced: bool)
    | Mount(bdev: nat, names: map<nat, nat>, mnt: nat, how: Building)
    | Umount(bdev: nat, mnt: nat, closed: bool, result: Unmounting)
    | Fault(minor: nat, unlinked: bool)
    | Reboot

  // ------------------------------------------------------------------ searching

  /** What a walk over the table looks for. */
  datatype Query =
    | Traces(bdev: nat)
    | ToClose(bdev: nat, mnt: nat)
    | ToActivate(bdev: nat, names: map<nat, nat>)

  predicate Matches(q: Query, slot: Option<Device>) {
    slot.Some? &&
    var d := slot.value;
    match q
    case Traces(bdev) => !d.unverified && d.base == Some(bdev)
    case ToClose(bdev, mnt) => d.active && !d.fail && d.base == Some(bdev) && d.cow.Some? && d.file == Some(mnt)
    case ToActivate(bdev, names) =>
      && !d.active && !d.fail
      && (if d.unverified then d.bdevPath in names && names[d.bdevPath] == bdev else d.base == Some(bdev))
  }

  /** The first match among minors i..highest, or the size of the table. */
  function First(devices: Devices, q: Query, i: nat, highest: nat): (k: nat)
    requires i <= |devices|
    ensures k <= |devices|
    ensures k < |devices| ==> i <= k <= highest && Matches(q, devices[k])
    ensures forall j :: i <= j < |devices| && j <= highest && j < k ==> !Matches(q, devices[j])
    decreases |devices| - i
  {
    if i > highest || i == |devices| then |devices|
    else if Matches(q, devices[i]) then i
    else First(devices, q, i + 1, highest)
  }

  function Find(s: System, q: Query): nat {
    if s.lowest > |s.devices| then |s.devices| else First(s.devices, q, s.lowest, s.highest)
  }

  /** Smallest minor in use at or above i, or the last minor. */
  function Lowest(devices: Devices, i: nat): (k: nat)
    requires i <= |devices| && devices != []
    ensures forall j :: i <= j < |devices| && devices[j].Some? ==> k <= j
    ensures k < |devices| && (k == |devices| - 1 || (i <= k && devices[k].Some?))
    decreases |devices| - i
  {
    if i == |devices| then |devices| - 1 else if devices[i].Some? then i else Lowest(devices, i + 1)
  }

  /** Greatest minor in use below n, or zero. */
  function Highest(devices: Devices, n: nat): (k: nat)
    requires n <= |devices| && devices != []
    ensures forall j :: 0 <= j < n && devices[j].Some? ==> j <= k
    ensures k < |devices| && (k == 0 || (k < n && devices[k].Some?))
  {
    if n == 0 then 0 else if devices[n - 1].Some? then n - 1 else Highest(devices, n - 1)
  }

  function Recalculated(s: System): System {
    if s.devices == [] then s else s.(lowest := Lowest(s.devices, 0), highest := Highest(s.devices, |s.devices|))
  }

  function Placed(s: System, minor: nat, d: Device): System
    requires minor < |s.devices|
  {
    s.(devices := s.devices[minor := Some(d)], lowest := Min(s.lowest, minor), highest := Max(s.highest, minor))
  }

  function Removed(s: System, minor: nat): System
    requires minor < |s.devices|
  {
    Recalculated(s.(devices := s.devices[minor := None]))
  }

  // --------------------------------------------------------------------- events

  predicate InUse(s: System, minor: nat) {
    minor < |s.devices| && s.devices[minor].Some?
  }

  function Unlinked(s: System, path: nat, yes: bool): System {
    if yes then s.(files := s.files - {path}) else s
  }

  function AfterSetupSnap(s: System, e: Event): System
    requires e.SetupSnap?
  {
    if e.minor >= |s.devices| || s.devices[e.minor].Some? || e.found.None? || !e.mounted then s
    else if Find(s, Traces(e.found.value)) < |s.devices| then Recalculated(s)
    else if !e.how.Works? then Recalculated(Unlinked(s, e.cowPath, e.how.Fails? && e.how.unlinked))
    else
      var id := CowId(e.uuid, 1);
      var d := Device(true, true, false, false, e.found, e.bdevPath, e.cowPath, Some(id), Some(e.mnt));
      Placed(s, e.minor, d).(files := s.files[e.cowPath := id], made := s.made + [id])
  }

  function Unverified(snap: bool, fail: bool, bdevPath: nat, cowPath: nat): Device {
    Device(snap, false, true, fail, None, bdevPath, cowPath, None, None)
  }

  function AfterReload(s: System, e: Event): System
    requires e.Reload?
  {
    if e.minor >= |s.devices| || s.devices[e.minor].Some? || e.found.None? || e.mounted then s
    else if !e.how.Works? then Recalculated(s)
    else Placed(s, e.minor, Unverified(e.snap, false, e.bdevPath, e.cowPath))
  }

  /** The current COW file is deleted with its tracer while it is open. */
  function AfterDestroy(s: System, e: Event): System
    requires e.Destroy?
  {
    if !InUse(s, e.minor) || e.busy then s
    else
      var d := s.devices[e.minor].value;
      Removed(Unlinked(s, d.cowPath, d.file.Some?), e.minor)
  }

  /** An error of the tracer's own threads, which may delete the COW file. */
  function Faulty(s: System, minor: nat, unlinked: bool): System
    requires InUse(s, minor)
  {
    var d := s.devices[minor].value;
    Unlinked(s, d.cowPath, unlinked)
      .(devices := s.devices[minor := Some(d.(fail := true, file := if unlinked then None else d.file))])
  }

  function AfterFault(s: System, e: Event): System
    requires e.Fault?
  {
    if InUse(s, e.minor) && s.devices[e.minor].value.active then Faulty(s, e.minor, e.unlinked) else s
  }

  /** Errors of the old copy-on-write thread leave the new tracer failed. */
  function AfterToIncremental(s: System, e: Event): System
    requires e.ToIncremental?
  {
    if !InUse(s, e.minor) || e.busy then s else
    var d := s.devices[e.minor].value;
    if d.fail || !d.snapshot || !d.active then s
    else if !e.how.Works? then Recalculated(s)
    else
      var s' := Placed(s, e.minor, d.(snapshot := false, active := true, unverified := false));
      if e.drained then s' else Faulty(s', e.minor, e.unlinked)
  }

  function NextId(id: CowId): CowId {
    CowId(id.uuid, (id.seqid + 1) % WIDTH)
  }

  /** The new COW file is made first; the old one is closed, or lost, last. */
  function AfterToSnapshot(s: System, e: Event): System
    requires e.ToSnapshot?
  {
    if !InUse(s, e.minor) || e.busy then s else
    var d := s.devices[e.minor].value;
    if d.fail || d.snapshot || !d.active || d.cow.None? then s
    else if !e.how.Works? then Recalculated(Unlinked(s, e.cowPath, e.how.Fails? && e.how.unlinked))
    else
      var id := NextId(d.cow.value);
      var made := s.files[e.cowPath := id];
      Placed(s, e.minor, d.(snapshot := true, active := true, unverified := false, fail := false,
                            cowPath := e.cowPath, cow := Some(id), file := Some(e.mnt)))
        .(files := if e.synced then made[d.cowPath := d.cow.value] else made - {d.cowPath}, made := s.made + [id])
  }

  /** Verification fails back to the unverified state; out of memory it loses the tracer. */
  function Verified(s: System, minor: nat, bdev: nat, mnt: nat, how: Building): System
    requires InUse(s, minor)
  {
    var d := s.devices[minor].value;
    var s' := Removed(s, minor);
    var traced := Find(s', Traces(bdev)) < |s'.devices|;
    if how.Lost? then s'
    else if !traced && how.Works? && d.cowPath in s.files then
      Placed(s', minor, Device(d.snapshot, true, false, d.fail, Some(bdev), d.bdevPath, d.cowPath,
                               Some(s.files[d.cowPath]), Some(mnt)))
    else
      Placed(Unlinked(s', d.cowPath, !traced && how.Fails? && how.unlinked), minor,
             Unverified(d.snapshot, true, d.bdevPath, d.cowPath))
  }

  function Reopened(s: System, minor: nat, mnt: nat, works: bool): System
    requires InUse(s, minor)
  {
    var d := s.devices[minor].value;
    var d' := if works && d.cowPath in s.files
              then d.(active := true, unverified := false, cow := Some(s.files[d.cowPath]), file := Some(mnt))
              else d.(fail := true);
    s.(devices := s.devices[minor := Some(d')])
  }

  function AfterMount(s: System, e: Event): System
    requires e.Mount?
  {
    var k := Find(s, ToActivate(e.bdev, e.names));
    if k == |s.devices| then s
    else if s.devices[k].value.unverified then Verified(s, k, e.bdev, e.mnt, e.how)
    else Reopened(s, k, e.mnt, e.how.Works?)
  }

  /** Writing everything back and closing, before the unmount itself. */
  function Closed(s: System, minor: nat, closed: bool): System
    requires InUse(s, minor)
  {
    var d := s.devices[minor].value;
    if closed && d.cow.Some? then
      s.(devices := s.devices[minor := Some(d.(active := false, file := None))],
         files := s.files[d.cowPath := d.cow.value])
    else
      Unlinked(s, d.cowPath, true).(devices := s.devices[minor := Some(d.(fail := true, file := None))])
  }

  function Failed(s: System, minor: nat): System
    requires InUse(s, minor)
  {
    s.(devices := s.devices[minor := Some(s.devices[minor].value.(fail := true))])
  }

  function AfterUmount(s: System, e: Event): System
    requires e.Umount?
  {
    var k := Find(s, ToClose(e.bdev, e.mnt));
    if k == |s.devices| then s else
    var s' := Closed(s, k, e.closed);
    match e.result
    case Unmounted(still) => if still then Failed(s', k) else s'
    case Refused(gone, reopened) => if gone then Failed(s', k) else Reopened(s', k, e.mnt, reopened)
  }

  function Empty(size: nat, files: map<nat, CowId>, made: seq<CowId>): System {
    System(seq(size, _ => None), if size == 0 then 0 else size - 1, 0, files, made)
  }

  function Next(s: System, e: Event): System {
    match e
    case SetupSnap(_, _, _, _, _, _, _, _) => AfterSetupSnap(s, e)
    case Reload(_, _, _, _, _, _, _) => AfterReload(s, e)
    case Destroy(_, _) => AfterDestroy(s, e)
    case ToIncremental(_, _, _, _, _) => AfterToIncremental(s, e)
    case ToSnapshot(_, _, _, _, _, _) => AfterToSnapshot(s, e)
    case Mount(_, _, _, _) => AfterMount(s, e)
    case Umount(_, _, _, _) => AfterUmount(s, e)
    case Fault(_, _) => AfterFault(s, e)
    case Reboot => Empty(|s.devices|, s.files, s.made)
  }

  // ----------------------------------------------------------------- invariants

  datatype Stage = Active | Dormant | Untried

  /** The documented states; `None` for bits that mean nothing. */
  function StageOf(d: Device): Option<Stage> {
    if d.active && d.unverified then None
    else if d.active then Some(Active)
    else if d.unverified then Some(Untried)
    else Some(Dormant)
  }

  /** What each stage holds on to. */
  predicate DeviceOk(d: Device) {
    match StageOf(d)
    case None => false
    case Some(Untried) => d.base.None? && d.cow.None? && d.file.None?
    case Some(Active) => d.base.Some? && d.cow.Some? && (d.fail || d.file.Some?)
    case Some(Dormant) => d.base.Some? && d.cow.Some?
  }

  predicate DevicesOk(devices: Devices) {
    forall i :: 0 <= i < |devices| && devices[i].Some? ==> DeviceOk(devices[i].value)
  }

  /** No block device has two tracers. */
  predicate OneTracer(devices: Devices) {
    forall i, j :: 0 <= i < j < |devices| && devices[i].Some? && devices[j].Some? && devices[i].value.base.Some? ==>
      devices[i].value.base != devices[j].value.base
  }

  predicate RangeOk(s: System) {
    s.devices != [] && s.lowest == Lowest(s.devices, 0) && s.highest == Highest(s.devices, |s.devices|)
  }

  predicate SystemOk(s: System) {
    RangeOk(s) && DevicesOk(s.devices) && OneTracer(s.devices)
  }

  /** A walk over the range of minors misses no tracer. */
  lemma WalkSeesAll(s: System, q: Query, i: nat)
    requires RangeOk(s) && i < |s.devices| && Matches(q, s.devices[i])
    ensures Find(s, q) <= i && Matches(q, s.devices[Find(s, q)])
  {
    assert s.devices[i].Some?;
    assert s.lowest <= i <= s.highest;
  }

  lemma NoneBefore(s: System, q: Query, i: nat)
    requires RangeOk(s) && i < |s.devices| && i < Find(s, q)
    ensures !Matches(q, s.devices[i])
  {
    if s.devices[i].Some? { assert s.lowest <= i <= s.highest; }
  }

  lemma PlacedRange(s: System, minor: nat, d: Device)
    requires RangeOk(s) && minor < |s.devices|
    ensures RangeOk(Placed(s, minor, d))
  {
    var devices := s.devices[minor := Some(d)];
    var l, h := Lowest(devices, 0), Highest(devices, |devices|);
    assert devices[minor].Some? && l <= minor <= h;
    assert forall j :: 0 <= j < |devices| && j != minor ==> devices[j] == s.devices[j];
    assert devices[l].Some? && devices[h].Some?;
    assert s.devices[s.lowest].Some? ==> devices[s.lowest].Some?;
    assert s.devices[s.highest].Some? ==> devices[s.highest].Some?;
  }

  lemma SlotKeeps(devices: Devices, minor: nat, d: Device)
    requires DevicesOk(devices) && OneTracer(devices) && minor < |devices| && DeviceOk(d)
    requires d.base.None? || forall i :: 0 <= i < |devices| && i != minor && devices[i].Some? ==>
               devices[i].value.base != d.base
    ensures DevicesOk(devices[minor := Some(d)]) && OneTracer(devices[minor := Some(d)])
  {
  }

  lemma PlacedKeeps(s: System, minor: nat, d: Device)
    requires SystemOk(s) && minor < |s.devices| && DeviceOk(d)
    requires d.base.None? || forall i :: 0 <= i < |s.devices| && i != minor && s.devices[i].Some? ==>
               s.devices[i].value.base != d.base
    ensures SystemOk(Placed(s, minor, d))
  {
    PlacedRange(s, minor, d);
    SlotKeeps(s.devices, minor, d);
  }

  /** Another state of the same tracer, on the same block device. */
  lemma ChangedKeeps(s: System, minor: nat, d: Device)
    requires SystemOk(s) && InUse(s, minor) && DeviceOk(d) && d.base == s.devices[minor].value.base
    ensures SystemOk(Placed(s, minor, d))
    ensures Placed(s, minor, d) == s.(devices := s.devices[minor := Some(d)])
  {
    PlacedKeeps(s, minor, d);
  }

  lemma RemovedKeeps(s: System, minor: nat)
    requires SystemOk(s) && minor < |s.devices|
    ensures SystemOk(Removed(s, minor)) && Removed(s, minor).devices == s.devices[minor := None]
  {
  }

  lemma NotTraced(s: System, bdev: nat)
    requires SystemOk(s) && Find(s, Traces(bdev)) == |s.devices|
    ensures forall i :: 0 <= i < |s.devices| && s.devices[i].Some? ==> s.devices[i].value.base != Some(bdev)
  {
    forall i | 0 <= i < |s.devices| && s.devices[i].Some?
      ensures s.devices[i].value.base != Some(bdev)
    {
      NoneBefore(s, Traces(bdev), i);
    }
  }

  lemma SetupKeeps(s: System, e: Event)
    requires SystemOk(s) && e.SetupSnap?
    ensures SystemOk(AfterSetupSnap(s, e))
  {
    if e.minor < |s.devices| && e.found.Some? && Find(s, Traces(e.found.value)) == |s.devices| {
      NotTraced(s, e.found.value);
      PlacedKeeps(s, e.minor, Device(true, true, false, false, e.found, e.bdevPath, e.cowPath,
                                     Some(CowId(e.uuid, 1)), Some(e.mnt)));
    }
  }

  lemma FaultyKeeps(s: System, minor: nat, unlinked: bool)
    requires SystemOk(s) && InUse(s, minor) && s.devices[minor].value.active
    ensures SystemOk(Faulty(s, minor, unlinked))
  {
    assert DeviceOk(s.devices[minor].value);
    ChangedKeeps(s, minor, Faulty(s, minor, unlinked).devices[minor].value);
  }

  lemma FaultKeeps(s: System, e: Event)
    requires SystemOk(s) && e.Fault?
    ensures SystemOk(AfterFault(s, e))
  {
    if InUse(s, e.minor) && s.devices[e.minor].value.active { FaultyKeeps(s, e.minor, e.unlinked); }
  }

  lemma ToIncrementalKeeps(s: System, e: Event)
    requires SystemOk(s) && e.ToIncremental?
    ensures SystemOk(AfterToIncremental(s, e))
  {
    if InUse(s, e.minor) {
      var d := s.devices[e.minor].value;
      assert DeviceOk(d);
      if d.active {
        var d' := d.(snapshot := false, active := true, unverified := false);
        ChangedKeeps(s, e.minor, d');
        FaultyKeeps(Placed(s, e.minor, d'), e.minor, e.unlinked);
      }
    }
  }

  lemma ToSnapshotKeeps(s: System, e: Event)
    requires SystemOk(s) && e.ToSnapshot?
    ensures SystemOk(AfterToSnapshot(s, e))
  {
    if InUse(s, e.minor) {
      var s', d := AfterToSnapshot(s, e), s.devices[e.minor].value;
      assert DeviceOk(d);
      if s'.devices[e.minor].Some? && s'.devices[e.minor].value.base == d.base && DeviceOk(s'.devices[e.minor].value) {
        ChangedKeeps(s, e.minor, s'.devices[e.minor].value);
      }
    }
  }

  lemma VerifiedKeeps(s: System, minor: nat, bdev: nat, mnt: nat, how: Building)
    requires SystemOk(s) && InUse(s, minor)
    ensures SystemOk(Verified(s, minor, bdev, mnt, how))
  {
    var d := s.devices[minor].value;
    var s' := Removed(s, minor);
    RemovedKeeps(s, minor);
    PlacedKeeps(s', minor, Unverified(d.snapshot, true, d.bdevPath, d.cowPath));
    if Find(s', Traces(bdev)) == |s'.devices| && d.cowPath in s.files {
      NotTraced(s', bdev);
      PlacedKeeps(s', minor, Device(d.snapshot, true, false, d.fail, Some(bdev), d.bdevPath, d.cowPath,
                                    Some(s.files[d.cowPath]), Some(mnt)));
    }
  }

  lemma ReopenedKeeps(s: System, minor: nat, mnt: nat, works: bool)
    requires SystemOk(s) && InUse(s, minor) && !s.devices[minor].value.unverified
    ensures SystemOk(Reopened(s, minor, mnt, works))
  {
    assert DeviceOk(s.devices[minor].value);
    ChangedKeeps(s, minor, Reopened(s, minor, mnt, works).devices[minor].value);
  }

  lemma MountKeeps(s: System, e: Event)
    requires SystemOk(s) && e.Mount?
    ensures SystemOk(AfterMount(s, e))
  {
    var k := Find(s, ToActivate(e.bdev, e.names));
    if k < |s.devices| {
      if s.devices[k].value.unverified { VerifiedKeeps(s, k, e.bdev, e.mnt, e.how); }
      else { ReopenedKeeps(s, k, e.mnt, e.how.Works?); }
    }
  }

  lemma FailedKeeps(s: System, minor: nat)
    requires SystemOk(s) && InUse(s, minor)
    ensures SystemOk(Failed(s, minor))
  {
    assert DeviceOk(s.devices[minor].value);
    ChangedKeeps(s, minor, Failed(s, minor).devices[minor].value);
  }

  lemma UmountKeeps(s: System, e: Event)
    requires SystemOk(s) && e.Umount?
    ensures SystemOk(AfterUmount(s, e))
  {
    var k := Find(s, ToClose(e.bdev, e.mnt));
    if k < |s.devices| {
      assert DeviceOk(s.devices[k].value);
      var s' := Closed(s, k, e.closed);
      ChangedKeeps(s, k, s'.devices[k].value);
      FailedKeeps(s', k);
      if e.result.Refused? { ReopenedKeeps(s', k, e.mnt, e.result.reopened); }
    }
  }

  lemma EmptyOk(size: nat, files: map<nat, CowId>, made: seq<CowId>)
    requires size > 0
    ensures SystemOk(Empty(size, files, made))
  {
  }

  lemma ReloadKeeps(s: System, e: Event)
    requires SystemOk(s) && e.Reload?
    ensures SystemOk(AfterReload(s, e))
  {
    if e.minor < |s.devices| { PlacedKeeps(s, e.minor, Unverified(e.snap, false, e.bdevPath, e.cowPath)); }
  }

  lemma DestroyKeeps(s: System, e: Event)
    requires SystemOk(s) && e.Destroy?
    ensures SystemOk(AfterDestroy(s, e))
  {
    if e.minor < |s.devices| { RemovedKeeps(s, e.minor); }
  }

  lemma EventKeeps(s: System, e: Event)
    requires SystemOk(s)
    ensures SystemOk(Next(s, e))
  {
    match e
    case SetupSnap(_, _, _, _, _, _, _, _) => SetupKeeps(s, e);
    case Reload(_, _, _, _, _, _, _) => ReloadKeeps(s, e);
    case Destroy(_, _) => DestroyKeeps(s, e);
    case ToIncremental(_, _, _, _, _) => ToIncrementalKeeps(s, e);
    case ToSnapshot(_, _, _, _, _, _) => ToSnapshotKeeps(s, e);
    case Fault(_, _) => FaultKeeps(s, e);
    case Mount(_, _, _, _) => MountKeeps(s, e);
    case Umount(_, _, _, _) => UmountKeeps(s, e);
    case Reboot => EmptyOk(|s.devices|, s.files, s.made);
  }

  // ---------------------------------------------------------------------- moves

  predicate OnlySlot(was: Devices, now: Devices, minor: nat) {
    |was| == |now| && forall i :: 0 <= i < |was| && i != minor ==> now[i] == was[i]
  }

  /** How one tracer may change: a failure stays; the unverified state is left for
      good, into the active one and in the same mode; and the mode changes between
      active states only, with the next file of the series for a new snapshot and
      the same file otherwise. The block device is given once, and the path of the COW
      file changes with a new snapshot only. */
  predicate Moves(d: Device, d': Device) {
    && (d.fail ==> d'.fail)
    && d'.bdevPath == d.bdevPath
    && (d'.base == d.base || (d.unverified && !d'.unverified))
    && (d'.cowPath == d.cowPath || (!d.snapshot && d'.snapshot))
    && (d'.unverified ==> d.unverified && d'.snapshot == d.snapshot)
    && (d.unverified && !d'.unverified ==> d'.active && d'.snapshot == d.snapshot)
    && (d.snapshot != d'.snapshot ==>
          && d.active && d'.active && !d.fail && d.cow.Some?
          && d'.cow == Some(if d'.snapshot then NextId(d.cow.value) else d.cow.value))
  }

  lemma VerifiedMoves(s: System, minor: nat, bdev: nat, mnt: nat, how: Building, i: nat)
    requires InUse(s, minor) && s.devices[minor].value.unverified && DeviceOk(s.devices[minor].value)
    requires InUse(s, i) && InUse(Verified(s, minor, bdev, mnt, how), i)
    ensures Moves(s.devices[i].value, Verified(s, minor, bdev, mnt, how).devices[i].value)
  {
  }

  lemma ReopenedMoves(s: System, minor: nat, mnt: nat, works: bool, i: nat)
    requires InUse(s, minor) && !s.devices[minor].value.unverified && InUse(s, i)
    ensures Moves(s.devices[i].value, Reopened(s, minor, mnt, works).devices[i].value)
    ensures Moves(s.devices[i].value, Failed(s, minor).devices[i].value)
  {
  }

  lemma ClosedMoves(s: System, minor: nat, closed: bool, i: nat)
    requires InUse(s, minor) && !s.devices[minor].value.unverified && InUse(s, i)
    ensures Moves(s.devices[i].value, Closed(s, minor, closed).devices[i].value)
    ensures s.devices[i].value.snapshot == Closed(s, minor, closed).devices[i].value.snapshot
  {
  }

  lemma MountMoves(s: System, e: Event, i: nat)
    requires SystemOk(s) && e.Mount? && InUse(s, i) && InUse(AfterMount(s, e), i)
    ensures Moves(s.devices[i].value, AfterMount(s, e).devices[i].value)
  {
    var k := Find(s, ToActivate(e.bdev, e.names));
    if k < |s.devices| {
      assert DeviceOk(s.devices[k].value);
      if s.devices[k].value.unverified { VerifiedMoves(s, k, e.bdev, e.mnt, e.how, i); }
      else { ReopenedMoves(s, k, e.mnt, e.how.Works?, i); }
    }
  }

  lemma UmountMoves(s: System, e: Event, i: nat)
    requires SystemOk(s) && e.Umount? && InUse(s, i) && InUse(AfterUmount(s, e), i)
    ensures Moves(s.devices[i].value, AfterUmount(s, e).devices[i].value)
  {
    var k := Find(s, ToClose(e.bdev, e.mnt));
    if k < |s.devices| {
      assert DeviceOk(s.devices[k].value);
      var s' := Closed(s, k, e.closed);
      ClosedMoves(s, k, e.closed, i);
      ReopenedMoves(s', k, e.mnt, e.result.Refused? && e.result.reopened, i);
    }
  }

  lemma TransitionMoves(s: System, e: Event, i: nat)
    requires SystemOk(s) && (e.ToIncremental? || e.ToSnapshot?) && InUse(s, i) && InUse(Next(s, e), i)
    ensures Moves(s.devices[i].value, Next(s, e).devices[i].value)
  {
    assert DeviceOk(s.devices[i].value);
  }

  lemma SetupMoves(s: System, e: Event, i: nat)
    requires (e.SetupSnap? || e.Reload?) && InUse(s, i)
    ensures Next(s, e).devices[i] == s.devices[i]
  {
  }

  lemma DestroyMoves(s: System, e: Event, i: nat)
    requires e.Destroy? && InUse(s, i) && InUse(AfterDestroy(s, e), i)
    ensures AfterDestroy(s, e).devices[i] == s.devices[i]
  {
  }

  lemma FaultMoves(s: System, e: Event, i: nat)
    requires e.Fault? && InUse(s, i)
    ensures Moves(s.devices[i].value, AfterFault(s, e).devices[i].value)
  {
  }

  /** No event moves a tracer in any other way, short of destroying it. */
  lemma EventMoves(s: System, e: Event, i: nat)
    requires SystemOk(s) && InUse(s, i) && InUse(Next(s, e), i)
    ensures Moves(s.devices[i].value, Next(s, e).devices[i].value)
  {
    match e
    case Mount(_, _, _, _) => MountMoves(s, e, i);
    case Umount(_, _, _, _) => UmountMoves(s, e, i);
    case ToIncremental(_, _, _, _, _) => TransitionMoves(s, e, i);
    case ToSnapshot(_, _, _, _, _, _) => TransitionMoves(s, e, i);
    case SetupSnap(_, _, _, _, _, _, _, _) => SetupMoves(s, e, i);
    case Reload(_, _, _, _, _, _, _) => SetupMoves(s, e, i);
    case Destroy(_, _) => DestroyMoves(s, e, i);
    case Fault(_, _) => FaultMoves(s, e, i);
    case Reboot =>
  }

  // ----------------------------------------------------------------------- runs

  datatype Run = Boot(size: nat) | Then(run: Run, event: Event)
  {
    predicate Valid() {
      match this
      case Boot(size) => size > 0
      case Then(run, _) => run.Valid()
    }

    function Final(): System {
      match this
      case Boot(size) => Empty(size, map[], [])
      case Then(run, e) => Next(run.Final(), e)
    }

    /** A new series gets an identifier not seen before. */
    predicate FreshNames() {
      match this
      case Boot(_) => true
      case Then(run, e) =>
        && run.FreshNames()
        && (e.SetupSnap? ==>
              forall k :: 0 <= k < |run.Final().made| ==> run.Final().made[k].uuid != e.uuid)
    }

    /** Every transition to snapshot mode continues the newest file of its series. */
    predicate Continuing() {
      match this
      case Boot(_) => true
      case Then(run, e) => run.Continuing() && (Continues(run.Final(), e) ==> FromNewest(run.Final(), e))
    }
  }

  /** After every run of ioctls and mount events each tracer is in one of the six
      documented states, holding what that state holds; no block device has two
      tracers; and a walk over the range of minors finds the first match of the
      whole table. */
  lemma {:induction false} RunOk(run: Run)
    requires run.Valid()
    ensures SystemOk(run.Final())
    ensures forall i :: 0 <= i < |run.Final().devices| && run.Final().devices[i].Some? ==>
              StageOf(run.Final().devices[i].value).Some?
    ensures forall q, i :: 0 <= i < |run.Final().devices| && Matches(q, run.Final().devices[i]) ==>
              Find(run.Final(), q) <= i
  {
    match run
    case Boot(size) => EmptyOk(size, map[], []);
    case Then(prev, e) =>
      RunOk(prev);
      EventKeeps(prev.Final(), e);
    forall q, i | 0 <= i < |run.Final().devices| && Matches(q, run.Final().devices[i])
      ensures Find(run.Final(), q) <= i
    {
      WalkSeesAll(run.Final(), q, i);
    }
  }

  // --------------------------------------------------------------------- series

  /** The files of one series, in the order they were made. */
  function Series(made: seq<CowId>, uuid: nat): (s: seq<CowId>)
    ensures forall k :: 0 <= k < |s| ==> s[k] in made && s[k].uuid == uuid
  {
    if made == [] then [] else
    var last := made[|made| - 1];
    Series(made[..|made| - 1], uuid) + if last.uuid == uuid then [last] else []
  }

  /** Sequence numbers 1, 2, 3, ... as 64-bit counters. */
  predicate Numbered(s: seq<CowId>) {
    forall k :: 0 <= k < |s| ==> s[k].seqid == (k + 1) % WIDTH
  }

  ghost predicate AllNumbered(made: seq<CowId>) {
    forall u: nat :: Numbered(Series(made, u))
  }

  /** Tracers and files carry identities of files that were made. */
  predicate Known(s: System) {
    && (forall i :: 0 <= i < |s.devices| && s.devices[i].Some? && s.devices[i].value.cow.Some? ==>
          s.devices[i].value.cow.value in s.made)
    && (forall p :: p in s.files ==> s.files[p] in s.made)
  }

  /** The event makes the next file of a series. */
  predicate Continues(s: System, e: Event) {
    && e.ToSnapshot? && InUse(s, e.minor) && !e.busy && e.how.Works?
    && var d := s.devices[e.minor].value;
       !d.fail && !d.snapshot && d.active && d.cow.Some?
  }

  predicate FromNewest(s: System, e: Event)
    requires Continues(s, e)
  {
    var id := s.devices[e.minor].value.cow.value;
    id.seqid == |Series(s.made, id.uuid)| % WIDTH
  }

  lemma SeriesAdd(made: seq<CowId>, id: CowId, uuid: nat)
    ensures Series(made + [id], uuid) == Series(made, uuid) + if id.uuid == uuid then [id] else []
  {
    assert (made + [id])[..|made|] == made;
  }

  lemma {:induction false} InSeries(made: seq<CowId>, id: CowId) returns (k: nat)
    requires id in made
    ensures k < |Series(made, id.uuid)| && Series(made, id.uuid)[k] == id
  {
    var n := |made| - 1;
    assert made == made[..n] + [made[n]];
    SeriesAdd(made[..n], made[n], id.uuid);
    if made[n] == id {
      k := |Series(made[..n], id.uuid)|;
    } else {
      k := InSeries(made[..n], id);
    }
  }

  lemma {:induction false} NoSeries(made: seq<CowId>, uuid: nat)
    requires forall k :: 0 <= k < |made| ==> made[k].uuid != uuid
    ensures Series(made, uuid) == []
  {
    if made != [] { NoSeries(made[..|made| - 1], uuid); }
  }

  lemma AddNumbered(made: seq<CowId>, id: CowId)
    requires AllNumbered(made)
    ensures AllNumbered(made + [id]) <==> id.seqid == (|Series(made, id.uuid)| + 1) % WIDTH
  {
    var n := |Series(made, id.uuid)|;
    SeriesAdd(made, id, id.uuid);
    assert Series(made + [id], id.uuid)[n] == id;
    if id.seqid == (n + 1) % WIDTH {
      forall u: nat
        ensures Numbered(Series(made + [id], u))
      {
        SeriesAdd(made, id, u);
        assert Numbered(Series(made, u));
      }
    } else {
      assert !Numbered(Series(made + [id], id.uuid));
    }
  }

  /** Exactly when a transition keeps the numbers of the series in a row: the
      file it continues must be the newest one. */
  lemma ContinuesExactly(s: System, e: Event)
    requires AllNumbered(s.made) && Known(s) && Continues(s, e)
    ensures AllNumbered(Next(s, e).made) <==> FromNewest(s, e)
  {
    var id := s.devices[e.minor].value.cow.value;
    var n := |Series(s.made, id.uuid)|;
    var k := InSeries(s.made, id);
    assert Numbered(Series(s.made, id.uuid));
    AddNumbered(s.made, NextId(id));
    Successors(id.seqid, n);
  }

  lemma Successors(a: nat, n: nat)
    requires a < WIDTH
    ensures (a + 1) % WIDTH == (n + 1) % WIDTH <==> a == n % WIDTH
  {
  }

  /** Devices' and files' identities come from `made`, which only grows. */
  lemma KnownFrom(s: System, s': System)
    requires Known(s) && (forall id :: id in s.made ==> id in s'.made)
    requires forall i :: 0 <= i < |s'.devices| && s'.devices[i].Some? && s'.devices[i].value.cow.Some? ==>
               || s'.devices[i].value.cow.value in s'.made
               || (i < |s.devices| && s.devices[i].Some? && s.devices[i].value.cow == s'.devices[i].value.cow)
    requires forall p :: p in s'.files ==> s'.files[p] in s'.made || (p in s.files && s'.files[p] == s.files[p])
    ensures Known(s')
  {
  }

  lemma FaultyKnown(s: System, minor: nat, unlinked: bool)
    requires Known(s) && InUse(s, minor)
    ensures Known(Faulty(s, minor, unlinked))
  {
    KnownFrom(s, Faulty(s, minor, unlinked));
  }

  lemma ToIncrementalKnown(s: System, e: Event)
    requires Known(s) && e.ToIncremental?
    ensures Known(AfterToIncremental(s, e))
  {
    if InUse(s, e.minor) {
      var s' := Placed(s, e.minor, s.devices[e.minor].value.(snapshot := false, active := true, unverified := false));
      KnownFrom(s, s');
      FaultyKnown(s', e.minor, e.unlinked);
    }
  }

  lemma ToSnapshotKnown(s: System, e: Event)
    requires Known(s) && e.ToSnapshot?
    ensures Known(AfterToSnapshot(s, e))
  {
    KnownFrom(s, AfterToSnapshot(s, e));
  }

  lemma SetupKnown(s: System, e: Event)
    requires Known(s) && (e.SetupSnap? || e.Reload?)
    ensures Known(Next(s, e))
  {
    KnownFrom(s, Next(s, e));
  }

  lemma DestroyKnown(s: System, e: Event)
    requires Known(s) && (e.Destroy? || e.Reboot?)
    ensures Known(Next(s, e))
  {
    KnownFrom(s, Next(s, e));
  }

  lemma ReopenedKnown(s: System, minor: nat, mnt: nat, works: bool)
    requires Known(s) && InUse(s, minor)
    ensures Known(Reopened(s, minor, mnt, works)) && Known(Failed(s, minor))
  {
  }

  lemma MountKnown(s: System, e: Event)
    requires Known(s) && e.Mount?
    ensures Known(AfterMount(s, e))
  {
    var k := Find(s, ToActivate(e.bdev, e.names));
    if k < |s.devices| {
      if s.devices[k].value.unverified { KnownFrom(s, AfterMount(s, e)); }
      else { ReopenedKnown(s, k, e.mnt, e.how.Works?); }
    }
  }

  lemma UmountKnown(s: System, e: Event)
    requires Known(s) && e.Umount?
    ensures Known(AfterUmount(s, e))
  {
    var k := Find(s, ToClose(e.bdev, e.mnt));
    if k < |s.devices| {
      var s' := Closed(s, k, e.closed);
      KnownFrom(s, s');
      ReopenedKnown(s', k, e.mnt, e.result.Refused? && e.result.reopened);
    }
  }

  lemma EventKnown(s: System, e: Event)
    requires Known(s)
    ensures Known(Next(s, e))
  {
    match e
    case Mount(_, _, _, _) => MountKnown(s, e);
    case Umount(_, _, _, _) => UmountKnown(s, e);
    case SetupSnap(_, _, _, _, _, _, _, _) => SetupKnown(s, e);
    case Reload(_, _, _, _, _, _, _) => SetupKnown(s, e);
    case Destroy(_, _) => DestroyKnown(s, e);
    case Reboot => DestroyKnown(s, e);
    case ToIncremental(_, _, _, _, _) => ToIncrementalKnown(s, e);
    case ToSnapshot(_, _, _, _, _, _) => ToSnapshotKnown(s, e);
    case Fault(minor, unlinked) => if InUse(s, minor) { FaultyKnown(s, minor, unlinked); }
  }

  lemma OtherwiseMade(s: System, e: Event)
    requires !Continues(s, e)
    ensures Next(s, e).made == s.made || (e.SetupSnap? && Next(s, e).made == s.made + [CowId(e.uuid, 1)])
  {
  }

  lemma MadeStep(s: System, e: Event)
    requires AllNumbered(s.made) && Known(s)
    requires e.SetupSnap? ==> forall k :: 0 <= k < |s.made| ==> s.made[k].uuid != e.uuid
    requires Continues(s, e) ==> FromNewest(s, e)
    ensures AllNumbered(Next(s, e).made)
  {
    if Continues(s, e) {
      ContinuesExactly(s, e);
    } else {
      OtherwiseMade(s, e);
      if e.SetupSnap? {
        NoSeries(s.made, e.uuid);
        AddNumbered(s.made, CowId(e.uuid, 1));
      }
    }
  }

  /** The files of every series carry 1, 2, 3, ... in the order they were made,
      if every transition to snapshot mode continued the newest file. */
  lemma {:induction false} SeriesNumbered(run: Run)
    requires run.Valid() && run.FreshNames() && run.Continuing()
    ensures AllNumbered(run.Final().made) && Known(run.Final())
  {
    match run
    case Boot(_) =>
    case Then(prev, e) =>
      SeriesNumbered(prev);
      EventKnown(prev.Final(), e);
      MadeStep(prev.Final(), e);
  }

  // ----------------------------------------------------------- update-img's check

  /** What the driver reports of a tracer: zeros while it is unverified. */
  function Info(d: Device): CowId {
    if d.unverified || d.cow.None? then CowId(0, 0) else d.cow.value
  }

  /** The check of a COW file's header against the snapshot, in 64-bit arithmetic. */
  predicate Accepts(magic: bool, header: CowId, info: CowId) {
    magic && header.uuid == info.uuid && header.seqid == (info.seqid - 1) % WIDTH
  }

  /** As long as a tracer is unverified the check accepts no file of a series with a
      nonzero identifier. */
  lemma UnverifiedAcceptsNothing(d: Device, header: CowId)
    requires d.unverified && header.uuid != 0
    ensures !Accepts(true, header, Info(d))
  {
  }

  lemma Position(series: seq<CowId>, i: nat, j: nat)
    requires Numbered(series) && |series| < WIDTH && i < |series| && j < |series|
    ensures series[i].seqid == (series[j].seqid - 1) % WIDTH <==> i + 1 == j
  {
    assert series[i].seqid == i + 1 && series[j].seqid == j + 1;
  }

  /** The file was made right before the other one in the same series. */
  predicate Precedes(made: seq<CowId>, a: CowId, b: CowId) {
    var series := Series(made, b.uuid);
    exists i :: 0 <= i < |series| - 1 && series[i] == a && series[i + 1] == b
  }

  lemma AcceptedPrecedes(made: seq<CowId>, header: CowId, own: CowId)
    requires AllNumbered(made) && header in made && own in made && |Series(made, own.uuid)| < WIDTH
    ensures Accepts(true, header, own) ==> Precedes(made, header, own)
  {
    var series := Series(made, own.uuid);
    assert Numbered(series);
    if header.uuid == own.uuid {
      var j := InSeries(made, own);
      var i := InSeries(made, header);
      Position(series, i, j);
    }
  }

  lemma PredecessorAccepted(made: seq<CowId>, header: CowId, own: CowId)
    requires AllNumbered(made) && |Series(made, own.uuid)| < WIDTH && Precedes(made, header, own)
    ensures Accepts(true, header, own)
  {
    var series := Series(made, own.uuid);
    assert Numbered(series);
    var i :| 0 <= i < |series| - 1 && series[i] == header && series[i + 1] == own;
    Position(series, i, i + 1);
  }

  /** The check accepts a COW file exactly when it is the one made right before
      the tracer's own in the same series. */
  lemma AcceptsExactlyPredecessor(run: Run, path: nat, minor: nat)
    requires run.Valid() && run.FreshNames() && run.Continuing()
    requires var s := run.Final();
             && path in s.files && InUse(s, minor) && s.devices[minor].value.cow.Some?
             && |Series(s.made, s.devices[minor].value.cow.value.uuid)| < WIDTH
    ensures var s := run.Final();
            var d := s.devices[minor].value;
            Accepts(true, s.files[path], Info(d)) <==> Precedes(s.made, s.files[path], d.cow.value)
  {
    RunOk(run);
    SeriesNumbered(run);
    var s := run.Final();
    var d := s.devices[minor].value;
    assert DeviceOk(d);
    AcceptedPrecedes(s.made, s.files[path], d.cow.value);
    if Precedes(s.made, s.files[path], d.cow.value) { PredecessorAccepted(s.made, s.files[path], d.cow.value); }
  }

  // -------------------------------------------------- reloading an older file

  /** Snapshot, incremental, snapshot; then, after a reboot, the first file again. */
  function AfterFirst(): Run {
    Then(Then(Then(Boot(1), SetupSnap(0, Some(7), true, 1, 10, 5, 9, Works)),
              ToIncremental(0, false, Works, true, false)),
         ToSnapshot(0, false, 11, 5, Works, true))
  }

  function OlderReloaded(): Run {
    Then(Then(Then(Then(AfterFirst(), Reboot), Reload(0, false, Some(7), false, 1, 10, Works)),
              Mount(7, map[1 := 7], 5, Works)),
         ToSnapshot(0, false, 12, 5, Works, true))
  }

  lemma FirstChain()
    ensures var s := AfterFirst().Final();
            && s.made == [CowId(9, 1), CowId(9, 2)] && s.files == map[10 := CowId(9, 1), 11 := CowId(9, 2)]
            && |s.devices| == 1
  {
    var s0 := Boot(1).Final();
    var s1 := Next(s0, SetupSnap(0, Some(7), true, 1, 10, 5, 9, Works));
    var d1 := Device(true, true, false, false, Some(7), 1, 10, Some(CowId(9, 1)), Some(5));
    assert s1.devices == [Some(d1)] && s1.made == [CowId(9, 1)] && s1.files == map[10 := CowId(9, 1)];
    var s2 := Next(s1, ToIncremental(0, false, Works, true, false));
    assert s2.devices == [Some(d1.(snapshot := false))] && s2.made == s1.made && s2.files == s1.files;
    var s3 := Next(s2, ToSnapshot(0, false, 11, 5, Works, true));
    assert s3.made == [CowId(9, 1), CowId(9, 2)];
  }

  lemma RepeatedNumber()
    ensures !AllNumbered([CowId(9, 1), CowId(9, 2), CowId(9, 2)])
  {
    var one, two := CowId(9, 1), CowId(9, 2);
    SeriesAdd([], one, 9);
    SeriesAdd([one], two, 9);
    SeriesAdd([one, two], two, 9);
    assert [] + [one] == [one] && [one] + [two] == [one, two] && [one, two] + [two] == [one, two, two];
    assert Series([one, two, two], 9)[2] == two;
    assert !Numbered(Series([one, two, two], 9));
  }

  lemma SecondBoot(s: System)
    requires s.made == [CowId(9, 1), CowId(9, 2)] && s.files == map[10 := CowId(9, 1), 11 := CowId(9, 2)]
    requires |s.devices| == 1
    ensures var s' := Next(Next(Next(s, Reboot), Reload(0, false, Some(7), false, 1, 10, Works)),
                           Mount(7, map[1 := 7], 5, Works));
            && s'.devices == [Some(Device(false, true, false, false, Some(7), 1, 10, Some(CowId(9, 1)), Some(5)))]
            && s'.made == s.made
  {
    var s4 := Next(s, Reboot);
    assert s4.devices == [None] && s4.made == s.made && s4.files == s.files;
    var s5 := Next(s4, Reload(0, false, Some(7), false, 1, 10, Works));
    assert s5.devices == [Some(Unverified(false, false, 1, 10))] && s5.files == s.files;
    var s6 := Next(s5, Mount(7, map[1 := 7], 5, Works));
    assert Removed(s5, 0).devices == [None];
    assert s6.made == s.made;
  }

  /** Reloading a file that is not its series' newest makes two files with the
      same number. */
  lemma OlderFileRepeatsNumber()
    ensures OlderReloaded().Valid() && OlderReloaded().FreshNames()
    ensures OlderReloaded().Final().made == [CowId(9, 1), CowId(9, 2), CowId(9, 2)]
    ensures !AllNumbered(OlderReloaded().Final().made)
  {
    FirstChain();
    SecondBoot(AfterFirst().Final());
    RepeatedNumber();
  }
}
