/** The table of snapshot devices as the driver keeps it: an array of slots and a
    range of minors, both updated in place by ioctls and mount events. */
module Driver {
  import opened Blocks
  import opened Lifecycle

  class Table {
    const slots: array<Option<Device>>
    var lowest: nat
    var highest: nat
    var files: map<nat, CowId>
    ghost var made: seq<CowId>

    ghost function View(): System
      reads this, slots
    {
      System(slots[..], lowest, highest, files, made)
    }

    ghost predicate Ready()
      reads this, slots
    {
      SystemOk(View())
    }

    constructor (size: nat)
      requires size > 0
      ensures fresh(slots) && View() == Run.Boot(size).Final() && Ready()
    {
      slots := new Option<Device>[size](_ => None);
      lowest, highest, files, made := size - 1, 0, map[], [];
      new;
      EmptyOk(size, map[], []);
      assert slots[..] == seq(size, _ => None);
    }

    method RecalculateRange()
      requires slots.Length > 0
      modifies this`lowest, this`highest
      ensures View() == Recalculated(old(View()))
    {
      var low: nat, high: nat := slots.Length - 1, 0;
      for i := 0 to slots.Length
        invariant forall j :: 0 <= j < i && slots[j].Some? ==> low <= j <= high
        invariant low < slots.Length && high < slots.Length
        invariant low == slots.Length - 1 || (low < i && slots[low].Some?)
        invariant high == 0 || (high < i && slots[high].Some?)
      {
        if slots[i].Some? {
          if i < low { low := i; }
          if i > high { high := i; }
        }
      }
      lowest, highest := low, high;
    }

    method Include(minor: nat)
      modifies this`lowest, this`highest
      ensures lowest == Min(old(lowest), minor) && highest == Max(old(highest), minor)
    {
      if minor < lowest { lowest := minor; }
      if minor > highest { highest := minor; }
    }

    method Place(minor: nat, d: Device)
      requires minor < slots.Length
      modifies this`lowest, this`highest, slots
      ensures View() == Placed(old(View()), minor, d)
    {
      Include(minor);
      slots[minor] := Some(d);
    }

    method Remove(minor: nat)
      requires minor < slots.Length
      modifies this`lowest, this`highest, slots
      ensures View() == Removed(old(View()), minor)
    {
      slots[minor] := None;
      RecalculateRange();
    }

    /** Walks the range of minors to the first match. */
    method Walk(q: Query) returns (k: nat)
      requires Ready()
      ensures k == Find(View(), q)
    {
      k := lowest;
      while k <= highest
        invariant lowest <= k <= slots.Length
        invariant Find(View(), q) == First(slots[..], q, k, highest)
      {
        if Matches(q, slots[k]) {
          return;
        }
        k := k + 1;
      }
      k := slots.Length;
    }

    method Unlink(path: nat)
      modifies this`files
      ensures files == old(files) - {path}
    {
      files := files - {path};
    }

    method SetupSnap(minor: nat, found: Option<nat>, mounted: bool, bdevPath: nat, cowPath: nat, mnt: nat,
                     uuid: nat, how: Building) returns (ok: bool)
      requires Ready()
      modifies this, slots
      ensures View() == Next(old(View()), Event.SetupSnap(minor, found, mounted, bdevPath, cowPath, mnt, uuid, how))
      ensures Ready() && OnlySlot(old(slots[..]), slots[..], minor)
      ensures ok ==>
        && old(!InUse(View(), minor)) && InUse(View(), minor)
        && StageOf(slots[minor].value) == Some(Active) && slots[minor].value.snapshot && !slots[minor].value.fail
        && slots[minor].value.cow == Some(CowId(uuid, 1)) && made == old(made) + [CowId(uuid, 1)]
        && slots[minor].value.base == found && slots[minor].value.bdevPath == bdevPath
        && slots[minor].value.cowPath == cowPath && slots[minor].value.file == Some(mnt)
        && files == old(files)[cowPath := CowId(uuid, 1)]
      ensures !ok ==> files == old(files) || files == old(files) - {cowPath}
      ensures !ok ==> slots[..] == old(slots[..]) && made == old(made)
    {
      EventKeeps(View(), Event.SetupSnap(minor, found, mounted, bdevPath, cowPath, mnt, uuid, how));
      if minor >= slots.Length || slots[minor].Some? || found.None? || !mounted {
        return false;
      }
      var k := Walk(Traces(found.value));
      if k < slots.Length {
        RecalculateRange();
        return false;
      }
      if !how.Works? {
        if how.Fails? && how.unlinked { Unlink(cowPath); }
        RecalculateRange();
        return false;
      }
      files := files[cowPath := CowId(uuid, 1)];
      made := made + [CowId(uuid, 1)];
      Place(minor, Device(true, true, false, false, found, bdevPath, cowPath, Some(CowId(uuid, 1)), Some(mnt)));
      return true;
    }

    method Reload(minor: nat, snap: bool, found: Option<nat>, mounted: bool, bdevPath: nat, cowPath: nat,
                  how: Building) returns (ok: bool)
      requires Ready()
      modifies this, slots
      ensures View() == Next(old(View()), Event.Reload(minor, snap, found, mounted, bdevPath, cowPath, how))
      ensures Ready() && OnlySlot(old(slots[..]), slots[..], minor) && files == old(files) && made == old(made)
      ensures ok ==>
        && old(!InUse(View(), minor)) && InUse(View(), minor)
        && StageOf(slots[minor].value) == Some(Untried) && slots[minor].value.snapshot == snap
        && slots[minor].value.bdevPath == bdevPath && slots[minor].value.cowPath == cowPath && !slots[minor].value.fail
      ensures !ok ==> slots[..] == old(slots[..])
    {
      EventKeeps(View(), Event.Reload(minor, snap, found, mounted, bdevPath, cowPath, how));
      if minor >= slots.Length || slots[minor].Some? || found.None? || mounted {
        return false;
      }
      if !how.Works? {
        RecalculateRange();
        return false;
      }
      Place(minor, Unverified(snap, false, bdevPath, cowPath));
      return true;
    }

    method Destroy(minor: nat, busy: bool) returns (ok: bool)
      requires Ready()
      modifies this, slots
      ensures View() == Next(old(View()), Event.Destroy(minor, busy))
      ensures Ready() && OnlySlot(old(slots[..]), slots[..], minor)
      ensures ok <==> old(InUse(View(), minor)) && !busy
      ensures ok ==>
        && !InUse(View(), minor) && made == old(made)
        && (if old(slots[minor]).value.file.Some? then files == old(files) - {old(slots[minor]).value.cowPath}
            else files == old(files))
      ensures !ok ==> View() == old(View())
    {
      EventKeeps(View(), Event.Destroy(minor, busy));
      if minor >= slots.Length || slots[minor].None? || busy {
        return false;
      }
      if slots[minor].value.file.Some? { Unlink(slots[minor].value.cowPath); }
      Remove(minor);
      return true;
    }

    /** The same block device, and the same COW file, open where it was. */
    static predicate SameFile(was: Device, now: Device) {
      && now.base == was.base && now.bdevPath == was.bdevPath
      && now.cowPath == was.cowPath && now.cow == was.cow && now.file == was.file
    }

    method TransitionInc(minor: nat, busy: bool, how: Building, drained: bool, unlinked: bool) returns (ok: bool)
      requires Ready()
      modifies this, slots
      ensures View() == Next(old(View()), ToIncremental(minor, busy, how, drained, unlinked))
      ensures Ready() && OnlySlot(old(slots[..]), slots[..], minor) && made == old(made)
      ensures ok ==>
        && old(InUse(View(), minor)) && InUse(View(), minor)
        && !slots[minor].value.snapshot && slots[minor].value.active && !slots[minor].value.fail
        && SameFile(old(slots[minor]).value, slots[minor].value) && files == old(files)
      ensures !ok && slots[..] != old(slots[..]) ==>
        && old(InUse(View(), minor)) && InUse(View(), minor)
        && !slots[minor].value.snapshot && slots[minor].value.fail
        && slots[minor].value.cow == old(slots[minor]).value.cow
        && Deleted(old(slots[minor]).value, slots[minor].value, old(files), files, unlinked)
      ensures !ok && slots[..] == old(slots[..]) ==> files == old(files)
    {
      EventKeeps(View(), ToIncremental(minor, busy, how, drained, unlinked));
      if minor >= slots.Length || slots[minor].None? || busy {
        return false;
      }
      var d := slots[minor].value;
      if d.fail || !d.snapshot || !d.active {
        return false;
      }
      if !how.Works? {
        RecalculateRange();
        return false;
      }
      Place(minor, d.(snapshot := false, active := true, unverified := false));
      if !drained { Break(minor, unlinked); }
      return drained;
    }

    /** The COW file stays as it is, or is closed and deleted. */
    static predicate Deleted(was: Device, now: Device, before: map<nat, CowId>, after: map<nat, CowId>, yes: bool) {
      && now.file == (if yes then None else was.file)
      && after == if yes then before - {was.cowPath} else before
    }

    method Break(minor: nat, unlinked: bool)
      requires InUse(View(), minor)
      modifies this`files, slots
      ensures View() == Faulty(old(View()), minor, unlinked)
    {
      var d := slots[minor].value;
      if unlinked { Unlink(d.cowPath); }
      slots[minor] := Some(d.(fail := true, file := if unlinked then None else d.file));
    }

    /** A thread of an active tracer meets an error. */
    method ThreadError(minor: nat, unlinked: bool)
      requires Ready()
      modifies this`files, slots
      ensures View() == Next(old(View()), Fault(minor, unlinked))
      ensures Ready() && OnlySlot(old(slots[..]), slots[..], minor)
      ensures InUse(View(), minor) && slots[minor].value.active ==>
        && old(InUse(View(), minor)) && slots[minor].value.fail
        && Deleted(old(slots[minor]).value, slots[minor].value, old(files), files, unlinked)
        && SameDevice(old(slots[minor]).value, slots[minor].value)
      ensures !(InUse(View(), minor) && slots[minor].value.active) ==> View() == old(View())
    {
      EventKeeps(View(), Fault(minor, unlinked));
      if minor < slots.Length && slots[minor].Some? && slots[minor].value.active { Break(minor, unlinked); }
    }

    /** The same block device, and a new COW file at this path and on this mount, with
        the next number of the series. */
    static predicate NextFile(was: Device, now: Device, cowPath: nat, mnt: nat) {
      && now.base == was.base && now.bdevPath == was.bdevPath
      && now.cowPath == cowPath && now.file == Some(mnt)
      && was.cow.Some? && now.cow == Some(NextId(was.cow.value))
    }

    /** The new file is there, and the old one is closed with its own identity, or lost. */
    static ghost function Succeeded(files: map<nat, CowId>, was: Device, now: Device, synced: bool): map<nat, CowId>
      requires was.cow.Some? && now.cow.Some?
    {
      (if synced then files[was.cowPath := was.cow.value] else files - {was.cowPath})[now.cowPath := now.cow.value]
    }

    static lemma MadeThenClosed(files: map<nat, CowId>, was: Device, now: Device, synced: bool)
      requires was.cow.Some? && now.cow.Some? && was.cowPath != now.cowPath
      ensures var made := files[now.cowPath := now.cow.value];
              Succeeded(files, was, now, synced)
              == if synced then made[was.cowPath := was.cow.value] else made - {was.cowPath}
    {
    }

    method TransitionSnap(minor: nat, busy: bool, cowPath: nat, mnt: nat, how: Building, synced: bool)
      returns (ok: bool)
      requires Ready()
      modifies this, slots
      ensures View() == Next(old(View()), ToSnapshot(minor, busy, cowPath, mnt, how, synced))
      ensures Ready() && OnlySlot(old(slots[..]), slots[..], minor)
      ensures ok <==> Continues(old(View()), ToSnapshot(minor, busy, cowPath, mnt, how, synced))
      ensures ok ==>
        && InUse(View(), minor) && slots[minor].value.snapshot && slots[minor].value.active && !slots[minor].value.fail
        && NextFile(old(slots[minor]).value, slots[minor].value, cowPath, mnt)
        && made == old(made) + [slots[minor].value.cow.value]
      ensures ok && cowPath != old(slots[minor]).value.cowPath ==>
        files == Succeeded(old(files), old(slots[minor]).value, slots[minor].value, synced)
      ensures !ok ==> slots[..] == old(slots[..]) && made == old(made)
      ensures !ok ==> files == old(files) || files == old(files) - {cowPath}
    {
      EventKeeps(View(), ToSnapshot(minor, busy, cowPath, mnt, how, synced));
      if minor >= slots.Length || slots[minor].None? || busy {
        return false;
      }
      var d := slots[minor].value;
      if d.fail || d.snapshot || !d.active {
        return false;
      }
      assert DeviceOk(View().devices[minor].value);
      if !how.Works? {
        if how.Fails? && how.unlinked { Unlink(cowPath); }
        RecalculateRange();
        return false;
      }
      var id := NextId(d.cow.value);
      var next := d.(snapshot := true, active := true, unverified := false, fail := false,
                     cowPath := cowPath, cow := Some(id), file := Some(mnt));
      if cowPath != d.cowPath { MadeThenClosed(files, d, next, synced); }
      files := files[cowPath := id];
      made := made + [id];
      Place(minor, next);
      if synced { files := files[d.cowPath := d.cow.value]; } else { Unlink(d.cowPath); }
      return true;
    }

    method UnverifiedToActive(minor: nat, bdev: nat, mnt: nat, how: Building)
      requires Ready() && InUse(View(), minor)
      modifies this, slots
      ensures View() == Verified(old(View()), minor, bdev, mnt, how)
      ensures OnlySlot(old(slots[..]), slots[..], minor)
      ensures how.Lost? <==> slots[minor].None?
      ensures files == old(files) || (how == Fails(true) && files == old(files) - {old(slots[minor]).value.cowPath})
      ensures slots[minor].Some? ==>
        var d := slots[minor].value;
        && d.snapshot == old(slots[minor]).value.snapshot
        && d.bdevPath == old(slots[minor]).value.bdevPath && d.cowPath == old(slots[minor]).value.cowPath
        && (if StageOf(d) == Some(Active)
            then
              && d.base == Some(bdev) && d.cowPath in old(files) && d.cow == Some(old(files)[d.cowPath])
              && d.file == Some(mnt)
            else StageOf(d) == Some(Untried) && d.fail)
    {
      var d := slots[minor].value;
      RemovedKeeps(View(), minor);
      Remove(minor);
      if how.Lost? {
        return;
      }
      var k := Walk(Traces(bdev));
      if k == slots.Length && how.Works? && d.cowPath in files {
        Place(minor, Device(d.snapshot, true, false, d.fail, Some(bdev), d.bdevPath, d.cowPath,
                            Some(files[d.cowPath]), Some(mnt)));
      } else {
        if k == slots.Length && how.Fails? && how.unlinked { Unlink(d.cowPath); }
        Place(minor, Unverified(d.snapshot, true, d.bdevPath, d.cowPath));
      }
    }

    /** The same block device and path of the COW file, in the same mode. */
    static predicate SameDevice(was: Device, now: Device) {
      && now.base == was.base && now.bdevPath == was.bdevPath && now.cowPath == was.cowPath
      && now.snapshot == was.snapshot
    }

    method DormantToActive(minor: nat, mnt: nat, works: bool)
      requires InUse(View(), minor)
      modifies slots
      ensures View() == Reopened(old(View()), minor, mnt, works)
      ensures OnlySlot(old(slots[..]), slots[..], minor) && InUse(View(), minor) && files == old(files)
      ensures SameDevice(old(slots[minor]).value, slots[minor].value)
      ensures var was, d := old(slots[minor]).value, slots[minor].value;
              if works && d.cowPath in files
              then
                && StageOf(d) == Some(Active) && d.cow == Some(files[d.cowPath])
                && d.file == Some(mnt) && d.fail == was.fail
              else StageOf(d) == StageOf(was) && d.cow == was.cow && d.fail
    {
      var d := slots[minor].value;
      if works && d.cowPath in files {
        slots[minor] := Some(d.(active := true, unverified := false, cow := Some(files[d.cowPath]), file := Some(mnt)));
      } else {
        SetFail(minor);
      }
    }

    method SetFail(minor: nat)
      requires InUse(View(), minor)
      modifies slots
      ensures View() == Failed(old(View()), minor)
      ensures OnlySlot(old(slots[..]), slots[..], minor)
    {
      slots[minor] := Some(slots[minor].value.(fail := true));
    }

    /** What a mount makes of the tracer it wakes: an unverified one becomes active
        with the identity in its file, or unverified and failed, or is lost; a
        dormant one becomes active likewise, or stays dormant and failed. */
    static ghost predicate Woken(was: Option<Device>, now: Option<Device>, bdev: nat, mnt: nat, how: Building,
                                 files: map<nat, CowId>)
    {
      was.Some? &&
      (if was.value.unverified && how.Lost? then now.None?
       else
         && now.Some? && now.value.snapshot == was.value.snapshot
         && now.value.bdevPath == was.value.bdevPath && now.value.cowPath == was.value.cowPath
         && (if StageOf(now.value) == Some(Active)
             then
               && how.Works? && now.value.base == Some(bdev) && now.value.cowPath in files
               && now.value.cow == Some(files[now.value.cowPath]) && now.value.file == Some(mnt)
               && !now.value.fail
             else StageOf(now.value) == StageOf(was.value) && now.value.fail))
    }

    /** A tracer that sleeps on this block device: dormant, or unverified and known by
        the name the mount has for the device. */
    static predicate Sleeps(slot: Option<Device>, bdev: nat, names: map<nat, nat>) {
      && slot.Some? && StageOf(slot.value) != Some(Active) && !slot.value.fail
      && (if StageOf(slot.value) == Some(Untried)
          then slot.value.bdevPath in names && names[slot.value.bdevPath] == bdev
          else slot.value.base == Some(bdev))
    }

    lemma FindSleeping(bdev: nat, names: map<nat, nat>)
      requires Ready()
      ensures var k := Find(View(), ToActivate(bdev, names));
              && (forall i :: 0 <= i < slots.Length && i < k ==> !Sleeps(slots[i], bdev, names))
              && (k < slots.Length ==> Sleeps(slots[k], bdev, names))
    {
      var k := Find(View(), ToActivate(bdev, names));
      if k < slots.Length { assert DeviceOk(View().devices[k].value); }
      forall i | 0 <= i < slots.Length && i < k
        ensures !Sleeps(slots[i], bdev, names)
      {
        NoneBefore(View(), ToActivate(bdev, names), i);
      }
    }

    method Mounted(bdev: nat, names: map<nat, nat>, mnt: nat, how: Building)
      requires Ready()
      modifies this, slots
      ensures View() == Next(old(View()), Mount(bdev, names, mnt, how)) && Ready()
      ensures var k := Find(old(View()), ToActivate(bdev, names));
              && (forall i :: 0 <= i < slots.Length && i < k ==> !Sleeps(old(slots[..])[i], bdev, names))
              &&
              if k == slots.Length then View() == old(View())
              else
                && Sleeps(old(slots[..])[k], bdev, names)
                && OnlySlot(old(slots[..]), slots[..], k)
                && Woken(old(slots[..])[k], slots[k], bdev, mnt, how, old(files))
    {
      EventKeeps(View(), Mount(bdev, names, mnt, how));
      FindSleeping(bdev, names);
      var k := Walk(ToActivate(bdev, names));
      if k < slots.Length {
        if slots[k].value.unverified {
          UnverifiedToActive(k, bdev, mnt, how);
        } else {
          DormantToActive(k, mnt, how.Works?);
        }
      }
    }

    method ActiveToDormant(minor: nat, closed: bool)
      requires InUse(View(), minor) && slots[minor].value.cow.Some? && !slots[minor].value.unverified
      modifies this`files, slots
      ensures View() == Closed(old(View()), minor, closed)
      ensures OnlySlot(old(slots[..]), slots[..], minor) && InUse(View(), minor)
      ensures var was, d := old(slots[minor]).value, slots[minor].value;
              && d.file.None? && d.cow == was.cow && SameDevice(was, d)
              && (if closed
                  then
                    && StageOf(d) == Some(Dormant) && d.fail == was.fail
                    && d.cowPath in files && Some(files[d.cowPath]) == d.cow
                  else StageOf(d) == StageOf(was) && d.fail && d.cowPath !in files)
    {
      var d := slots[minor].value;
      if closed {
        files := files[d.cowPath := d.cow.value];
        slots[minor] := Some(d.(active := false, file := None));
      } else {
        Unlink(d.cowPath);
        slots[minor] := Some(d.(fail := true, file := None));
      }
    }

    /** What an unmount makes of an active tracer of the same mode and file: dormant
        if its file was closed, active again if the unmount was then refused and the
        file reopened; and failed unless one of the two went well to the end. */
    static ghost predicate LeftBehind(was: Option<Device>, now: Option<Device>, closed: bool, result: Unmounting) {
      && was.Some? && now.Some? && StageOf(was.value) == Some(Active) && !was.value.fail
      && SameDevice(was.value, now.value) && now.value.cow == was.value.cow
      && now.value.file == (if closed && result == Refused(false, true) then was.value.file else None)
      && StageOf(now.value) == Some(if closed && result != Refused(false, true) then Dormant else Active)
      && (now.value.fail <==> !(closed && (result == Unmounted(false) || result == Refused(false, true))))
    }

    /** An active, unfailed tracer of this device whose COW file is open on this mount. */
    static predicate HasFileOn(slot: Option<Device>, bdev: nat, mnt: nat) {
      && slot.Some? && StageOf(slot.value) == Some(Active) && !slot.value.fail
      && slot.value.base == Some(bdev) && slot.value.file == Some(mnt)
    }

    lemma FindOpen(bdev: nat, mnt: nat)
      requires Ready()
      ensures var k := Find(View(), ToClose(bdev, mnt));
              && (forall i :: 0 <= i < slots.Length && i != k ==> !HasFileOn(slots[i], bdev, mnt))
              && (k < slots.Length ==> HasFileOn(slots[k], bdev, mnt))
    {
      var k := Find(View(), ToClose(bdev, mnt));
      if k < slots.Length { assert DeviceOk(View().devices[k].value); }
      forall i | 0 <= i < slots.Length && i != k
        ensures !HasFileOn(slots[i], bdev, mnt)
      {
        if HasFileOn(slots[i], bdev, mnt) {
          assert DeviceOk(View().devices[i].value);
          WalkSeesAll(View(), ToClose(bdev, mnt), i);
        }
      }
    }

    /** The unmount hook: close, unmount, then check that the unmount worked. */
    method Unmount(bdev: nat, mnt: nat, closed: bool, result: Unmounting)
      requires Ready()
      modifies this, slots
      ensures View() == Next(old(View()), Umount(bdev, mnt, closed, result)) && Ready()
      ensures var k := Find(old(View()), ToClose(bdev, mnt));
              && (forall i :: 0 <= i < slots.Length && i != k ==> !HasFileOn(old(slots[..])[i], bdev, mnt))
              &&
              if k == slots.Length then View() == old(View())
              else
                && HasFileOn(old(slots[..])[k], bdev, mnt)
                && OnlySlot(old(slots[..]), slots[..], k)
                && LeftBehind(old(slots[..])[k], slots[k], closed, result)
    {
      EventKeeps(View(), Umount(bdev, mnt, closed, result));
      FindOpen(bdev, mnt);
      var k := Walk(ToClose(bdev, mnt));
      if k == slots.Length {
        return;
      }
      ActiveToDormant(k, closed);
      match result {
        case Refused(gone, reopened) =>
          if gone { SetFail(k); } else { DormantToActive(k, mnt, reopened); }
        case Unmounted(stillMounted) =>
          if stillMounted { SetFail(k); }
      }
    }
  }
}
