/** The COW files of the device table over whole runs: which file was made with which
    identity, and that files and tracers keep to it. */
module CowFiles {
  import opened Blocks
  import opened Lifecycle

  /** The event sets a new snapshot up. */
  predicate Starts(s: System, e: Event) {
    && e.SetupSnap? && e.minor < |s.devices| && s.devices[e.minor].None? && e.found.Some? && e.mounted
    && Find(s, Traces(e.found.value)) == |s.devices| && e.how.Works?
  }

  /** The file an event makes, with its identity. */
  function Creates(s: System, e: Event): map<nat, CowId> {
    if Starts(s, e) then map[e.cowPath := CowId(e.uuid, 1)]
    else if Continues(s, e) then map[e.cowPath := NextId(s.devices[e.minor].value.cow.value)]
    else map[]
  }

  /** History: the identity each path's file was made with. */
  function Born(run: Run): map<nat, CowId> {
    match run
    case Boot(_) => map[]
    case Then(prev, e) => Born(prev) + Creates(prev.Final(), e)
  }

  /** No two files are made at one path. */
  predicate PathsOnce(run: Run) {
    match run
    case Boot(_) => true
    case Then(prev, e) => PathsOnce(prev) && Creates(prev.Final(), e).Keys !! Born(prev).Keys
  }

  predicate DeviceFiled(d: Device, born: map<nat, CowId>) {
    d.cow.Some? ==> d.cowPath in born && d.cow.value == born[d.cowPath]
  }

  /** Files have the identity they were made with, and a tracer that has an identity
      has the path of the file made with it. */
  predicate Filed(s: System, born: map<nat, CowId>) {
    && (forall p :: p in s.files ==> p in born && s.files[p] == born[p])
    && (forall p :: p in born ==> born[p].seqid < WIDTH)
    && (forall i :: 0 <= i < |s.devices| && s.devices[i].Some? ==> DeviceFiled(s.devices[i].value, born))
  }

  lemma MoreBorn(s: System, born: map<nat, CowId>, more: map<nat, CowId>)
    requires Filed(s, born) && more.Keys !! born.Keys && forall p :: p in more ==> more[p].seqid < WIDTH
    ensures Filed(s, born + more)
  {
  }

  lemma SetupFiled(s: System, e: Event, born: map<nat, CowId>)
    requires Filed(s, born) && (e.SetupSnap? || e.Reload?) && Creates(s, e).Keys !! born.Keys
    ensures Filed(Next(s, e), born + Creates(s, e))
  {
    MoreBorn(s, born, Creates(s, e));
  }

  lemma ToSnapshotFiled(s: System, e: Event, born: map<nat, CowId>)
    requires Filed(s, born) && e.ToSnapshot? && Creates(s, e).Keys !! born.Keys
    ensures Filed(Next(s, e), born + Creates(s, e))
  {
    MoreBorn(s, born, Creates(s, e));
    if Continues(s, e) { assert e.cowPath in Creates(s, e).Keys; }
  }

  lemma FaultyFiled(s: System, minor: nat, unlinked: bool, born: map<nat, CowId>)
    requires Filed(s, born) && InUse(s, minor)
    ensures Filed(Faulty(s, minor, unlinked), born)
  {
    assert DeviceFiled(s.devices[minor].value, born);
  }

  lemma ToIncrementalFiled(s: System, e: Event, born: map<nat, CowId>)
    requires Filed(s, born) && e.ToIncremental?
    ensures Filed(Next(s, e), born)
  {
    if InUse(s, e.minor) {
      assert DeviceFiled(s.devices[e.minor].value, born);
      var s' := Placed(s, e.minor, s.devices[e.minor].value.(snapshot := false, active := true, unverified := false));
      FaultyFiled(s', e.minor, e.unlinked, born);
    }
  }

  lemma VerifiedFiled(s: System, minor: nat, bdev: nat, mnt: nat, how: Building, born: map<nat, CowId>)
    requires Filed(s, born) && InUse(s, minor)
    ensures Filed(Verified(s, minor, bdev, mnt, how), born)
  {
  }

  lemma ReopenedFiled(s: System, minor: nat, mnt: nat, works: bool, born: map<nat, CowId>)
    requires Filed(s, born) && InUse(s, minor)
    ensures Filed(Reopened(s, minor, mnt, works), born) && Filed(Failed(s, minor), born)
  {
    assert DeviceFiled(s.devices[minor].value, born);
  }

  lemma ClosedFiled(s: System, minor: nat, closed: bool, born: map<nat, CowId>)
    requires Filed(s, born) && InUse(s, minor)
    ensures Filed(Closed(s, minor, closed), born)
  {
    assert DeviceFiled(s.devices[minor].value, born);
  }

  lemma MountFiled(s: System, e: Event, born: map<nat, CowId>)
    requires Filed(s, born) && (e.Mount? || e.Umount?)
    ensures Filed(Next(s, e), born)
  {
    if e.Mount? {
      var k := Find(s, ToActivate(e.bdev, e.names));
      if k < |s.devices| {
        VerifiedFiled(s, k, e.bdev, e.mnt, e.how, born);
        ReopenedFiled(s, k, e.mnt, e.how.Works?, born);
      }
    } else {
      var k := Find(s, ToClose(e.bdev, e.mnt));
      if k < |s.devices| {
        ClosedFiled(s, k, e.closed, born);
        ReopenedFiled(Closed(s, k, e.closed), k, e.mnt, e.result.Refused? && e.result.reopened, born);
      }
    }
  }

  lemma EventFiled(s: System, e: Event, born: map<nat, CowId>)
    requires Filed(s, born) && Creates(s, e).Keys !! born.Keys
    ensures Filed(Next(s, e), born + Creates(s, e))
  {
    match e
    case SetupSnap(_, _, _, _, _, _, _, _) => SetupFiled(s, e, born);
    case Reload(_, _, _, _, _, _, _) => SetupFiled(s, e, born);
    case ToSnapshot(_, _, _, _, _, _) => ToSnapshotFiled(s, e, born);
    case _ =>
      assert born + Creates(s, e) == born;
      OtherFiled(s, e, born);
  }

  lemma OtherFiled(s: System, e: Event, born: map<nat, CowId>)
    requires Filed(s, born) && !e.SetupSnap? && !e.Reload? && !e.ToSnapshot?
    ensures Filed(Next(s, e), born)
  {
    match e
    case ToIncremental(_, _, _, _, _) => ToIncrementalFiled(s, e, born);
    case Mount(_, _, _, _) => MountFiled(s, e, born);
    case Umount(_, _, _, _) => MountFiled(s, e, born);
    case Fault(minor, unlinked) => if InUse(s, minor) { FaultyFiled(s, minor, unlinked, born); }
    case Destroy(_, _) =>
    case Reboot =>
  }

  /** In every run in which no two files are made at one path, every file has the
      identity it was made with for as long as it exists, and every tracer that has an
      identity has the path of the file that was made with it. */
  lemma {:induction false} FilesKeepIdentity(run: Run)
    requires run.Valid() && PathsOnce(run)
    ensures Filed(run.Final(), Born(run))
  {
    match run
    case Boot(_) =>
    case Then(prev, e) =>
      FilesKeepIdentity(prev);
      EventFiled(prev.Final(), e, Born(prev));
  }

  /** A file that is made is there, and its tracer has its path and identity. */
  lemma MadeFileIsThere(run: Run, e: Event)
    requires run.Valid() && PathsOnce(Then(run, e))
    requires Starts(run.Final(), e) || Continues(run.Final(), e)
    ensures var s, s', id := run.Final(), Next(run.Final(), e), Creates(run.Final(), e)[e.cowPath];
            && e.cowPath in s'.files && s'.files[e.cowPath] == id
            && InUse(s', e.minor) && s'.devices[e.minor].value.cowPath == e.cowPath
            && s'.devices[e.minor].value.cow == Some(id) && s'.devices[e.minor].value.file == Some(e.mnt)
  {
    var s := run.Final();
    FilesKeepIdentity(run);
    if Continues(s, e) { OldPathStays(s, e, Born(run)); }
  }

  lemma OldPathStays(s: System, e: Event, born: map<nat, CowId>)
    requires Filed(s, born) && Continues(s, e) && Creates(s, e).Keys !! born.Keys
    ensures s.devices[e.minor].value.cowPath in born && s.devices[e.minor].value.cowPath != e.cowPath
  {
    assert DeviceFiled(s.devices[e.minor].value, born);
    assert e.cowPath in Creates(s, e).Keys;
  }

  /** What the tool needs after a transition: if the old file could be closed it is
      where it was, and the tool accepts it for the new snapshot. */
  lemma OldFileIsPredecessor(run: Run, e: Event)
    requires run.Valid() && PathsOnce(Then(run, e)) && Continues(run.Final(), e) && e.synced
    ensures var s, s' := run.Final(), Next(run.Final(), e);
            var was, now := s.devices[e.minor].value, s'.devices[e.minor].value;
            && was.cowPath in s'.files && s'.files[was.cowPath] == was.cow.value
            && Accepts(true, s'.files[was.cowPath], Info(now))
  {
    FilesKeepIdentity(run);
    OldFileAccepted(run.Final(), e, Born(run));
  }

  lemma OldFileAccepted(s: System, e: Event, born: map<nat, CowId>)
    requires Filed(s, born) && Continues(s, e) && e.synced && Creates(s, e).Keys !! born.Keys
    ensures var s', was := Next(s, e), s.devices[e.minor].value;
            && InUse(s', e.minor) && was.cowPath in s'.files && s'.files[was.cowPath] == was.cow.value
            && Accepts(true, s'.files[was.cowPath], Info(s'.devices[e.minor].value))
  {
    assert DeviceFiled(s.devices[e.minor].value, born);
    OldPathStays(s, e, born);
    Back(s.devices[e.minor].value.cow.value.seqid);
  }

  lemma Back(n: nat)
    requires n < WIDTH
    ensures n == ((n + 1) % WIDTH - 1) % WIDTH
  {
  }

  /** Why paths must differ: a transition that closes the old file leaves the new
      tracer's identity at its path if and only if that is not the old path. */
  lemma OwnFileExactly(s: System, e: Event)
    requires Continues(s, e) && e.synced && s.devices[e.minor].value.cow.value.seqid < WIDTH
    ensures var s' := Next(s, e);
            && InUse(s', e.minor) && e.cowPath in s'.files
            && (Some(s'.files[e.cowPath]) == s'.devices[e.minor].value.cow
                <==> e.cowPath != s.devices[e.minor].value.cowPath)
  {
    var n := s.devices[e.minor].value.cow.value.seqid;
    assert (n + 1) % WIDTH != n;
  }

  /** A snapshot, and after it another in the same file. */
  lemma ReusedPathMisnames()
    ensures var s := Then(Then(Then(Boot(1), SetupSnap(0, Some(7), true, 1, 10, 5, 9, Works)),
                               ToIncremental(0, false, Works, true, false)),
                          ToSnapshot(0, false, 10, 5, Works, true)).Final();
            && InUse(s, 0) && s.devices[0].value.cowPath == 10 && s.devices[0].value.cow == Some(CowId(9, 2))
            && s.files == map[10 := CowId(9, 1)]
  {
    var s1 := Next(Boot(1).Final(), SetupSnap(0, Some(7), true, 1, 10, 5, 9, Works));
    var d1 := Device(true, true, false, false, Some(7), 1, 10, Some(CowId(9, 1)), Some(5));
    assert s1.devices == [Some(d1)] && s1.files == map[10 := CowId(9, 1)];
    var s2 := Next(s1, ToIncremental(0, false, Works, true, false));
    assert s2.devices == [Some(d1.(snapshot := false))] && s2.files == s1.files;
  }
}
