/** Reserving an applied report: what may be on disk at every crash point, and what a failed
    reservation leaves behind. */
module Reservation {
  import opened Outcomes

  datatype File = ReportFile | JournalFile | MarkerFile | ReserveFile

  /** Is the directory entry on disk after a crash? */
  datatype Certainty = No | Maybe | Yes

  /** live: the entry is there now. complete: so is its whole content. synced: that content survives a
      crash if the entry does. */
  datatype FileState = FileState(live: bool, complete: bool, synced: bool, onDisk: Certainty)

  const ABSENT: FileState := FileState(false, false, false, No)

  datatype Disk = Disk(report: FileState, journal: FileState, marker: FileState, reserve: FileState) {
    function Of(f: File): FileState {
      match f
      case ReportFile => report
      case JournalFile => journal
      case MarkerFile => marker
      case ReserveFile => reserve
    }

    function With(f: File, s: FileState): Disk {
      match f
      case ReportFile => this.(report := s)
      case JournalFile => this.(journal := s)
      case MarkerFile => this.(marker := s)
      case ReserveFile => this.(reserve := s)
    }
  }

  const EMPTY_DISK: Disk := Disk(ABSENT, ABSENT, ABSENT, ABSENT)

  /** An active marker that can be on disk has a durable journal with its complete first record. */
  predicate CrashSafe(d: Disk) {
    d.marker.onDisk != No ==> d.journal.onDisk == Yes && d.journal.complete && d.journal.synced
  }

  /** The steps of a reservation that the environment may fail. */
  datatype Step =
    | OpenReports | OpenActive
    | Create(file: File) | Fill(file: File) | SyncFile(file: File) | Bind(file: File) | SelfUnlink(file: File)
    | SyncReports(pass: nat) | BindReports(pass: nat)
    | MarkerCapacity | SyncActive | BindActive | StateCapacity
    | CleanUnlink(file: File) | CleanSyncActive | CleanSyncReports

  function Synced(s: FileState): FileState { s.(onDisk := if s.live then Yes else No) }

  function Unlinked(s: FileState): FileState { s.(live := false, onDisk := if s.onDisk == No then No else Maybe) }

  /** The disk, the environment that decides which steps fail, and every state a crash could meet. */
  class Store {
    const fails: Step -> bool
    var disk: Disk
    ghost var history: seq<Disk>

    constructor (fails: Step -> bool)
      ensures this.fails == fails && disk == EMPTY_DISK && history == [EMPTY_DISK]
    {
      this.fails, disk, history := fails, EMPTY_DISK, [EMPTY_DISK];
    }

    /** Every state so far was safe to crash in. */
    ghost predicate SafeSoFar()
      reads this
    {
      forall i :: 0 <= i < |history| ==> CrashSafe(history[i])
    }

    method Become(d: Disk)
      modifies this
      ensures disk == d && history == old(history) + [d]
      ensures SafeSoFar() <==> old(SafeSoFar()) && CrashSafe(d)
    {
      disk := d;
      history := history + [d];
      assert history[|history| - 1] == d;
      assert forall i :: 0 <= i < |old(history)| ==> history[i] == old(history)[i];
    }

    /** Create, fill, sync and bind one private file; a half-made file is unlinked again, if possible. */
    method CreatePrivateFile(f: File) returns (ok: bool)
      requires disk.Of(f) == ABSENT
      requires f == MarkerFile ==> disk.journal == FileState(true, true, true, Yes)
      requires f != MarkerFile ==> disk.marker.onDisk == No || (f != JournalFile && CrashSafe(disk))
      requires SafeSoFar()
      modifies this
      ensures SafeSoFar()
      ensures ok <==> !fails(Create(f)) && !fails(Fill(f)) && !fails(SyncFile(f)) && !fails(Bind(f))
      ensures fails(Create(f)) ==> disk == old(disk)
      ensures exists s: FileState :: disk == old(disk).With(f, s) &&
                (ok ==> s == FileState(true, true, true, Maybe)) &&
                (!ok && !fails(Create(f)) ==> s.onDisk == Maybe && (s.live <==> fails(SelfUnlink(f))))
    {
      ghost var start := disk;
      if fails(Create(f)) {
        assert disk == disk.With(f, disk.Of(f));
        return false;
      }
      Become(disk.With(f, FileState(true, false, false, Maybe)));
      ok := !fails(Fill(f));
      if ok {
        Become(disk.With(f, disk.Of(f).(complete := true)));
        ok := !fails(SyncFile(f));
      }
      if ok {
        Become(disk.With(f, disk.Of(f).(synced := true)));
        ok := !fails(Bind(f));
      }
      if !ok && !fails(SelfUnlink(f)) {
        Become(disk.With(f, Unlinked(disk.Of(f))));
      }
      assert disk == start.With(f, disk.Of(f));
    }

    method SyncReportDirectory(step: Step) returns (ok: bool)
      requires SafeSoFar() && (disk.marker.onDisk != No ==> disk.journal.live && CrashSafe(disk))
      modifies this
      ensures SafeSoFar() && ok == !fails(step)
      ensures disk == if ok then
              Disk(Synced(old(disk).report), Synced(old(disk).journal), old(disk).marker, Synced(old(disk).reserve))
                      else old(disk)
    {
      ok := !fails(step);
      if ok {
        Become(Disk(Synced(disk.report), Synced(disk.journal), disk.marker, Synced(disk.reserve)));
      }
    }
  }

  // ----- which environments do what

  predicate Made(fails: Step -> bool, f: File) {
    !fails(Create(f)) && !fails(Fill(f)) && !fails(SyncFile(f)) && !fails(Bind(f))
  }

  /** The journal was made durable and the marker was about to be made. */
  predicate ReachesMarker(fails: Step -> bool) {
    && !fails(OpenReports) && !fails(OpenActive) && Made(fails, ReportFile) && Made(fails, JournalFile)
    && !fails(SyncReports(0)) && !fails(BindReports(0)) && !fails(MarkerCapacity)
  }

  predicate Succeeds(fails: Step -> bool) {
    && ReachesMarker(fails) && Made(fails, MarkerFile) && !fails(SyncActive) && !fails(BindActive)
    && Made(fails, ReserveFile) && !fails(SyncReports(1)) && !fails(BindReports(1))
    && !fails(StateCapacity) && !fails(BindReports(2))
  }

  /** A failed reservation unlinks its journal while its marker may still be on disk: the marker was
      only half made, or its own removal did not become durable first. */
  predicate OrphansMarker(fails: Step -> bool) {
    && ReachesMarker(fails) && !fails(Create(MarkerFile)) && !Succeeds(fails)
    && !fails(CleanUnlink(JournalFile))
    && (!Made(fails, MarkerFile) || fails(CleanUnlink(MarkerFile)) || fails(CleanSyncActive))
  }

  predicate CleansUp(fails: Step -> bool) {
    forall f: File :: !fails(SelfUnlink(f)) && !fails(CleanUnlink(f))
  }

  const DURABLE: FileState := FileState(true, true, true, Yes)

  /** What the cleanup starts from: the report-directory files made so far, and whether the marker was. */
  datatype Progress = Progress(created: seq<File>, marker: bool)

  ghost predicate Consistent(fails: Step -> bool, d: Disk, m: Progress) {
    && (m.created == [] || m.created == [ReportFile] || m.created == [ReportFile, JournalFile]
        || m.created == [ReportFile, JournalFile, ReserveFile])
    && (forall f: File :: f != MarkerFile && f !in m.created ==> !d.Of(f).live || fails(SelfUnlink(f)))
    && (!m.marker ==> !d.marker.live || fails(SelfUnlink(MarkerFile)))
    && (JournalFile !in m.created ==> d.marker.onDisk == No)
    && (m.marker ==> d.marker.live && d.marker.onDisk != No && JournalFile in m.created)
    && (d.marker.onDisk != No ==> d.journal == DURABLE)
  }

  /** The forward path, up to the first failing step. */
  method Build(store: Store) returns (ok: bool, m: Progress)
    requires store.disk == EMPTY_DISK && store.SafeSoFar() && !store.fails(OpenReports)
    modifies store
    ensures store.SafeSoFar() && ok == Succeeds(store.fails)
    ensures ok ==> store.disk == Disk(DURABLE, DURABLE, DURABLE, DURABLE)
    ensures !ok ==> Consistent(store.fails, store.disk, m)
    ensures store.disk.marker.onDisk != No <==> ReachesMarker(store.fails) && !store.fails(Create(MarkerFile))
    ensures m.marker <==> ReachesMarker(store.fails) && Made(store.fails, MarkerFile)
  {
    m := Progress([], false);
    if store.fails(OpenActive) { return false, m; }
    ok := store.CreatePrivateFile(ReportFile);
    if !ok { return; }
    m := m.(created := [ReportFile]);
    ok := store.CreatePrivateFile(JournalFile);
    if !ok { return; }
    m := m.(created := [ReportFile, JournalFile]);
    ok := store.SyncReportDirectory(SyncReports(0));
    if !ok || store.fails(BindReports(0)) || store.fails(MarkerCapacity) { return false, m; }
    ok, m := BuildMarked(store);
  }

  /** From the durable journal on: the marker, then the emergency reserve. */
  method BuildMarked(store: Store) returns (ok: bool, m: Progress)
    requires store.disk == Disk(DURABLE, DURABLE, ABSENT, ABSENT) && store.SafeSoFar() && ReachesMarker(store.fails)
    modifies store
    ensures store.SafeSoFar() && ok == Succeeds(store.fails)
    ensures ok ==> store.disk == Disk(DURABLE, DURABLE, DURABLE, DURABLE)
    ensures !ok ==> Consistent(store.fails, store.disk, m)
    ensures store.disk.marker.onDisk != No <==> !store.fails(Create(MarkerFile))
    ensures m.marker <==> Made(store.fails, MarkerFile)
  {
    m := Progress([ReportFile, JournalFile], false);
    ok := store.CreatePrivateFile(MarkerFile);
    if !ok { return; }
    m := m.(marker := true);
    if store.fails(SyncActive) { return false, m; }
    store.Become(store.disk.(marker := Synced(store.disk.marker)));
    if store.fails(BindActive) { return false, m; }
    ok := store.CreatePrivateFile(ReserveFile);
    if !ok { return; }
    m := m.(created := [ReportFile, JournalFile, ReserveFile]);
    ok := store.SyncReportDirectory(SyncReports(1));
    ok := ok && !store.fails(BindReports(1)) && !store.fails(StateCapacity) && !store.fails(BindReports(2));
  }

  /** Remove the marker first, and try to make that durable. */
  method CleanMarker(store: Store)
    requires store.SafeSoFar() && store.disk.marker.live && store.disk.marker.onDisk != No
             && store.disk.journal == DURABLE
    modifies store
    ensures store.SafeSoFar() && store.disk == old(store.disk).(marker := store.disk.marker)
    ensures store.disk.marker.live <==> store.fails(CleanUnlink(MarkerFile))
    ensures store.disk.marker.onDisk == No <==> !store.fails(CleanUnlink(MarkerFile)) && !store.fails(CleanSyncActive)
  {
    if store.fails(CleanUnlink(MarkerFile)) { return; }
    store.Become(store.disk.(marker := Unlinked(store.disk.marker)));
    if store.fails(CleanSyncActive) { return; }
    store.Become(store.disk.(marker := Synced(store.disk.marker)));
  }

  method CleanOne(store: Store, f: File)
    requires f != MarkerFile && (store.disk.marker.onDisk != No && f == JournalFile ==> store.disk.journal == DURABLE)
    requires store.disk.marker.onDisk != No && store.SafeSoFar() ==> CrashSafe(store.disk)
    modifies store
    ensures forall g: File :: g != f ==> store.disk.Of(g) == old(store.disk).Of(g)
    ensures store.disk.marker == old(store.disk).marker
    ensures store.fails(CleanUnlink(f)) ==> store.disk == old(store.disk)
    ensures store.disk.Of(f).live ==> store.fails(CleanUnlink(f))
    ensures store.SafeSoFar() <==>
              old(store.SafeSoFar()) && (store.disk.marker.onDisk == No || f != JournalFile
                                         || store.fails(CleanUnlink(f)))
  {
    if store.fails(CleanUnlink(f)) { return; }
    store.Become(store.disk.With(f, Unlinked(store.disk.Of(f))));
  }

  /** Unlink what was created in the report directory, newest first. */
  method CleanCreated(store: Store, created: seq<File>)
    requires store.SafeSoFar() && MarkerFile !in created
    requires forall i, j :: 0 <= i < j < |created| ==> created[i] != created[j]
    requires store.disk.marker.onDisk != No ==> store.disk.journal == DURABLE
    modifies store
    ensures store.disk.marker == old(store.disk.marker)
    ensures store.SafeSoFar() <==>
              old(store.disk.marker.onDisk) == No || JournalFile !in created || store.fails(CleanUnlink(JournalFile))
    ensures forall f: File :: f in created ==> (store.disk.Of(f).live ==> store.fails(CleanUnlink(f)))
    ensures forall f: File :: f !in created ==> store.disk.Of(f) == old(store.disk).Of(f)
    ensures store.SafeSoFar() && store.disk.marker.onDisk != No ==> store.disk.journal == DURABLE
  {
    var i := |created|;
    while i > 0
      invariant 0 <= i <= |created|
      invariant store.disk.marker == old(store.disk.marker)
      invariant forall f: File :: f in created[i..] ==> (store.disk.Of(f).live ==> store.fails(CleanUnlink(f)))
      invariant forall f: File :: f !in created[i..] ==> store.disk.Of(f) == old(store.disk).Of(f)
      invariant store.SafeSoFar() <==>
                  old(store.disk.marker.onDisk) == No || JournalFile !in created[i..]
                      || store.fails(CleanUnlink(JournalFile))
      invariant store.fails(CleanUnlink(JournalFile)) ==> store.disk.journal == old(store.disk.journal)
    {
      i := i - 1;
      var f := created[i];
      assert created[i..] == [f] + created[i + 1..];
      assert f !in created[i + 1..];
      CleanOne(store, f);
    }
    assert created[0..] == created;
  }

  method CleanSync(store: Store)
    requires store.disk.marker.onDisk != No && store.SafeSoFar() ==> store.disk.journal == DURABLE
    modifies store
    ensures store.SafeSoFar() == old(store.SafeSoFar())
    ensures forall f: File :: store.disk.Of(f).live == old(store.disk).Of(f).live
  {
    if store.fails(CleanSyncReports) { return; }
    var d := store.disk;
    store.Become(Disk(Synced(d.report), Synced(d.journal), d.marker, Synced(d.reserve)));
  }

  /** Reserve exclusively, or clean up. */
  method ReserveAppliedReport(store: Store) returns (ok: bool)
    requires store.disk == EMPTY_DISK && store.history == [EMPTY_DISK]
    modifies store
    ensures ok == Succeeds(store.fails)
    ensures ok ==> store.disk == Disk(DURABLE, DURABLE, DURABLE, DURABLE) && store.SafeSoFar()
    ensures store.SafeSoFar() <==> !OrphansMarker(store.fails)
    ensures !ok && CleansUp(store.fails) ==> forall f: File :: !store.disk.Of(f).live
  {
    assert store.SafeSoFar();
    if store.fails(OpenReports) { return false; }
    var m;
    ok, m := Build(store);
    if ok { return; }
    if m.marker { CleanMarker(store); }
    ghost var marker := store.disk.marker;
    CleanCreated(store, m.created);
    CleanSync(store);
  }

  /** Without any failing step but the marker's own sync, a complete cleanup still leaves a window in
      which the marker may reach the disk without its journal. */
  method HalfMadeMarkerIsOrphaned() returns (store: Store)
    ensures !store.SafeSoFar() && forall f: File :: !store.disk.Of(f).live
  {
    store := new Store(step => step == SyncFile(MarkerFile));
    var ok := ReserveAppliedReport(store);
  }
}
