/** What a launch does to the database's files when it goes wrong: classifying them, backing
    up crash leftovers, and discarding what a failed worker left behind. */
module LaunchCleanup {
  import opened Basics

  type Data = seq<nat>

  // The components of an unpacked database, one file each.
  datatype Part = Id0 | Id1 | Id2 | Nam | Til

  const COMPONENTS: seq<Part> := [Id0, Id1, Id2, Nam, Til]

  datatype Entry = Regular(data: Data) | LinkToFile(data: Data) | LinkToFolder | BrokenLink | Folder

  type Parts = map<Part, Entry>

  type BackupId = nat

  // A broken link is not seen to exist.
  predicate Exists(parts: Parts, p: Part) {
    p in parts && !parts[p].BrokenLink?
  }

  predicate IsFile(e: Option<Entry>) {
    e.Some? && (e.value.Regular? || e.value.LinkToFile?)
  }

  class FileSystem {
    var packed: Option<Entry>
    var parts: Parts
    var backups: map<BackupId, map<Part, Data>>
  }

  // ---------------------------------------------------------- classification

  datatype StateName = Missing | Packed | InUse | Crashed | Unpacked | Unknown

  datatype FileState = FileState(state: StateName, packedExists: bool, files: seq<Part>)

  // What a probe meets beside the files: the filesystem, the lock, and reading errors.
  datatype Lock = Owned | Failing | Granted

  datatype Surroundings = Surroundings(network: bool, lock: Lock, readFails: bool)

  const DIRTY_OFFSET := 18
  const SIGNATURE_OFFSET := 19
  const SIGNATURE: Data := [0x42, 0x2d, 0x74, 0x72, 0x65, 0x65, 0x20, 0x76, 0x32]   // "B-tree v2"
  const HEADER_SIZE := 28

  function Existing(parts: Parts, among: seq<Part>): seq<Part> {
    if among == [] then [] else (if Exists(parts, among[0]) then [among[0]] else []) + Existing(parts, among[1..])
  }

  predicate Distinct(files: seq<Part>) {
    forall i, j | 0 <= i < j < |files| :: files[i] != files[j]
  }

  function Header(data: Data): StateName {
    if |data| < HEADER_SIZE then Unknown
    else if data[SIGNATURE_OFFSET..HEADER_SIZE] != SIGNATURE then Unknown
    else if data[DIRTY_OFFSET] == 1 then Crashed
    else if data[DIRTY_OFFSET] == 0 then Unpacked
    else Unknown
  }

  function Classify(packed: Option<Entry>, parts: Parts, around: Surroundings): StateName {
    if !Exists(parts, Id0) then
      if Existing(parts, COMPONENTS) != [] then Unknown else if IsFile(packed) then Packed else Missing
    else if around.network then Unknown
    else match around.lock
      case Owned => InUse
      case Failing => Unknown
      case Granted => if parts[Id0].Regular? || parts[Id0].LinkToFile? then Header(parts[Id0].data) else Unknown
  }

  // Reading a folder, or a failing read, raises an error out of the probe.
  predicate ProbeRaises(parts: Parts, around: Surroundings) {
    Exists(parts, Id0) && !around.network && around.lock.Granted?
    && (around.readFails || parts[Id0].Folder? || parts[Id0].LinkToFolder?)
  }

  // What a probe reports, unless it raises an error.
  function Probe(packed: Option<Entry>, parts: Parts, around: Surroundings): Option<FileState> {
    if ProbeRaises(parts, around) then None
    else Some(FileState(Classify(packed, parts, around), IsFile(packed), Existing(parts, COMPONENTS)))
  }

  method ExistingComponents(fs: FileSystem) returns (files: seq<Part>)
    ensures files == Existing(fs.parts, COMPONENTS)
  {
    hide Existing, Exists;
    files := [];
    var rest := COMPONENTS;
    while rest != []
      invariant files + Existing(fs.parts, rest) == Existing(fs.parts, COMPONENTS)
      decreases |rest|
    {
      FirstExisting(fs.parts, rest);
      if Exists(fs.parts, rest[0]) { files := files + [rest[0]]; }
      rest := rest[1..];
    }
    FirstExisting(fs.parts, rest);
  }

  lemma FirstExisting(parts: Parts, among: seq<Part>)
    ensures Existing(parts, among)
            == if among == []
                then [] else (if Exists(parts, among[0]) then [among[0]] else []) + Existing(parts, among[1..])
  {
  }

  method ProbeDatabaseState(fs: FileSystem, around: Surroundings) returns (state: Option<FileState>)
    ensures state == Probe(fs.packed, fs.parts, around)
  {
    hide Existing, Header, Exists, IsFile;
    var files := ExistingComponents(fs);
    var packed := IsFile(fs.packed);
    if !Exists(fs.parts, Id0) {
      return Some(FileState(if files != [] then Unknown else if packed then Packed else Missing, packed, files));
    }
    var name := Unknown;
    if !around.network {
      match around.lock {
        case Owned => name := InUse;
        case Failing =>
        case Granted =>
          assert Id0 in fs.parts by { ExistsIn(fs.parts, Id0); }
          if around.readFails || fs.parts[Id0].Folder? || fs.parts[Id0].LinkToFolder? { return None; }
          if fs.parts[Id0].Regular? || fs.parts[Id0].LinkToFile? { name := Header(fs.parts[Id0].data); }
      }
    }
    state := Some(FileState(name, packed, files));
  }

  lemma ExistsIn(parts: Parts, p: Part)
    requires Exists(parts, p)
    ensures p in parts
  {
  }

  lemma {:induction false} ExistingAre(parts: Parts, among: seq<Part>)
    requires Distinct(among)
    ensures var files := Existing(parts, among);
            && (forall p :: p in files <==> p in among && Exists(parts, p))
            && Distinct(files)
            && (among != [] && Exists(parts, among[0]) ==> files != [] && files[0] == among[0])
  {
    if among != [] {
      ExistingAre(parts, among[1..]);
      assert forall p :: p in among <==> p == among[0] || p in among[1..];
      assert among[0] !in among[1..];
    }
  }

  /** A state reported as packed or missing means that no component exists; one reported as
      crashed or unpacked lists `.id0` first. The components listed are those that exist,
      once each. */
  lemma ProbeListsComponents(packed: Option<Entry>, parts: Parts, around: Surroundings)
    requires Probe(packed, parts, around).Some?
    ensures var s := Probe(packed, parts, around).value;
            && (forall p :: p in s.files <==> Exists(parts, p))
            && Distinct(s.files)
            && (s.state.Packed? || s.state.Missing? <==> forall p :: !Exists(parts, p))
            && (s.state.Packed? ==> IsFile(packed))
            && (s.state.Crashed? || s.state.Unpacked? ==> s.files != [] && s.files[0] == Id0)
  {
    hide Existing;
    AllComponents();
    ExistingAre(parts, COMPONENTS);
    var files := Existing(parts, COMPONENTS);
    if files != [] { assert files[0] in files; }
  }

  lemma AllComponents()
    ensures forall p :: p in COMPONENTS
  {
    forall p
      ensures p in COMPONENTS
    {
      var i := match p case Id0 => 0 case Id1 => 1 case Id2 => 2 case Nam => 3 case Til => 4;
      assert COMPONENTS[i] == p;
    }
  }

  // What an unpacked database's `.id0` begins with: eighteen numbers, the dirty one, and
  // "B-tree v2".
  function Image(front: Data, dirty: nat, rest: Data): Data {
    front + [dirty] + [0x42, 0x2d, 0x74, 0x72, 0x65, 0x65, 0x20, 0x76, 0x32] + rest
  }

  ghost predicate IsImage(data: Data, dirty: nat) {
    exists front, rest :: |front| == 18 && data == Image(front, dirty, rest)
  }

  ghost predicate HasImage(parts: Parts, dirty: nat) {
    Id0 in parts && (parts[Id0].Regular? || parts[Id0].LinkToFile?) && IsImage(parts[Id0].data, dirty)
  }

  predicate Readable(around: Surroundings) {
    !around.network && around.lock.Granted? && !around.readFails
  }

  lemma ImageHeader(front: Data, dirty: nat, rest: Data)
    requires |front| == 18
    ensures Header(Image(front, dirty, rest)) == if dirty == 1 then Crashed else if dirty == 0
        then Unpacked else Unknown
  {
    var data := Image(front, dirty, rest);
    assert data[18] == dirty && data[19..28] == [0x42, 0x2d, 0x74, 0x72, 0x65, 0x65, 0x20, 0x76, 0x32];
  }

  lemma HeaderIsImage(data: Data)
    ensures Header(data).Crashed? <==> IsImage(data, 1)
    ensures Header(data).Unpacked? <==> IsImage(data, 0)
    ensures Header(data).Crashed? || Header(data).Unpacked? || Header(data).Unknown?
  {
    if |data| >= 28 && data[19..28] == SIGNATURE {
      assert data == Image(data[..18], data[18], data[28..]);
      assert IsImage(data, data[18]);
    }
    forall front, dirty, rest | |front| == 18 && data == Image(front, dirty, rest)
      ensures Header(data) == if dirty == 1 then Crashed else if dirty == 0 then Unpacked else Unknown
    {
      ImageHeader(front, dirty, rest);
    }
  }

  /** A database whose `.id0` can be locked and read is crashed exactly if that is an image
      with a one for its dirty number, unpacked exactly if with a zero, and otherwise
      unknown; one that is locked by another is in use, and one that cannot be locked, or
      not reliably, is unknown. */
  lemma ProbeReadsImages(packed: Option<Entry>, parts: Parts, around: Surroundings)
    requires Exists(parts, Id0)
    ensures var answer, file := Probe(packed, parts, around), parts[Id0].Regular? || parts[Id0].LinkToFile?;
            if around.network then answer.Some? && answer.value.state.Unknown?
            else match around.lock
              case Owned => answer.Some? && answer.value.state.InUse?
              case Failing => answer.Some? && answer.value.state.Unknown?
              case Granted =>
                && (answer.Some? <==> file && !around.readFails)
                && (answer.Some? ==>
                      && (answer.value.state.Crashed? <==> HasImage(parts, 1))
                      && (answer.value.state.Unpacked? <==> HasImage(parts, 0))
                      && (HasImage(parts, 0) || HasImage(parts, 1) || answer.value.state.Unknown?))
  {
    if parts[Id0].Regular? || parts[Id0].LinkToFile? { HeaderIsImage(parts[Id0].data); }
    hide Header, IsImage, Existing;
  }

  // ------------------------------------------------------------------ backup

  // What may go wrong: making the directory, copying a component (after some of it was
  // written), and making the copies durable.
  datatype CopyFaults = CopyFaults(mkdir: bool, copying: map<Part, nat>, sync: bool)

  function Min(a: nat, b: nat): nat { if a < b then a else b }

  function Elements(files: seq<Part>): set<Part> {
    set p | p in files
  }

  // All of each of these components.
  function Contents(parts: Parts, files: seq<Part>): map<Part, Data>
    requires AllRegular(parts, files)
  {
    map p | p in files :: parts[p].data
  }

  predicate AllRegular(parts: Parts, files: seq<Part>) {
    forall p | p in files :: p in parts && parts[p].Regular?
  }

  lemma OneMore(parts: Parts, files: seq<Part>, i: nat, faults: CopyFaults)
    requires i < |files|
    ensures Copied(parts, files[..i + 1], faults) <==>
        Copied(parts, files[..i], faults) && Copies(parts, files[i], faults)
    ensures Copied(parts, files[..i + 1], faults) ==>
              Contents(parts, files[..i + 1]) == Contents(parts, files[..i])[files[i] := parts[files[i]].data]
  {
    assert files[..i + 1] == files[..i] + [files[i]];
  }

  predicate Copies(parts: Parts, p: Part, faults: CopyFaults) {
    p in parts && parts[p].Regular? && p !in faults.copying
  }

  predicate Copied(parts: Parts, files: seq<Part>, faults: CopyFaults)
    ensures Copied(parts, files, faults) ==> AllRegular(parts, files)
  {
    forall p | p in files :: Copies(parts, p, faults)
  }

  /** The backup succeeds exactly when nothing fails and every component is a regular file;
      it then holds all of each component. The components themselves, the packed database
      and other backups are untouched whatever happens. */
  method BackupUnpackedDatabase(fs: FileSystem, files: seq<Part>, id: BackupId, faults: CopyFaults) returns (ok: bool)
    modifies fs`backups
    ensures ok <==> !faults.mkdir && id !in old(fs.backups) && !faults.sync && Copied(fs.parts, files, faults)
    ensures ok ==> fs.backups == old(fs.backups)[id := Contents(fs.parts, files)]
    ensures forall b | b in old(fs.backups) :: b in fs.backups && fs.backups[b] == old(fs.backups[b])
  {
    if faults.mkdir || id in fs.backups { return false; }
    var copies: map<Part, Data> := map[];
    fs.backups := fs.backups[id := copies];
    ghost var parts := fs.parts;
    var i := 0;
    while i < |files|
      invariant 0 <= i <= |files|
      invariant Copied(parts, files[..i], faults) && copies == Contents(parts, files[..i])
      invariant fs.backups == old(fs.backups)[id := copies]
    {
      var p := files[i];
      hide Copied, Contents;
      OneMore(parts, files, i, faults);
      PrefixCopied(parts, files, i + 1, faults);
      if p !in fs.parts || !fs.parts[p].Regular? { return false; }
      var data := fs.parts[p].data;
      if p in faults.copying {
        fs.backups := fs.backups[id := copies[p := data[..Min(faults.copying[p], |data|)]]];
        return false;
      }
      copies := copies[p := data];
      fs.backups := fs.backups[id := copies];
      i := i + 1;
    }
    assert files[..i] == files;
    ok := !faults.sync;
  }

  lemma PrefixCopied(parts: Parts, files: seq<Part>, i: nat, faults: CopyFaults)
    requires i <= |files|
    ensures Copied(parts, files, faults) ==> Copied(parts, files[..i], faults)
  {
  }

  // ----------------------------------------------------------------- discard

  function LastOf(files: seq<Part>, n: nat): seq<Part>
    requires n <= |files|
  {
    files[|files| - n..]
  }

  // The components after the last `n` of those listed were removed.
  function Removing(parts: Parts, files: seq<Part>, n: nat): Parts
    requires n <= |files|
  {
    var gone := LastOf(files, n);
    map p | p in parts && p !in gone :: parts[p]
  }

  /** However far the removal gets, `.id0` is only gone once no component listed remains. */
  lemma Id0GoesLast(packed: Option<Entry>, parts: Parts, around: Surroundings, n: nat)
    requires Probe(packed, parts, around).Some?
    requires var s := Probe(packed, parts, around).value; (s.state.Crashed? || s.state.Unpacked?) && n <= |s.files|
    ensures var files := Probe(packed, parts, around).value.files;
            && (Id0 in Removing(parts, files, n) <==> n < |files|)
            && (Id0 !in Removing(parts, files, n) ==> forall p :: !Exists(Removing(parts, files, n), p))
            && (forall p | p in Removing(parts, files, n) :: Removing(parts, files, n)[p] == parts[p])
  {
    ProbeListsComponents(packed, parts, around);
    var files := Probe(packed, parts, around).value.files;
    hide Probe;
    var gone := LastOf(files, n);
    if n < |files| {
      forall p | p in gone ensures p != Id0 {
        var i :| 0 <= i < |gone| && gone[i] == p;
        assert files[|files| - n + i] == p;
      }
      assert Id0 in files && Id0 in parts;
    } else {
      assert gone == files && files[0] in gone;
    }
  }

  lemma OneLess(parts: Parts, files: seq<Part>, n: nat)
    requires n < |files| && Distinct(files)
    ensures var p := files[|files| - n - 1];
            && LastOf(files, n + 1) == [p] + LastOf(files, n) && p !in LastOf(files, n)
            && Removing(parts, files, n + 1) == Removing(parts, files, n) - {p}
            && (p in parts ==> p in Removing(parts, files, n) && Removing(parts, files, n)[p] == parts[p])
  {
  }

  // A folder is not removed as a file is.
  predicate Blocked(parts: Parts, failing: set<Part>, p: Part) {
    p in failing || (p in parts && parts[p].Folder?)
  }

  /** Removes the components listed, last first, until one cannot be removed. */
  method DiscardFailedLaunchExtraction(fs: FileSystem, around: Surroundings, failing: set<Part>)
      returns (raised: bool, removed: nat, note: bool)
    modifies fs`parts
    ensures raised <==> Probe(fs.packed, old(fs.parts), around).None?
    ensures note <==> !raised && var s := Probe(fs.packed, old(fs.parts), around).value.state; s.Crashed? || s.Unpacked?
    ensures !note ==> fs.parts == old(fs.parts) && removed == 0
    ensures note ==> var files := Probe(fs.packed, old(fs.parts), around).value.files;
                     && removed <= |files| && fs.parts == Removing(old(fs.parts), files, removed)
                     && (removed < |files| <==> exists p :: p in files && Blocked(old(fs.parts), failing, p))
  {
    raised, removed, note := false, 0, false;
    hide Probe;
    var state := ProbeDatabaseState(fs, around);
    if state.None? { return true, 0, false; }
    if !state.value.state.Crashed? && !state.value.state.Unpacked? { return; }
    note := true;
    var files := state.value.files;
    ProbeListsComponents(fs.packed, fs.parts, around);
    assert Removing(fs.parts, files, 0) == fs.parts;
    while removed < |files|
      invariant removed <= |files| && fs.parts == Removing(old(fs.parts), files, removed)
      invariant forall p | p in LastOf(files, removed) :: !Blocked(old(fs.parts), failing, p)
    {
      var p := files[|files| - removed - 1];
      assert p in files;
      OneLess(old(fs.parts), files, removed);
      hide Removing, LastOf;
      if p in failing || fs.parts[p].Folder? { return; }
      fs.parts := fs.parts - {p};
      removed := removed + 1;
    }
    assert LastOf(files, removed) == files;
  }

  // ------------------------------------------------------------------ launch

  predicate LauncherExitIsFatal(returncode: int, nt: bool) {
    !nt || returncode != 0
  }

  // What the caller asks for: a fresh database, or one at a custom path.
  datatype Request = Request(newDatabase: bool, customOutput: bool)

  // What the worker did to the files, and what was seen of it. A guard still in place says
  // that it never opened the database.
  datatype Worker = Worker(
    packed: Option<Entry>,
    parts: Parts,
    ready: bool,
    guard: bool,
    returncode: Option<int>,
    idalib: bool)

  // Everything around a launch that is not of its own doing.
  datatype World = World(
    before: Surroundings,
    afterBackup: Surroundings,
    atCleanup: Surroundings,
    faults: CopyFaults,
    late: bool,
    spawns: bool,
    worker: Worker,
    failing: set<Part>,
    nt: bool)

  datatype Error =
    | DatabaseBusy
    | DatabaseOpen
    | TimedOut
    | NotSpawned
    | WorkerStart(discarded: bool)
    | ReadError

  datatype Result = Ready(saveAfterOpen: bool) | Failed(error: Error)

  // A launch whose worker certainly ended without opening the database.
  predicate EndedUnopened(w: World) {
    && w.spawns && !w.worker.ready && w.worker.guard && w.worker.returncode.Some?
    && (w.worker.idalib ==> LauncherExitIsFatal(w.worker.returncode.value, w.nt))
  }

  predicate NoneExists(parts: Parts) {
    forall p :: !Exists(parts, p)
  }

  // All of every component is in the backup.
  ghost predicate FullyCopied(parts: Parts, copy: map<Part, Data>) {
    forall p | Exists(parts, p) :: parts[p].Regular? && p in copy && copy[p] == parts[p].data
  }

  // Whether what existed before the launch can be had back without the components.
  ghost predicate Preserved(packed: Option<Entry>, parts: Parts, backups: map<BackupId, map<Part, Data>>,
      id: BackupId) {
    (NoneExists(parts) && IsFile(packed)) || (id in backups && FullyCopied(parts, backups[id]))
  }

  /** The part of a launch before its worker starts: it keeps the components and earlier
      backups, and only allows a later cleanup if what existed is preserved. */
  method Prepare(fs: FileSystem, request: Request, id: BackupId, w: World)
      returns (error: Option<Error>, discard: bool, saveAfterOpen: bool)
    modifies fs`backups
    ensures error.None? <==> MayStart(fs.packed, fs.parts, old(fs.backups), request, id, w)
    ensures error.Some? ==> !error.value.WorkerStart? && !error.value.NotSpawned?
    ensures error.None? && discard ==> Preserved(fs.packed, fs.parts, fs.backups, id)
    ensures forall b | b in old(fs.backups) :: b in fs.backups && fs.backups[b] == old(fs.backups[b])
    ensures saveAfterOpen ==> fs.backups == old(fs.backups) && !NoneExists(fs.parts)
    ensures match Probe(fs.packed, fs.parts, w.before)
            case None => error == Some(ReadError)
            case Some(s) =>
              && (s.state.InUse? ==> error == Some(DatabaseBusy))
              && (s.state.Unknown? ==> error == Some(DatabaseOpen))
              && (error.None? ==> discard == MayDiscard(s, request)
                                  && saveAfterOpen == (s.state.Crashed? && !request.newDatabase && !s.packedExists))
    ensures Readable(w.before) && HasImage(fs.parts, 1) && (IsFile(fs.packed) || request.newDatabase) && error.None? ==>
              id !in old(fs.backups) && id in fs.backups && FullyCopied(fs.parts, fs.backups[id])
    ensures Readable(w.before) && HasImage(fs.parts, 1) && !IsFile(fs.packed) && !request.newDatabase && error.None? ==>
              saveAfterOpen && !discard && fs.backups == old(fs.backups)
    ensures Readable(w.before) && HasImage(fs.parts, 0) ==> !discard && fs.backups == old(fs.backups)
    ensures NoneExists(fs.parts) && IsFile(fs.packed) && !w.late ==> error.None? && discard
    ensures Readable(w.before) && (HasImage(fs.parts, 0) || HasImage(fs.parts, 1)) && request.customOutput
            && !IsFile(fs.packed) ==>
              error == Some(DatabaseOpen) && fs.backups == old(fs.backups)
    ensures Readable(w.before) && HasImage(fs.parts, 0) && !w.late && (!request.customOutput || IsFile(fs.packed)) ==>
              error.None?
    ensures Readable(w.before) && HasImage(fs.parts, 1) && !w.late && (!request.customOutput || IsFile(fs.packed))
            && (IsFile(fs.packed) || request.newDatabase ==> BackupWorks(fs.parts, old(fs.backups), id, w)) ==>
              error.None?
  {
    if NoneExists(fs.parts) && IsFile(fs.packed) { PackedIsSeen(fs.packed, fs.parts, w.before); }
    if Exists(fs.parts, Id0) { ProbeReadsImages(fs.packed, fs.parts, w.before); }
    assert HasImage(fs.parts, 0) || HasImage(fs.parts, 1) ==> Exists(fs.parts, Id0);
    ghost var dirty, clean := HasImage(fs.parts, 1), HasImage(fs.parts, 0);
    hide HasImage;
    error, discard, saveAfterOpen := None, false, false;
    hide Probe, Copied, Contents;
    var probed := ProbeDatabaseState(fs, w.before);
    if probed.None? { return Some(ReadError), false, false; }
    var state := probed.value;
    if state.state.InUse? { return Some(DatabaseBusy), false, false; }
    if state.state.Unknown? { return Some(DatabaseOpen), false, false; }
    if (state.state.Crashed? || state.state.Unpacked?) && request.customOutput && !state.packedExists {
      return Some(DatabaseOpen), false, false;
    }
    ProbeListsComponents(fs.packed, fs.parts, w.before);
    discard := state.state.Packed?;
    if state.state.Crashed? {
      if request.newDatabase || state.packedExists {
        var ok := BackupUnpackedDatabase(fs, state.files, id, w.faults);
        if !ok { return Some(DatabaseOpen), false, false; }
        CopiedInFull(fs.parts, state.files, w.faults);
        discard := true;
        var again := ProbeDatabaseState(fs, w.afterBackup);
        if again.None? { return Some(ReadError), false, false; }
        if again.value.state.InUse? { return Some(DatabaseBusy), false, false; }
        if again.value.state.Unknown? { return Some(DatabaseOpen), false, false; }
      } else {
        assert Id0 in state.files;
        saveAfterOpen := true;
      }
    }
    if w.late { return Some(TimedOut), false, false; }
  }

  // Whether what a failed worker left may be discarded, by what was there before it.
  predicate MayDiscard(s: FileState, request: Request) {
    s.state.Packed? || (s.state.Crashed? && (request.newDatabase || s.packedExists))
  }

  // Whether a worker left components that nobody uses.
  predicate LeftUnpacked(w: World) {
    var found := Probe(w.worker.packed, w.worker.parts, w.atCleanup);
    found.Some? && (found.value.state.Crashed? || found.value.state.Unpacked?)
  }

  // Whether nothing is in the way of a backup, or of looking at the files after it.
  predicate BackupWorks(parts: Parts, backups: map<BackupId, map<Part, Data>>, id: BackupId, w: World) {
    && id !in backups && w.faults == CopyFaults(false, map[], false) && Readable(w.afterBackup)
    && forall p | Exists(parts, p) :: parts[p].Regular?
  }

  lemma CopiedInFull(parts: Parts, files: seq<Part>, faults: CopyFaults)
    requires Copied(parts, files, faults) && forall p | Exists(parts, p) :: p in files
    ensures AllRegular(parts, files) && FullyCopied(parts, Contents(parts, files))
  {
  }

  /** From the probe of the files to the cleanup after a failed start. `deleted` are the
      components that the launch's own steps removed. Whatever goes wrong, they remove
      components only if none existed before or all of every one was copied to a backup;
      they only remove what a worker left that ended without opening the database; and they
      touch neither the packed database nor an earlier backup. */
  method Launch(fs: FileSystem, request: Request, id: BackupId, w: World) returns (result: Result,
      ghost deleted: set<Part>)
    modifies fs
    ensures deleted != {} ==> Preserved(old(fs.packed), old(fs.parts), fs.backups, id) && EndedUnopened(w)
    ensures deleted != {} ==> result == Failed(WorkerStart(true))
    ensures result == Failed(WorkerStart(true)) <==>
              && MayStart(old(fs.packed), old(fs.parts), old(fs.backups), request, id, w) && EndedUnopened(w)
              && LeftUnpacked(w)
              && MayDiscard(Probe(old(fs.packed), old(fs.parts), w.before).value, request)
    ensures result.Ready? <==>
        w.spawns && w.worker.ready && MayStart(old(fs.packed), old(fs.parts), old(fs.backups), request, id, w)
    ensures var started := w.spawns && MayStart(old(fs.packed), old(fs.parts), old(fs.backups), request, id, w);
            && fs.packed == (if started then w.worker.packed else old(fs.packed))
            && fs.parts == (if started then w.worker.parts else old(fs.parts)) - deleted
    ensures forall b | b in old(fs.backups) :: b in fs.backups && fs.backups[b] == old(fs.backups[b])
    ensures Readable(w.before) && HasImage(old(fs.parts), 0) ==> deleted == {} && fs.backups == old(fs.backups)
    ensures w.nt && w.worker.idalib && w.worker.returncode == Some(0) ==> deleted == {}
    ensures NoneExists(old(fs.parts)) && IsFile(old(fs.packed)) && !w.late && LeftByFailure(w) ==>
              && result == Failed(WorkerStart(true))
              && (w.failing == {} && (forall p | p in w.worker.parts :: !w.worker.parts[p].Folder?) ==>
                  NoneExists(fs.parts))
  {
    deleted := {};
    hide Probe, MayStart, Preserved, Removing, NoneExists;
    if LeftByFailure(w) { LeftUnpackedIs(w); }
    hide HasImage;
    var error, discard, saveAfterOpen := Prepare(fs, request, id, w);
    if error.Some? { return Failed(error.value), {}; }
    if !w.spawns { return Failed(NotSpawned), {}; }
    fs.packed, fs.parts := w.worker.packed, w.worker.parts;
    if w.worker.ready { return Ready(saveAfterOpen), {}; }
    if !discard || !w.worker.guard || w.worker.returncode.None?
       || (w.worker.idalib && !LauncherExitIsFatal(w.worker.returncode.value, w.nt)) {
      return Failed(WorkerStart(false)), {};
    }
    var raised, removed, note := DiscardFailedLaunchExtraction(fs, w.atCleanup, w.failing);
    if note {
      var files := Probe(w.worker.packed, w.worker.parts, w.atCleanup).value.files;
      RemovedAre(w.worker.parts, files, removed);
      AllRemoved(w.worker.packed, w.worker.parts, w.atCleanup);
      deleted := Elements(LastOf(files, removed));
    }
    result := Failed(if raised then ReadError else WorkerStart(note));
  }

  lemma PackedIsSeen(packed: Option<Entry>, parts: Parts, around: Surroundings)
    requires NoneExists(parts) && IsFile(packed)
    ensures Probe(packed, parts, around).Some? && Probe(packed, parts, around).value.state.Packed?
  {
    ProbeListsComponents(packed, parts, around);
  }

  lemma LeftUnpackedIs(w: World)
    requires LeftByFailure(w)
    ensures LeftUnpacked(w) && EndedUnopened(w)
  {
    ProbeReadsImages(w.worker.packed, w.worker.parts, w.atCleanup);
  }

  lemma AllRemoved(packed: Option<Entry>, parts: Parts, around: Surroundings)
    requires Probe(packed, parts, around).Some?
    ensures var files := Probe(packed, parts, around).value.files; NoneExists(Removing(parts, files, |files|))
  {
    ProbeListsComponents(packed, parts, around);
    var files := Probe(packed, parts, around).value.files;
    assert LastOf(files, |files|) == files;
  }

  // A worker that ended without opening the database, leaving one unpacked that can be read.
  ghost predicate LeftByFailure(w: World) {
    && w.spawns && !w.worker.ready && w.worker.guard && w.worker.returncode.Some?
    && (w.worker.idalib && w.nt ==> w.worker.returncode != Some(0))
    && Readable(w.atCleanup) && (HasImage(w.worker.parts, 0) || HasImage(w.worker.parts, 1))
  }

  lemma RemovedAre(parts: Parts, files: seq<Part>, n: nat)
    requires n <= |files|
    ensures Removing(parts, files, n) == parts - Elements(LastOf(files, n))
  {
  }

  // Whether a launch gets as far as starting its worker.
  ghost predicate MayStart(packed: Option<Entry>, parts: Parts, backups: map<BackupId, map<Part, Data>>,
                     request: Request, id: BackupId, w: World) {
    var probed := Probe(packed, parts, w.before);
    && probed.Some? && !w.late && !probed.value.state.InUse? && !probed.value.state.Unknown?
    && (probed.value.state.Crashed? || probed.value.state.Unpacked? ==>
        !request.customOutput || probed.value.packedExists)
    && (probed.value.state.Crashed? && (request.newDatabase || probed.value.packedExists) ==>
          BackedUp(packed, parts, backups, probed.value.files, id, w))
  }

  // Whether the backup succeeded and nobody took the files meanwhile.
  ghost predicate BackedUp(packed: Option<Entry>, parts: Parts, backups: map<BackupId, map<Part, Data>>,
                     files: seq<Part>, id: BackupId, w: World) {
    var again := Probe(packed, parts, w.afterBackup);
    && !w.faults.mkdir && id !in backups && !w.faults.sync && Copied(parts, files, w.faults)
    && again.Some? && !again.value.state.InUse? && !again.value.state.Unknown?
  }
}
