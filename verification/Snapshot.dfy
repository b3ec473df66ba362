/** Snapshots of a disk: taking one and putting one back (internal/disk/snapshot.go). */
module Snapshot {
  import opened Text
  import opened Paths
  import opened World
  import opened Undo
  import opened Wait

  const NOTE_NAME: string := "wslkit-snapshot.json"
  const BEFORE_RESTORE: string := ".wslkit-before-restore"

  /** A snapshot in the store: its folder and the name of the disk in it. */
  datatype Kept = Kept(dir: Path, vhdFile: string) {
    function VhdPath(): Path { JoinWindows(dir, vhdFile) }
  }

  /** The folder of a snapshot, by the second it was taken in. */
  function FolderOf(root: Path, g: Guid, id: string): Path {
    JoinWindows(JoinWindows(root, g), id)
  }

  /** The snapshots of two distributions, and two snapshots of one, are in different folders: no file in
      one is a file in the other. A GUID is written in braces. */
  lemma SnapshotsApart(root: Path, g: Guid, id: string, m: string, h: Guid, jd: string, n: string)
    requires PlainName(g) && StartsWith(g, '{') && PlainName(h) && StartsWith(h, '{')
    requires PlainName(id) && PlainName(jd) && PlainName(m) && PlainName(n)
    requires !EqualFold(g, h) || !EqualFold(id, jd)
    ensures !SamePath(JoinWindows(FolderOf(root, g, id), m), JoinWindows(FolderOf(root, h, jd), n))
  {
    hide CanonicalPath, JoinWindows;
    FoldersApart(root, g, id, m, h, jd, n);
  }

  /** What a restore is about: the live disk, where it is put meanwhile, the snapshot's own file,
      and the file and the note that the disk it replaces is filed under. */
  datatype Places = Places(live: Path, aside: Path, snap: Path, dest: Path, note: Path)

  function Touched(p: Places): set<FileId> {
    {CanonicalPath(p.live), CanonicalPath(p.aside), CanonicalPath(p.dest), CanonicalPath(p.note)}
  }

  predicate SameRegistry(s: State, t: State) {
    t.keys == s.keys && t.default == s.default
  }

  /** The replaced disk is at one of three places, the snapshot is where it was, and nothing else has
      changed. The snapshot is excepted if it is itself in the folder the replaced disk goes to. */
  ghost predicate BothKept(s0: State, s: State, p: Places, c: Option<Content>, d: Content) {
    && (s.Holds(p.snap, d) || Occupied(s0, p, p.snap))
    && (c.Some? ==> s.Holds(p.live, c.value) || s.Holds(p.aside, c.value) || s.Holds(p.dest, c.value))
    && SameFilesBut(s0, s, Touched(p)) && SameRegistry(s0, s)
  }

  /** The folder the replaced disk goes to had a disk in it before: this one. */
  predicate Occupied(s0: State, p: Places, f: Path) {
    s0.Present(p.dest) && SamePath(f, p.dest)
  }

  ghost predicate KeptFrom(s0: State, trace: seq<Step>, n: nat, p: Places, c: Option<Content>, d: Content) {
    forall i :: n <= i < |trace| ==> BothKept(s0, trace[i].after, p, c, d)
  }

  /** The snapshot is its own file. */
  ghost predicate Apart(p: Places) {
    && !SamePath(p.snap, p.live) && !SamePath(p.snap, p.aside) && !SamePath(p.live, p.aside)
  }

  /** What is at `p`, if anything is. */
  function At(s: State, p: Path): Option<Content> {
    if s.Present(p) then Some(s.files[CanonicalPath(p)]) else None
  }

  datatype RestoreOutcome =
    | NotFreed
    | NotMovedAside
    | CopyFailed(rolledBack: seq<bool>)
    | WouldNotStart(rolledBack: seq<bool>)
    | Restored(before: Option<string>)   // the id the replaced disk was filed under
    | RestoredUnfiled                    // the replaced disk is not filed

  /** What each return leaves behind; `id` is the snapshot the replaced disk was to become, if any. */
  ghost predicate RestoreLeaves(o: RestoreOutcome, s0: State, s: State, p: Places, id: Option<string>, g: Guid,
                                vhdFile: string, d: Content)
  {
    && (id.Some? <==> Succeeds(o) && s0.Present(p.live))
    && match o
       case NotFreed => s == s0
       case NotMovedAside => s == s0
       case CopyFailed(oks) =>
         // With no live disk to put back, a failed clean-up may leave part of a copy.
         AllOk(oks) && (s0.Present(p.live) || !s.Present(p.live)) ==> s == s0
       case WouldNotStart(oks) => AllOk(oks) ==> s == s0
       case Restored(before) =>
         && before == id && s.Holds(p.live, d)
         && (id.Some? ==>
               && !s0.Present(p.dest) && s.Holds(p.dest, s0.files[CanonicalPath(p.live)])
               && s.Holds(p.note, SnapshotNote(id.value, g, vhdFile)) && !s.Present(p.aside))
       case RestoredUnfiled =>
         && id.Some? && (s.Holds(p.live, d) || Occupied(s0, p, p.live))
         && (s0.Present(p.dest) ==> s.Holds(p.aside, s0.files[CanonicalPath(p.live)]))
  }

  /** The restored disk has started the distribution. */
  ghost predicate BootedFrom(trace: seq<Step>, n: nat, r: Registration, d: Content) {
    exists i :: n <= i < |trace| && trace[i].call == Start(r.key.Name()) && trace[i].ok
                && trace[i].before.Holds(r.key.VhdPath(), d)
  }

  predicate Succeeds(o: RestoreOutcome) {
    o.Restored? || o.RestoredUnfiled?
  }

  /** Success is a stop that worked, followed by a look at the disk that found it unlocked. */
  method StopForDisk(w: Machine, r: Registration, shutdown: bool) returns (ok: bool)
    modifies w`st, w`trace, w`now, w`probes
    ensures w.st == old(w.st)
    ensures |w.trace| == |old(w.trace)| + 1 && old(w.trace) <= w.trace
    ensures w.trace[|old(w.trace)|].before == w.trace[|old(w.trace)|].after == w.st
    ensures old(w.probes) <= w.probes && old(w.now) <= w.now
    ensures DiskAwaited(w.trace, |old(w.trace)|, w.probes[|old(w.probes)|..], r, true, shutdown, 0, w.now - old(w.now))
    ensures ok <==> SeenFree(w.probes[|old(w.probes)|..])
    ensures ok ==> w.trace[|old(w.trace)|].ok
  {
    hide Waits;
    ok := w.Do(if shutdown then Shutdown else Terminate(r.key.Name()));
    if ok {
      var free := WaitForDisk(w, r.key.Name(), r.key.VhdPath(), shutdown, 0);
      WaitsOnce(w.probes[|old(w.probes)|..], r.key.Name(), r.key.VhdPath(), |w.trace|, 0, w.now - old(w.now),
                free.Free?);
      ok := free == Free;
    }
  }

  /** Nothing but a snapshot's copy and note differs, and the disk is where it was. */
  ghost predicate Storing(s0: State, s: State, source: Path, dest: Path, note: Path, c: Content) {
    && SameFilesBut(s0, s, {CanonicalPath(dest), CanonicalPath(note)}) && SameRegistry(s0, s)
    && s.Holds(source, c)
  }

  lemma NothingStored(s: State, source: Path, dest: Path, note: Path, c: Content)
    requires s.Holds(source, c)
    ensures Storing(s, s, source, dest, note, c)
  {
  }

  /** The disk is seen unlocked, after a stop if one was needed. */
  method FreeDisk(w: Machine, r: Registration, source: Path, running: bool, shutdown: bool) returns (ok: bool)
    requires source == r.key.VhdPath()
    modifies w`st, w`trace, w`now, w`probes
    ensures w.st == old(w.st) && old(w.trace) <= w.trace
    ensures |w.trace| == |old(w.trace)| + if running || shutdown then 1 else 0
    ensures running || shutdown ==> w.trace[|old(w.trace)|].call == StopCall(r, shutdown)
    ensures forall i :: |old(w.trace)| <= i < |w.trace| ==> w.trace[i].after == w.st
    ensures old(w.probes) <= w.probes && old(w.now) <= w.now
    ensures DiskAwaited(w.trace, |old(w.trace)|, w.probes[|old(w.probes)|..], r, running || shutdown, shutdown, 0,
                        w.now - old(w.now))
    ensures ok <==> SeenFree(w.probes[|old(w.probes)|..])
    ensures ok ==> AllWorked(w.trace, |old(w.trace)|)
  {
    hide Waits;
    if running || shutdown {
      ok := StopForDisk(w, r, shutdown);
    } else {
      var free := WaitForDisk(w, r.key.Name(), source, false, 0);
      WaitsOnce(w.probes[|old(w.probes)|..], r.key.Name(), source, |w.trace|, 0, w.now - old(w.now), free.Free?);
      ok := free == Free;
    }
  }

  /** A snapshot: the disk copied into a folder of its own, beside a note. A folder that is there
      already is refused, so no earlier snapshot is written over. */
  method TakeSnapshot(w: Machine, r: Registration, root: Path, id: string, running: bool, shutdown: bool,
                      ghost c: Content)
    returns (ok: bool)
    requires r.key.VhdPath() != "" && w.st.Holds(r.key.VhdPath(), c)
    requires PlainName(r.key.VhdName()) && !EqualFold(r.key.VhdName(), NOTE_NAME)
    modifies w`st, w`trace, w`now, w`probes, w`answers, w`refusals, w`folders
    // Nothing is touched until the distribution is stopped, if need be, and its disk was seen unlocked.
    ensures old(w.probes) <= w.probes
    ensures DiskAwaited(w.trace, |old(w.trace)|, w.probes[|old(w.probes)|..], r, running || shutdown, shutdown, 0,
                        w.now - old(w.now))
    ensures !SeenFree(w.probes[|old(w.probes)|..]) ==>
              !ok && |w.trace| == |old(w.trace)| + if running || shutdown then 1 else 0
    ensures var folder := FolderOf(root, r.guid, id);
            || (w.folders == old(w.folders) && !ok)
            || w.folders == old(w.folders) + [Folder(folder, true)]
            || (w.folders == old(w.folders) + [Folder(folder, false)] && !ok)
    // With any file in that folder nothing changes.
    ensures FolderHasFile(old(w.st), FolderOf(root, r.guid, id)) ==>
              && !ok && w.st == old(w.st)
              && forall i :: |old(w.trace)| <= i < |w.trace| ==> w.trace[i].after == old(w.st)
    // It fails for a reason, and cleans up.
    ensures w.refusals >= old(w.refusals)
    ensures !ok ==>
              || w.refusals > old(w.refusals) || !AllWorked(w.trace, |old(w.trace)|)
              || !SeenFree(w.probes[|old(w.probes)|..])
              || (|w.answers| > |old(w.answers)| && w.answers[|old(w.answers)|].AskedExists?
                  && w.answers[|old(w.answers)|].path == FolderOf(root, r.guid, id)
                  && w.answers[|old(w.answers)|].there)
    ensures ok ==> AllWorked(w.trace, |old(w.trace)|)
    ensures var dest := JoinWindows(FolderOf(root, r.guid, id), r.key.VhdName());
            (exists i :: |old(w.trace)| <= i < |w.trace| && w.trace[i].call.CopySparse?) && !ok ==>
              && w.trace[|w.trace| - 1].call == Remove(dest)
              && (w.trace[|w.trace| - 1].ok ==> !w.st.Present(dest))
    ensures var dir := FolderOf(root, r.guid, id);
            var dest, note := JoinWindows(dir, r.key.VhdName()), JoinWindows(dir, NOTE_NAME);
            && old(w.trace) <= w.trace
            && (forall i :: |old(w.trace)| <= i < |w.trace| ==>
                  Storing(old(w.st), w.trace[i].after, r.key.VhdPath(), dest, note, c))
            && Storing(old(w.st), w.st, r.key.VhdPath(), dest, note, c)
            && (ok ==> !old(w.st).Present(dest) && w.st.Holds(dest, c)
                       && w.st.Holds(note, SnapshotNote(id, r.guid, r.key.VhdName())))
  {
    hide CanonicalPath, JoinWindows, EqualFold, TrimPrefix, PlainName, FolderOf, FolderHasFile, Storing, Waits,
      DiskAwaited, SeenFree;
    var source := r.key.VhdPath();
    var dir := FolderOf(root, r.guid, id);
    if w.st.Present(JoinWindows(dir, r.key.VhdName())) {
      FileInItsFolder(w.st, dir, r.key.VhdName());
    }
    var dest, note := JoinWindows(dir, r.key.VhdName()), JoinWindows(dir, NOTE_NAME);
    NoteApart(r, dir);
    NothingStored(w.st, source, dest, note, c);
    ok := FreeDisk(w, r, source, running, shutdown);
    if !ok {
      return;
    }
    ghost var trace, passed := w.trace, w.now - old(w.now);
    var taken := w.FolderExists(dir);
    if taken {
      return false;
    }
    ok := w.MkdirAll(dir);
    if ok {
      ok := CopyAside(w, r, source, dest, note, id, c);
      AwaitedOn(trace, w.trace, |old(w.trace)|, w.probes[|old(w.probes)|..], r, running || shutdown, shutdown, 0,
                passed, passed);
      WorkedOn(trace, w.trace, |old(w.trace)|);
    }
  }

  /** The copy and its note; a copy without one is not left looking like a snapshot. */
  method CopyAside(w: Machine, r: Registration, source: Path, dest: Path, note: Path, id: string, ghost c: Content)
    returns (ok: bool)
    requires w.st.Holds(source, c) && !w.st.Present(dest)
    requires !SamePath(note, source) && !SamePath(note, dest)
    modifies w`st, w`trace
    ensures old(w.trace) <= w.trace && (ok <==> AllWorked(w.trace, |old(w.trace)|))
    ensures !ok ==>
              && |w.trace| > |old(w.trace)| && w.trace[|w.trace| - 1].call == Remove(dest)
              && (w.trace[|w.trace| - 1].ok ==> !w.st.Present(dest))
    ensures forall i :: |old(w.trace)| <= i < |w.trace| ==> Storing(old(w.st), w.trace[i].after, source, dest, note, c)
    ensures Storing(old(w.st), w.st, source, dest, note, c)
    ensures ok ==> w.st.Holds(dest, c) && w.st.Holds(note, SnapshotNote(id, r.guid, r.key.VhdName()))
  {
    hide CanonicalPath, Storing, SameFilesBut, SameRegistry, Effect, Enabled;
    ghost var s0, n := w.st, |w.trace|;
    ok := w.Do(CopySparse(source, dest));
    Stored(s0, w.st, source, dest, note, c, ok);
    if !ok {
      var cleaned := w.Do(Remove(dest));
      assert !w.trace[n].ok;
      return;
    }
    ghost var s1, m := w.st, SnapshotNote(id, r.guid, r.key.VhdName());
    ok := w.Do(WriteFile(note, SnapshotNote(id, r.guid, r.key.VhdName())));
    Noted(s0, s1, w.st, source, dest, note, c, m, ok);
    if !ok {
      var cleaned := w.Do(Remove(dest));
      assert !w.trace[n + 1].ok;
    }
  }

  /** What a copy that was tried leaves, and what removing it leaves. */
  lemma Stored(s0: State, s: State, source: Path, dest: Path, note: Path, c: Content, ok: bool)
    requires s0.Holds(source, c) && !s0.Present(dest) && Outcome(s0, CopySparse(source, dest), ok, s)
    ensures Storing(s0, s, source, dest, note, c) && (ok ==> s.Holds(dest, c))
    ensures var t := Effect(s, Remove(dest)); Storing(s0, t, source, dest, note, c) && !t.Present(dest)
  {
    hide CanonicalPath;
    if !ok && s != s0 {
      OnlyFileMeans(s0, s, CanonicalPath(dest));
    }
  }

  lemma Noted(s0: State, s: State, t: State, source: Path, dest: Path, note: Path, c: Content, m: Content, ok: bool)
    requires Storing(s0, s, source, dest, note, c) && s0.Present(source) && !s0.Present(dest) && s.Holds(dest, c)
    requires !SamePath(note, source) && !SamePath(note, dest) && Outcome(s, WriteFile(note, m), ok, t)
    ensures Storing(s0, t, source, dest, note, c) && (ok ==> t.Holds(dest, c) && t.Holds(note, m))
    ensures var u := Effect(t, Remove(dest)); Storing(s0, u, source, dest, note, c) && !u.Present(dest)
  {
    hide CanonicalPath;
    if !ok {
      OnlyFileMeans(s, t, CanonicalPath(note));
    }
  }

  lemma NoteApart(r: Registration, dir: Path)
    requires r.key.VhdPath() != "" && PlainName(r.key.VhdName()) && !EqualFold(r.key.VhdName(), NOTE_NAME)
    ensures !SamePath(JoinWindows(dir, NOTE_NAME), r.key.VhdPath())
    ensures !SamePath(JoinWindows(dir, NOTE_NAME), JoinWindows(dir, r.key.VhdName()))
  {
    hide CanonicalPath, JoinWindows, EqualFold, TrimPrefix;
    assert PlainName(NOTE_NAME);
    assert r.key.VhdPath() == JoinWindows(TrimPrefix(r.key.Str(BasePath), EXTENDED), r.key.VhdName());
    DifferentNames(TrimPrefix(r.key.Str(BasePath), EXTENDED), r.key.VhdName(), dir, NOTE_NAME);
    DifferentNames(dir, r.key.VhdName(), dir, NOTE_NAME);
  }

  /* ---- putting one back ---- */

  function Live(r: Registration): Path { r.key.VhdPath() }
  function Aside(r: Registration): Path { r.key.VhdPath() + BEFORE_RESTORE }

  /** Before the replaced disk has a snapshot folder to go to. */
  function Swapping(r: Registration, k: Kept): Places {
    Places(Live(r), Aside(r), k.VhdPath(), Aside(r), Aside(r))
  }

  /** With it: the snapshot of this id. */
  function PlacesFor(r: Registration, k: Kept, root: Path, id: Option<string>): Places {
    match id
    case None => Swapping(r, k)
    case Some(x) => Filing(r, k, FolderOf(root, r.guid, x))
  }

  predicate IsStamped(id: Option<string>, stamp: string) {
    id.None? || id.value == stamp || id.value == stamp + "-1"
  }

  function Filing(r: Registration, k: Kept, dir: Path): Places {
    Places(Live(r), Aside(r), k.VhdPath(), JoinWindows(dir, r.key.VhdName()), JoinWindows(dir, NOTE_NAME))
  }

  /** What a restore asks of its inputs: ordinary names, and a snapshot that is a file of its own. */
  ghost predicate Restorable(r: Registration, k: Kept) {
    && Live(r) != "" && PlainName(r.key.VhdName()) && !EqualFold(r.key.VhdName(), NOTE_NAME)
    && PlainName(k.vhdFile) && !EqualFold(k.vhdFile, NOTE_NAME)
    && !SamePath(k.VhdPath(), Live(r)) && !SamePath(k.VhdPath(), Aside(r))
  }

  /** No two of the names a restore uses are the same. */
  lemma NamesApart(r: Registration, k: Kept, dir: Path)
    requires Restorable(r, k)
    ensures var p := Filing(r, k, dir);
            && !SamePath(p.live, p.aside) && !SamePath(p.dest, p.aside)
            && !SamePath(p.note, p.live) && !SamePath(p.note, p.aside)
            && !SamePath(p.note, p.snap) && !SamePath(p.note, p.dest)
  {
    hide CanonicalPath, TrimPrefix, Lower;
    var name := r.key.VhdName();
    var base := TrimPrefix(r.key.Str(BasePath), EXTENDED);
    assert PlainName(NOTE_NAME);
    assert Live(r) == JoinWindows(base, name);
    assert Aside(r) == JoinWindows(base, name + BEFORE_RESTORE);
    assert PlainName(name + BEFORE_RESTORE) by {
      assert forall i :: 0 <= i < |BEFORE_RESTORE| ==> !IsSeparator(BEFORE_RESTORE[i]);
    }
    LongerName(name);
    hide JoinWindows, EqualFold;
    DifferentNames(base, name, base, name + BEFORE_RESTORE);
    DifferentNames(dir, name, base, name + BEFORE_RESTORE);
    DifferentNames(dir, NOTE_NAME, base, name + BEFORE_RESTORE);
    DifferentNames(base, name, dir, NOTE_NAME);
    DifferentNames(dir, name, dir, NOTE_NAME);
    DifferentNames(k.dir, k.vhdFile, dir, NOTE_NAME);
  }

  lemma LongerName(name: string)
    ensures !EqualFold(name, name + BEFORE_RESTORE) && !EqualFold(NOTE_NAME, name + BEFORE_RESTORE)
  {
    var long := name + BEFORE_RESTORE;
    assert |Lower(name)| < |Lower(long)|;
    assert Lower(long)[|long| - 1] == 'e' && Lower(NOTE_NAME)[|NOTE_NAME| - 1] == 'n';
  }

  /** In no folder is a disk of this name, or the note beside it, the file at `path`; nor are they one file. */
  ghost predicate NamesFree(path: Path, name: string) {
    forall dir :: !SamePath(JoinWindows(dir, NOTE_NAME), path) && !SamePath(JoinWindows(dir, name), path)
                  && !SamePath(JoinWindows(dir, NOTE_NAME), JoinWindows(dir, name))
  }

  /** Makes a snapshot of the disk at `path` by moving it. It may end up there even when this fails. */
  method FileAsSnapshot(w: Machine, r: Registration, root: Path, path: Path, stamp: string, ghost c: Content)
    returns (ok: bool, id: string)
    requires w.st.Holds(path, c) && NamesFree(path, r.key.VhdName()) && PlainName(r.key.VhdName())
    modifies w`st, w`trace, w`answers, w`refusals, w`folders
    ensures old(w.trace) <= w.trace && w.refusals >= old(w.refusals) && old(w.answers) <= w.answers
    ensures ok <==> AllWorked(w.trace, |old(w.trace)|) && w.refusals == old(w.refusals)
    ensures exists made :: w.folders == old(w.folders) + [Folder(FolderOf(root, r.guid, id), made)]
    // The id is the stamp, or the next one if the folder of that was said to be there.
    ensures |w.answers| > |old(w.answers)| && var first := w.answers[|old(w.answers)|];
            && first.AskedExists? && first.path == FolderOf(root, r.guid, stamp)
            && id == if first.there then stamp + "-1" else stamp
    ensures var dir := FolderOf(root, r.guid, id);
            var dest, note := JoinWindows(dir, r.key.VhdName()), JoinWindows(dir, NOTE_NAME);
            && (forall i :: |old(w.trace)| <= i < |w.trace| ==> Filed(old(w.st), w.trace[i].after, path, dest, note, c))
            && Filed(old(w.st), w.st, path, dest, note, c)
            && (ok ==> !old(w.st).Present(dest) && w.st.Holds(dest, c) && !w.st.Present(path)
                       && w.st.Holds(note, SnapshotNote(id, r.guid, r.key.VhdName())))
            && (old(w.st).Present(dest) ==>
                  && id == stamp + "-1" && !ok
                  && |w.answers| > |old(w.answers)|
                  && (Blocked(old(w.trace), w.trace, w.answers[..|old(w.answers)| + 1], w.answers, old(w.st), w.st,
                              path, dir, dest)
                      || (w.trace == old(w.trace) && w.st == old(w.st))))
  {
    hide CanonicalPath, JoinWindows, Filed, FolderOf, FolderHasFile, PlainName, NamesFree, Blocked;
    id := stamp;
    ghost var n := |w.trace|;
    if w.st.Present(JoinWindows(FolderOf(root, r.guid, id), r.key.VhdName())) {
      FileInItsFolder(w.st, FolderOf(root, r.guid, id), r.key.VhdName());
    }
    var taken := w.FolderExists(FolderOf(root, r.guid, id));
    if taken {
      id := id + "-1";
    }
    ghost var asked := w.answers;
    var dir := FolderOf(root, r.guid, id);
    var dest, note := JoinWindows(dir, r.key.VhdName()), JoinWindows(dir, NOTE_NAME);
    assert !SamePath(note, path) && !SamePath(dest, path) && !SamePath(note, dest) by {
      FreeNames(path, r.key.VhdName(), dir);
    }
    ghost var s0 := w.st;
    ok := w.MkdirAll(dir);
    if !ok {
      FiledAtFirst(s0, path, dest, note, c);
    } else {
      ok := MoveInto(w, path, dir, dest, note, c);
      assert asked == w.answers[..|asked|];
      if ok {
        ghost var s := w.st;
        ok := w.Do(WriteFile(note, SnapshotNote(id, r.guid, r.key.VhdName())));
        assert w.trace[|w.trace| - 1].ok == ok;
        NoteWritten(s0, s, w.st, path, dest, note, c, SnapshotNote(id, r.guid, r.key.VhdName()), ok);
      }
    }
  }

  lemma FreeNames(path: Path, name: string, dir: Path)
    requires NamesFree(path, name)
    ensures !SamePath(JoinWindows(dir, NOTE_NAME), path) && !SamePath(JoinWindows(dir, name), path)
            && !SamePath(JoinWindows(dir, NOTE_NAME), JoinWindows(dir, name))
  {
  }

  lemma FiledAtFirst(s: State, path: Path, dest: Path, note: Path, c: Content)
    requires s.Holds(path, c)
    ensures Filed(s, s, path, dest, note, c)
  {
  }

  lemma NoteWritten(s0: State, s: State, t: State, path: Path, dest: Path, note: Path, c: Content, n: Content, ok: bool)
    requires Filed(s0, s, path, dest, note, c) && s.Holds(dest, c) && !s.Present(path) && !s0.Present(dest)
    requires !SamePath(note, dest) && !SamePath(note, path) && Outcome(s, WriteFile(note, n), ok, t)
    ensures Filed(s0, t, path, dest, note, c) && t.Holds(dest, c) && !t.Present(path) && (ok ==> t.Holds(note, n))
  {
    hide CanonicalPath;
    if !ok {
      OnlyFileMeans(s, t, CanonicalPath(note));
    }
  }

  /** At one place or the other, and nothing else different; or, with a disk in the way, nothing but that
      disk's being there. */
  ghost predicate Filed(s0: State, s: State, path: Path, dest: Path, note: Path, c: Content) {
    if s0.Present(dest) then s == s0 || s == Effect(s0, Remove(dest))
    else
      && (s.Holds(path, c) || s.Holds(dest, c))
      && SameFilesBut(s0, s, {CanonicalPath(path), CanonicalPath(dest), CanonicalPath(note)})
      && SameRegistry(s0, s)
  }

  /** The run with a disk in the way: nothing on one volume; from another, a copy that is refused and a
      clean-up that deletes that disk, unless it fails too. */
  ghost predicate Blocked(before: seq<Step>, after: seq<Step>, asked: seq<Answer>, answers: seq<Answer>,
                          s0: State, s: State, path: Path, dir: Path, dest: Path)
  {
    || (&& answers == asked + [AskedSameVolume(path, dir, true)]
        && after == before + [Step(Rename(path, dest), false, s0, s0)] && s == s0)
    || (&& answers == asked + [AskedSameVolume(path, dir, false)]
        && |after| == |before| + 2 && var gone := after[|before| + 1].ok;
        && after == before + [Step(CopySparse(path, dest), false, s0, s0), Step(Remove(dest), gone, s0, s)]
        && s == if gone then Effect(s0, Remove(dest)) else s0)
  }

  method MoveInto(w: Machine, path: Path, dir: Path, dest: Path, ghost note: Path, ghost c: Content) returns (ok: bool)
    requires w.st.Holds(path, c) && !SamePath(dest, path)
    modifies w`st, w`trace, w`answers
    ensures old(w.trace) <= w.trace && (ok <==> AllWorked(w.trace, |old(w.trace)|))
    ensures old(w.answers) <= w.answers
    ensures forall i :: |old(w.trace)| <= i < |w.trace| ==> Filed(old(w.st), w.trace[i].after, path, dest, note, c)
    ensures Filed(old(w.st), w.st, path, dest, note, c)
    ensures ok ==> !old(w.st).Present(dest) && w.st.Holds(dest, c) && !w.st.Present(path)
    ensures old(w.st).Present(dest) ==>
              Blocked(old(w.trace), w.trace, old(w.answers), w.answers, old(w.st), w.st, path, dir, dest)
  {
    hide CanonicalPath;
    ghost var s0, n := w.st, |w.trace|;
    var same := w.SameVolume(path, dir);
    if same {
      ok := w.Do(Rename(path, dest));
      assert w.trace[n].ok == ok;
    } else {
      ok := w.Do(CopySparse(path, dest));
      if ok {
        ok := w.Do(Remove(path));
        assert w.trace[n + 1].ok == ok;
      } else {
        if w.st != s0 {
          OnlyFileMeans(s0, w.st, CanonicalPath(dest));
        }
        var cleaned := w.Do(Remove(dest));
        assert !w.trace[n].ok;
      }
    }
  }

  /** What puts the replaced disk back, if the last step before `b` put it aside. */
  function Back(trace: seq<Step>, n: nat, b: nat, r: Registration): seq<Entry>
    requires b <= |trace|
  {
    if b > n && trace[b - 1].call == Rename(Live(r), Aside(r)) && trace[b - 1].ok
    then [Entry(Rename(Aside(r), Live(r)), false)] else []
  }

  /** A failed copy, from step `b` on, is removed and the rest rolled back; after a failed start the
      distribution is stopped and all of it is rolled back. */
  ghost predicate GoesBack(o: RestoreOutcome, trace: seq<Step>, n: nat, b: nat, r: Registration, k: Kept) {
    && n <= b < |trace| && trace[b].call == CopySparse(k.VhdPath(), Live(r))
    && match o
       case CopyFailed(oks) =>
         && b + 1 < |trace| && !trace[b].ok && trace[b + 1].call == Remove(Live(r))
         && Unwound(trace, b + 2, Back(trace, n, b, r), oks, false, trace[b + 1].after)
       case WouldNotStart(oks) =>
         && b + 2 < |trace| && trace[b].ok && trace[b + 1].call == Start(r.key.Name()) && !trace[b + 1].ok
         && trace[b + 2].call == Terminate(r.key.Name())
         && Unwound(trace, b + 3, Back(trace, n, b, r) + [Entry(Remove(Live(r)), false)], oks, false,
                    trace[b + 2].after)
       case _ => trace[b].ok
  }

  /** How a restore ends, and that it fails for a reason. */
  ghost predicate RestoreEnds(o: RestoreOutcome, trace: seq<Step>, n: nat, r: Registration, k: Kept, refused: bool) {
    match o
    case NotFreed => true
    case NotMovedAside => |trace| > n && trace[|trace| - 1].call == Rename(Live(r), Aside(r)) && !trace[|trace| - 1].ok
    case _ =>
      && (exists b: nat :: GoesBack(o, trace, n, b, r, k))
      && (o.Restored? <==> AllWorked(trace, n) && !refused)
  }

  /** The live disk is moved aside just if it was said to be there. */
  ghost predicate AsideIfThere(trace: seq<Step>, n: nat, answers: seq<Answer>, m: nat, r: Registration) {
    && m < |answers| && answers[m].AskedExists? && answers[m].path == Live(r) && answers[m].at == n
    && n < |trace| && (answers[m].there <==> trace[n].call == Rename(Live(r), Aside(r)))
  }

  /** After a failed start, and the stop, the disk in place is waited for; nothing else is. */
  ghost predicate WaitsBack(o: RestoreOutcome, trace: seq<Step>, n: nat, wait: seq<Probe>, passed: int, r: Registration)
  {
    if o.WouldNotStart? then
      exists i :: n <= i < |trace| - 1 && trace[i].call == Start(r.key.Name()) && !trace[i].ok
                  && trace[i + 1].call == Terminate(r.key.Name())
                  && Waits(wait, r.key.Name(), Live(r), i + 2, 0, passed, SeenFree(wait))
    else wait == []
  }

  /** The live disk is waited for, after a stop if there is one, unless it was said not to be there; `ok`
      is whether it may be moved. */
  ghost predicate LiveAwaited(trace: seq<Step>, n: nat, wait: seq<Probe>, passed: int, answers: seq<Answer>, m: nat,
                              r: Registration, stops: bool, shutdown: bool, ok: bool)
  {
    if stops then DiskAwaited(trace, n, wait, r, true, shutdown, 0, passed) && (ok <==> SeenFree(wait))
    else
      && m < |answers| && answers[m].AskedExists? && answers[m].path == Live(r)
      && if answers[m].there then DiskAwaited(trace, n, wait, r, false, shutdown, 0, passed) && (ok <==> SeenFree(wait))
         else ok && wait == []
  }

  lemma LiveAwaitedOn(before: seq<Step>, after: seq<Step>, n: nat, wait: seq<Probe>, passed: int, longer: int,
                      answers: seq<Answer>, more: seq<Answer>, m: nat, r: Registration, stops: bool, shutdown: bool,
                      ok: bool)
    requires before <= after && passed <= longer && answers <= more
    requires LiveAwaited(before, n, wait, passed, answers, m, r, stops, shutdown, ok)
    ensures LiveAwaited(after, n, wait, longer, more, m, r, stops, shutdown, ok)
  {
    hide DiskAwaited, SeenFree;
    if stops || answers[m].there {
      AwaitedOn(before, after, n, wait, r, stops, shutdown, 0, passed, longer);
    }
  }

  /** The probes of a restore: up to the `c`-th for the live disk, and the others for what did not start. */
  ghost predicate RestoreWaits(o: RestoreOutcome, trace: seq<Step>, n: nat, ps: seq<Probe>, c: nat, passed: int,
                               answers: seq<Answer>, m: nat, r: Registration, stops: bool, shutdown: bool)
  {
    && c <= |ps|
    && LiveAwaited(trace, n, ps[..c], passed, answers, m, r, stops, shutdown, !o.NotFreed?)
    && WaitsBack(o, trace, n, ps[c..], passed, r)
  }

  ghost predicate RestoreAwaits(o: RestoreOutcome, trace: seq<Step>, n: nat, ps: seq<Probe>, passed: int,
                                answers: seq<Answer>, m: nat, r: Registration, stops: bool, shutdown: bool)
  {
    exists c: nat :: RestoreWaits(o, trace, n, ps, c, passed, answers, m, r, stops, shutdown)
  }

  /** The live disk, if there is one, is seen unlocked, after a stop if one was needed. */
  method FreeLive(w: Machine, r: Registration, running: bool, shutdown: bool) returns (ok: bool)
    modifies w`st, w`trace, w`now, w`probes, w`answers
    ensures w.st == old(w.st) && old(w.trace) <= w.trace
    ensures |w.trace| == |old(w.trace)| + if running || shutdown then 1 else 0
    ensures running || shutdown ==> w.trace[|old(w.trace)|].after == w.st && (ok ==> w.trace[|old(w.trace)|].ok)
    ensures old(w.probes) <= w.probes && old(w.now) <= w.now && old(w.answers) <= w.answers
    ensures LiveAwaited(w.trace, |old(w.trace)|, w.probes[|old(w.probes)|..], w.now - old(w.now), w.answers,
                        |old(w.answers)|, r, running || shutdown, shutdown, ok)
    ensures running || shutdown ==> w.trace[|old(w.trace)|].call == StopCall(r, shutdown)
    ensures |w.answers| == |old(w.answers)| + if running || shutdown then 0 else 1
  {
    hide Waits, SeenFree;
    ok := true;
    if running || shutdown {
      ok := StopForDisk(w, r, shutdown);
    } else {
      var there := w.Exists(Live(r));
      if there {
        var free := WaitForDisk(w, r.key.Name(), Live(r), false, 0);
        WaitsOnce(w.probes[|old(w.probes)|..], r.key.Name(), Live(r), |w.trace|, 0, w.now - old(w.now), free.Free?);
        ok := free == Free;
      }
    }
  }

  /** The replaced disk is kept aside, and becomes a snapshot once the restored one has started. */
  method Restore(w: Machine, r: Registration, k: Kept, root: Path, stamp: string, running: bool, shutdown: bool,
                 ghost d: Content)
    returns (o: RestoreOutcome, ghost id: Option<string>)
    requires Restorable(r, k) && w.st.Holds(k.VhdPath(), d)
    modifies w`st, w`trace, w`now, w`probes, w`answers, w`refusals, w`folders
    ensures old(w.trace) <= w.trace
    ensures IsStamped(id, stamp)
    ensures KeptFrom(old(w.st), w.trace, |old(w.trace)|, PlacesFor(r, k, root, id), At(old(w.st), Live(r)), d)
    ensures RestoreLeaves(o, old(w.st), w.st, PlacesFor(r, k, root, id), id, r.guid, r.key.VhdName(), d)
    ensures Succeeds(o) ==> BootedFrom(w.trace, |old(w.trace)|, r, d)
    ensures w.refusals >= old(w.refusals)
    ensures RestoreEnds(o, w.trace, |old(w.trace)|, r, k, w.refusals > old(w.refusals))
    // A disk that may be in use is stopped, and seen unlocked, before anything is moved; and what failed to
    // start is waited for before the way back.
    ensures old(w.probes) <= w.probes && old(w.answers) <= w.answers
    ensures RestoreAwaits(o, w.trace, |old(w.trace)|, w.probes[|old(w.probes)|..], w.now - old(w.now), w.answers,
                          |old(w.answers)|, r, running || shutdown, shutdown)
    ensures o.NotFreed? ==> |w.trace| == |old(w.trace)| + if running || shutdown then 1 else 0
    ensures !o.NotFreed? ==>
              AsideIfThere(w.trace, |old(w.trace)| + if running || shutdown then 1 else 0, w.answers,
                           |old(w.answers)| + if running || shutdown then 0 else 1, r)
    ensures (running || shutdown) && |w.trace| > |old(w.trace)| + 1 ==> w.trace[|old(w.trace)|].ok
  {
    hide CanonicalPath, JoinWindows, EqualFold, TrimPrefix, RestoreEnds, LiveAwaited, WaitsBack, SeenFree;
    id := None;
    NamesApart(r, k, "");
    ghost var n := |w.trace|;
    var free := FreeLive(w, r, running, shutdown);
    ghost var passed, trace, answers, wait := w.now - old(w.now), w.trace, w.answers, w.probes[|old(w.probes)|..];
    NotFreedEnds(trace, n, r, k, false);
    NothingToWait(NotFreed, trace, n, passed, r);
    if !free {
      assert wait[..|wait|] == wait && wait[|wait|..] == [];
      assert RestoreWaits(NotFreed, trace, n, wait, |wait|, passed, answers, |old(w.answers)|, r, running || shutdown,
                          shutdown);
      return NotFreed, id;
    }
    o, id := SwapIn(w, r, k, root, stamp, d);
    ghost var ps := w.probes[|old(w.probes)|..];
    assert ps[..|wait|] == wait && ps[|wait|..] == w.probes[|old(w.probes)| + |wait|..];
    LiveAwaitedOn(trace, w.trace, n, wait, passed, w.now - old(w.now), answers, w.answers, |old(w.answers)|, r,
                  running || shutdown, shutdown, free);
    WaitsBackSince(o, w.trace, n, |trace|, ps[|wait|..], w.now - old(w.now) - passed, w.now - old(w.now), r);
    assert RestoreWaits(o, w.trace, n, ps, |wait|, w.now - old(w.now), w.answers, |old(w.answers)|, r,
                        running || shutdown, shutdown);
    EndsSince(o, old(w.trace), trace, w.trace, r, k, w.refusals > old(w.refusals));
  }

  lemma WaitsBackSince(o: RestoreOutcome, trace: seq<Step>, n: nat, m: nat, wait: seq<Probe>, passed: int, longer: int,
                       r: Registration)
    requires WaitsBack(o, trace, m, wait, passed, r) && n <= m && passed <= longer
    ensures WaitsBack(o, trace, n, wait, longer, r)
  {
    hide Waits, SeenFree;
    if o.WouldNotStart? {
      var i :| m <= i < |trace| - 1 && trace[i].call == Start(r.key.Name()) && !trace[i].ok
               && trace[i + 1].call == Terminate(r.key.Name())
               && Waits(wait, r.key.Name(), Live(r), i + 2, 0, passed, SeenFree(wait));
      WaitsLonger(wait, r.key.Name(), Live(r), i + 2, 0, passed, longer, SeenFree(wait));
    }
  }

  lemma NothingToWait(o: RestoreOutcome, trace: seq<Step>, n: nat, passed: int, r: Registration)
    requires !o.WouldNotStart?
    ensures WaitsBack(o, trace, n, [], passed, r)
  {
  }

  lemma NotFreedEnds(trace: seq<Step>, n: nat, r: Registration, k: Kept, refused: bool)
    ensures RestoreEnds(NotFreed, trace, n, r, k, refused)
  {
  }

  /** Stopping the distribution is no step of the restore. */
  lemma EndsSince(o: RestoreOutcome, before: seq<Step>, mid: seq<Step>, after: seq<Step>, r: Registration, k: Kept,
                  refused: bool)
    requires before <= mid <= after && |mid| <= |before| + 1
    requires |mid| > |before| ==> mid[|before|].ok && (mid[|before|].call.Shutdown? || mid[|before|].call.Terminate?)
    requires RestoreEnds(o, after, |mid|, r, k, refused)
    ensures RestoreEnds(o, after, |before|, r, k, refused)
  {
    hide Unwound, CanonicalPath, JoinWindows;
    if |mid| > |before| {
      var n := |before|;
      assert after[n] == mid[n];
      if !o.NotFreed? && !o.NotMovedAside? {
        var b: nat :| GoesBack(o, after, |mid|, b, r, k);
        assert Back(after, |mid|, b, r) == Back(after, n, b, r);
        assert GoesBack(o, after, n, b, r, k);
      }
    }
  }

  /** With the live disk aside, if there was one, and the way back for it on the stack. */
  ghost predicate Swapped(es: seq<Entry>, s0: State, s: State, r: Registration, k: Kept, d: Content, had: bool) {
    && es == (if had then [Entry(Rename(Aside(r), Live(r)), false)] else [])
    && (had ==> Enabled(s0, Rename(Live(r), Aside(r))) && s == Effect(s0, Rename(Live(r), Aside(r))))
    && (!had ==> !s0.Present(Live(r)) && s == s0)
    && s.Holds(k.VhdPath(), d)
  }

  method SwapIn(w: Machine, r: Registration, k: Kept, root: Path, stamp: string, ghost d: Content)
    returns (o: RestoreOutcome, ghost id: Option<string>)
    requires Restorable(r, k) && w.st.Holds(k.VhdPath(), d)
    modifies w`st, w`trace, w`now, w`probes, w`answers, w`refusals, w`folders
    ensures old(w.trace) <= w.trace
    ensures IsStamped(id, stamp)
    ensures KeptFrom(old(w.st), w.trace, |old(w.trace)|, PlacesFor(r, k, root, id), At(old(w.st), Live(r)), d)
    ensures RestoreLeaves(o, old(w.st), w.st, PlacesFor(r, k, root, id), id, r.guid, r.key.VhdName(), d)
    ensures Succeeds(o) ==> BootedFrom(w.trace, |old(w.trace)|, r, d)
    ensures !o.NotFreed? && w.refusals >= old(w.refusals)
    ensures RestoreEnds(o, w.trace, |old(w.trace)|, r, k, w.refusals > old(w.refusals))
    ensures old(w.probes) <= w.probes && old(w.now) <= w.now && old(w.answers) <= w.answers
    ensures WaitsBack(o, w.trace, |old(w.trace)|, w.probes[|old(w.probes)|..], w.now - old(w.now), r)
    ensures AsideIfThere(w.trace, |old(w.trace)|, w.answers, |old(w.answers)|, r)
  {
    hide CanonicalPath, JoinWindows, EqualFold, TrimPrefix, Undone, GoesBack, WaitsBack, Waits, AsideIfThere,
      RestoreEnds;
    ghost var s0 := w.st;
    id := None;
    NamesApart(r, k, "");
    var undo := new UndoStack();
    var had := w.Exists(Live(r));
    ghost var answers := w.answers;
    if had {
      var moved := w.Do(Rename(Live(r), Aside(r)));
      if !moved {
        NothingToWait(NotMovedAside, w.trace, |old(w.trace)|, 0, r);
        NotAside(w.trace, |old(w.trace)|, w.answers, |old(w.answers)|, r, k);
        assert w.probes[|old(w.probes)|..] == [];
        return NotMovedAside, id;
      }
      undo.Push(Rename(Aside(r), Live(r)), false);
    }
    ghost var before := w.trace;
    hide BothKept;
    o, id := CopyIn(w, undo, r, k, root, stamp, had, d, s0, |old(w.trace)|);
    AsideAsked(o, before, w.trace, |old(w.trace)|, answers, w.answers, |old(w.answers)|, r, k);
    SwappedEnds(o, before, w.trace, |old(w.trace)|, r, k, w.refusals > old(w.refusals));
    WaitsBackSince(o, w.trace, |old(w.trace)|, |before|, w.probes[|old(w.probes)|..], w.now - old(w.now),
                   w.now - old(w.now), r);
  }

  lemma NotAside(trace: seq<Step>, n: nat, answers: seq<Answer>, m: nat, r: Registration, k: Kept)
    requires |trace| == n + 1 && trace[n].call == Rename(Live(r), Aside(r)) && !trace[n].ok
    requires |answers| == m + 1 && answers[m].AskedExists? && answers[m].path == Live(r)
    requires answers[m].there && answers[m].at == n
    ensures RestoreEnds(NotMovedAside, trace, n, r, k, false) && AsideIfThere(trace, n, answers, m, r)
  {
  }

  lemma AsideAsked(o: RestoreOutcome, before: seq<Step>, after: seq<Step>, n: nat, answers: seq<Answer>,
                   more: seq<Answer>, m: nat, r: Registration, k: Kept)
    requires n <= |before| && before <= after && answers <= more && GoesBack(o, after, n, |before|, r, k)
    requires |answers| == m + 1 && answers[m].AskedExists? && answers[m].path == Live(r) && answers[m].at == n
    requires if answers[m].there then |before| == n + 1 && before[n].call == Rename(Live(r), Aside(r))
             else |before| == n
    ensures AsideIfThere(after, n, more, m, r)
  {
    hide Unwound;
    assert |before| > n ==> after[n] == before[n];
  }

  lemma SwappedEnds(o: RestoreOutcome, before: seq<Step>, after: seq<Step>, n: nat, r: Registration, k: Kept,
                    refused: bool)
    requires n <= |before| && before <= after && AllWorked(before, n)
    requires GoesBack(o, after, n, |before|, r, k)
    requires o.Restored? <==> AllWorked(after, |before|) && !refused
    requires !o.NotFreed? && !o.NotMovedAside?
    ensures RestoreEnds(o, after, n, r, k, refused)
  {
    hide GoesBack;
    WorkedOn(before, after, n);
  }

  method CopyIn(w: Machine, undo: UndoStack, r: Registration, k: Kept, root: Path, stamp: string, had: bool,
                ghost d: Content, ghost s0: State, ghost n: nat)
    returns (o: RestoreOutcome, ghost id: Option<string>)
    requires Restorable(r, k) && Swapped(undo.entries, s0, w.st, r, k, d, had)
    requires n <= |w.trace| && KeptFrom(s0, w.trace, n, Swapping(r, k), At(s0, Live(r)), d)
    requires undo.entries == Back(w.trace, n, |w.trace|, r)
    modifies undo, w`st, w`trace, w`now, w`probes, w`answers, w`refusals, w`folders
    ensures old(w.trace) <= w.trace
    ensures IsStamped(id, stamp)
    ensures KeptFrom(s0, w.trace, n, PlacesFor(r, k, root, id), At(s0, Live(r)), d)
    ensures RestoreLeaves(o, s0, w.st, PlacesFor(r, k, root, id), id, r.guid, r.key.VhdName(), d)
    ensures Succeeds(o) ==> BootedFrom(w.trace, n, r, d)
    ensures w.refusals >= old(w.refusals) && GoesBack(o, w.trace, n, |old(w.trace)|, r, k)
    ensures o.Restored? <==> AllWorked(w.trace, |old(w.trace)|) && w.refusals == old(w.refusals)
    ensures !o.NotFreed? && !o.NotMovedAside?
    ensures old(w.probes) <= w.probes && old(w.now) <= w.now && old(w.answers) <= w.answers
    ensures WaitsBack(o, w.trace, |old(w.trace)|, w.probes[|old(w.probes)|..], w.now - old(w.now), r)
  {
    hide CanonicalPath, JoinWindows, EqualFold, TrimPrefix, Undone, Effect, Enabled, Waits;
    hide Restorable, BothKept, SameFilesBut, NamesFree, PlainName, Steps, Answers, After;
    hide KeptFrom, RestoreLeaves, GoesBack, AllWorked, Back, Swapped;
    id := None;
    ghost var es, s1, before := undo.entries, w.st, w.trace;
    var copied := w.Do(CopySparse(k.VhdPath(), Live(r)));
    ghost var trace := w.trace;
    CopyingIn(es, s0, s1, w.st, r, k, d, had, copied);
    KeptSnoc(s0, before, trace, n, Swapping(r, k), At(s0, Live(r)), d);
    BackAsBefore(before, trace, n, r);
    if !copied {
      var oks := CopyBack(w, undo, r, k, had, d, s0, s1, n);
      CopyGoesBack(oks, trace, w.trace, n, r, k);
      CopyLeaves(oks, es, s0, s1, w.st, r, k, root, d, had);
      return CopyFailed(oks), id;
    }
    undo.Push(Remove(Live(r)), false);
    o, id := BootAndFile(w, undo, r, k, root, stamp, had, d, es, s0, s1, n);
    StartGoesBack(o, trace, w.trace, n, r, k);
  }

  lemma KeptSnoc(s0: State, before: seq<Step>, after: seq<Step>, n: nat, p: Places, c: Option<Content>, d: Content)
    requires n <= |before| && |after| == |before| + 1 && before <= after
    requires KeptFrom(s0, before, n, p, c, d) && BothKept(s0, after[|before|].after, p, c, d)
    ensures KeptFrom(s0, after, n, p, c, d)
  {
    hide BothKept;
    forall i | n <= i < |before| ensures after[i] == before[i] {
    }
  }

  lemma BackAsBefore(before: seq<Step>, after: seq<Step>, n: nat, r: Registration)
    requires n <= |before| && before <= after
    ensures Back(after, n, |before|, r) == Back(before, n, |before|, r)
  {
  }

  lemma CopyLeaves(oks: seq<bool>, es: seq<Entry>, s0: State, s: State, t: State, r: Registration, k: Kept,
                   root: Path, d: Content, had: bool)
    requires Swapped(es, s0, s, r, k, d, had)
    requires AllOk(oks) && (had || !t.Present(Live(r))) ==> t == s0
    ensures RestoreLeaves(CopyFailed(oks), s0, t, PlacesFor(r, k, root, None), None, r.guid, r.key.VhdName(), d)
  {
    hide CanonicalPath, JoinWindows, Effect, Enabled;
  }

  lemma CopyGoesBack(oks: seq<bool>, before: seq<Step>, after: seq<Step>, n: nat, r: Registration, k: Kept)
    requires n < |before| && before <= after
    requires var b := |before| - 1;
             && before[b].call == CopySparse(k.VhdPath(), Live(r)) && !before[b].ok
             && |after| > b + 1 && after[b + 1].call == Remove(Live(r))
             && Unwound(after, b + 2, Back(before, n, b, r), oks, false, after[b + 1].after)
    ensures GoesBack(CopyFailed(oks), after, n, |before| - 1, r, k)
    ensures !AllWorked(after, |before| - 1)
  {
    hide Unwound;
    assert after[|before| - 1] == before[|before| - 1];
    assert Back(before, n, |before| - 1, r) == Back(after, n, |before| - 1, r);
  }

  lemma StartGoesBack(o: RestoreOutcome, before: seq<Step>, after: seq<Step>, n: nat, r: Registration, k: Kept)
    requires n < |before| && before <= after
    requires var b := |before| - 1;
             && before[b].call == CopySparse(k.VhdPath(), Live(r)) && before[b].ok
             && (o.WouldNotStart? || Succeeds(o))
             && (o.WouldNotStart? ==>
                   && |after| > b + 2 && after[b + 1].call == Start(r.key.Name()) && !after[b + 1].ok
                   && after[b + 2].call == Terminate(r.key.Name())
                   && Unwound(after, b + 3, Back(before, n, b, r) + [Entry(Remove(Live(r)), false)], o.rolledBack,
                              false, after[b + 2].after))
    ensures GoesBack(o, after, n, |before| - 1, r, k)
    ensures AllWorked(after, |before| - 1) <==> AllWorked(after, |before|)
  {
    hide Unwound;
    var b := |before| - 1;
    assert after[b] == before[b];
    assert Back(before, n, b, r) == Back(after, n, b, r);
  }

  /** What a failed copy left is removed, and the replaced disk comes back. */
  method CopyBack(w: Machine, undo: UndoStack, r: Registration, ghost k: Kept, ghost had: bool, ghost d: Content,
                  ghost s0: State, ghost s1: State, ghost n: nat)
    returns (oks: seq<bool>)
    requires Restorable(r, k) && Swapped(undo.entries, s0, s1, r, k, d, had)
    requires Outcome(s1, CopySparse(k.VhdPath(), Live(r)), false, w.st)
    requires n <= |w.trace| && KeptFrom(s0, w.trace, n, Swapping(r, k), At(s0, Live(r)), d)
    modifies undo, w`st, w`trace
    ensures old(w.trace) <= w.trace
    ensures KeptFrom(s0, w.trace, n, Swapping(r, k), At(s0, Live(r)), d)
    ensures AllOk(oks) && (had || !w.st.Present(Live(r))) ==> w.st == s0
    ensures var b := |old(w.trace)|;
            && b < |w.trace| && w.trace[b].call == Remove(Live(r))
            && Unwound(w.trace, b + 1, old(undo.entries), oks, false, w.trace[b].after)
  {
    hide CanonicalPath, JoinWindows, EqualFold, TrimPrefix, Undone, Effect, Enabled;
    hide Restorable, BothKept, SameFilesBut, NamesFree, PlainName, Steps, Answers, After;
    ghost var es, b := undo.entries, |w.trace|;
    CopyingIn(es, s0, s1, w.st, r, k, d, had, false);
    var cleaned := w.Do(Remove(Live(r)));
    ghost var t := w.st;
    oks := undo.Unwind(w, false);
    BackFromCopy(es, oks, s0, s1, t, r, k, d, had);
    assert w.trace[b + 1..] == Steps(es, oks, false, t);
    assert forall i :: b + 1 <= i < |w.trace| ==> w.trace[i] in Steps(es, oks, false, t);
  }

  /** After the copy has been tried, whatever came of it. */
  lemma CopyingIn(es: seq<Entry>, s0: State, s: State, t: State, r: Registration, k: Kept, d: Content,
                  had: bool, ok: bool)
    requires Restorable(r, k) && Swapped(es, s0, s, r, k, d, had)
    requires Outcome(s, CopySparse(k.VhdPath(), Live(r)), ok, t)
    ensures SameFilesBut(s, t, {CanonicalPath(Live(r))}) && SameRegistry(s, t)
    ensures forall u | SameFilesBut(s, u, {CanonicalPath(Live(r))}) && SameRegistry(s, u) ::
              BothKept(s0, u, Swapping(r, k), At(s0, Live(r)), d)
    ensures var u := Effect(t, Remove(Live(r)));
            SameFilesBut(s, u, {CanonicalPath(Live(r))}) && SameRegistry(s, u)
    ensures ok ==> t == Effect(s, CopySparse(k.VhdPath(), Live(r))) && t.Holds(Live(r), d) && !s.Present(Live(r))
  {
    hide CanonicalPath, JoinWindows, EqualFold, TrimPrefix, BothKept;
    NamesApart(r, k, "");
    if !ok && t != s {
      OnlyFileMeans(s, t, CanonicalPath(Live(r)));
    }
    forall u | SameFilesBut(s, u, {CanonicalPath(Live(r))}) && SameRegistry(s, u)
      ensures BothKept(s0, u, Swapping(r, k), At(s0, Live(r)), d)
    {
      LiveIsFree(es, s0, s, u, r, k, d, had);
    }
  }

  /** With the live disk aside, whatever happens where it was harms neither disk. */
  lemma LiveIsFree(es: seq<Entry>, s0: State, s: State, u: State, r: Registration, k: Kept, d: Content, had: bool)
    requires Restorable(r, k) && Swapped(es, s0, s, r, k, d, had)
    requires SameFilesBut(s, u, {CanonicalPath(Live(r))}) && SameRegistry(s, u)
    ensures BothKept(s0, u, Swapping(r, k), At(s0, Live(r)), d)
  {
    hide CanonicalPath, JoinWindows, EqualFold, TrimPrefix;
    NamesApart(r, k, "");
  }

  lemma BackFromCopy(es: seq<Entry>, oks: seq<bool>, s0: State, s: State, t: State, r: Registration, k: Kept,
                     d: Content, had: bool)
    requires Restorable(r, k) && Swapped(es, s0, s, r, k, d, had)
    requires SameFilesBut(s, t, {CanonicalPath(Live(r))}) && SameRegistry(s, t)
    requires |oks| == |es| && Answers(es, oks, false, t)
    ensures forall step | step in Steps(es, oks, false, t) ::
              BothKept(s0, step.after, Swapping(r, k), At(s0, Live(r)), d)
    ensures var u := After(es, oks, t); AllOk(oks) && (had || !u.Present(Live(r))) ==> u == s0
  {
    hide CanonicalPath, JoinWindows, EqualFold, TrimPrefix;
    NamesApart(r, k, "");
    if had {
      assert oks == [oks[0]] && oks[1..] == [];
      if oks[0] {
        assert t.files == s.files;
        RenameInverse(s0, Live(r), Aside(r));
      }
    } else {
      assert oks == [];
      if !t.Present(Live(r)) {
        assert t.files == s.files;
      }
    }
  }

  method BootAndFile(w: Machine, undo: UndoStack, r: Registration, k: Kept, root: Path, stamp: string, had: bool,
                     ghost d: Content, ghost es: seq<Entry>, ghost s0: State, ghost s1: State, ghost n: nat)
    returns (o: RestoreOutcome, ghost id: Option<string>)
    requires Restorable(r, k) && Swapped(es, s0, s1, r, k, d, had)
    requires Enabled(s1, CopySparse(k.VhdPath(), Live(r))) && w.st == Effect(s1, CopySparse(k.VhdPath(), Live(r)))
    requires undo.entries == es + [Entry(Remove(Live(r)), false)]
    requires n <= |w.trace| && KeptFrom(s0, w.trace, n, Swapping(r, k), At(s0, Live(r)), d)
    modifies undo, w`st, w`trace, w`now, w`probes, w`answers, w`refusals, w`folders
    ensures old(w.trace) <= w.trace
    ensures IsStamped(id, stamp)
    ensures KeptFrom(s0, w.trace, n, PlacesFor(r, k, root, id), At(s0, Live(r)), d)
    ensures RestoreLeaves(o, s0, w.st, PlacesFor(r, k, root, id), id, r.guid, r.key.VhdName(), d)
    ensures Succeeds(o) ==> BootedFrom(w.trace, n, r, d)
    ensures w.refusals >= old(w.refusals)
    ensures o.Restored? <==> AllWorked(w.trace, |old(w.trace)|) && w.refusals == old(w.refusals)
    ensures o.WouldNotStart? || Succeeds(o)
    ensures o.WouldNotStart? ==>
              var b := |old(w.trace)|;
              && b + 1 < |w.trace| && w.trace[b].call == Start(r.key.Name()) && !w.trace[b].ok
              && w.trace[b + 1].call == Terminate(r.key.Name())
              && Unwound(w.trace, b + 2, old(undo.entries), o.rolledBack, false, w.trace[b + 1].after)
    ensures old(w.probes) <= w.probes && old(w.now) <= w.now && old(w.answers) <= w.answers
    ensures WaitsBack(o, w.trace, |old(w.trace)|, w.probes[|old(w.probes)|..], w.now - old(w.now), r)
  {
    hide CanonicalPath, JoinWindows, EqualFold, TrimPrefix, Undone, Effect, Enabled, BothKept, Swapped, Waits;
    hide Restorable, SameFilesBut, NamesFree, PlainName, Steps, Answers, After;
    id := None;
    ghost var t, b := w.st, |w.trace|;
    Booting(es, s0, s1, t, r, k, d, had);
    var up := w.Do(Start(r.key.Name()));
    assert w.trace[b] == Step(Start(r.key.Name()), up, t, t);
    if !up {
      ghost var trace := w.trace;
      var oks := StartBack(w, undo, r, k, had, d, es, s0, s1, n);
      assert w.trace[b] == trace[b] && !w.trace[b].ok;
      return WouldNotStart(oks), id;
    }
    o := Restored(None);
    if had {
      FilingIsFree(r, k);
      o, id := FileIt(w, r, k, root, stamp, d, s0, n);
    }
  }

  /** What failed to start may hold the disk still; the rollback waits for it. */
  method StartBack(w: Machine, undo: UndoStack, r: Registration, ghost k: Kept, ghost had: bool, ghost d: Content,
                   ghost es: seq<Entry>, ghost s0: State, ghost s1: State, ghost n: nat)
    returns (oks: seq<bool>)
    requires Restorable(r, k) && Swapped(es, s0, s1, r, k, d, had)
    requires Enabled(s1, CopySparse(k.VhdPath(), Live(r))) && w.st == Effect(s1, CopySparse(k.VhdPath(), Live(r)))
    requires undo.entries == es + [Entry(Remove(Live(r)), false)]
    requires n <= |w.trace| && KeptFrom(s0, w.trace, n, Swapping(r, k), At(s0, Live(r)), d)
    modifies undo, w`st, w`trace, w`now, w`probes
    ensures old(w.trace) <= w.trace
    ensures KeptFrom(s0, w.trace, n, Swapping(r, k), At(s0, Live(r)), d)
    ensures AllOk(oks) ==> w.st == s0
    ensures var b := |old(w.trace)|;
            && b < |w.trace| && w.trace[b].call == Terminate(r.key.Name())
            && Unwound(w.trace, b + 1, old(undo.entries), oks, false, w.trace[b].after)
    ensures old(w.probes) <= w.probes && old(w.now) <= w.now
    ensures var wait := w.probes[|old(w.probes)|..];
            Waits(wait, r.key.Name(), Live(r), |old(w.trace)| + 1, 0, w.now - old(w.now), SeenFree(wait))
  {
    hide CanonicalPath, JoinWindows, EqualFold, TrimPrefix, Undone, Effect, Enabled, BothKept, Swapped, Waits, SeenFree;
    hide Restorable, SameFilesBut, NamesFree, PlainName, Steps, Answers, After;
    ghost var t, b, stack := w.st, |w.trace|, undo.entries;
    Booting(es, s0, s1, t, r, k, d, had);
    var stopped := w.Do(Terminate(r.key.Name()));
    var free := WaitForDisk(w, r.key.Name(), Live(r), false, 0);
    WaitsOnce(w.probes[|old(w.probes)|..], r.key.Name(), Live(r), b + 1, 0, w.now - old(w.now), free.Free?);
    oks := undo.Unwind(w, false);
    assert w.trace[b + 1..] == Steps(stack, oks, false, t);
    BackFromStart(es, oks, s0, s1, t, r, k, d, had);
    assert forall i :: b + 1 <= i < |w.trace| ==> w.trace[i] in Steps(stack, oks, false, t);
  }

  /** A snapshot of the replaced disk makes it possible to go back once more. */
  method FileIt(w: Machine, r: Registration, k: Kept, root: Path, stamp: string,
                ghost d: Content, ghost s0: State, ghost n: nat)
    returns (o: RestoreOutcome, ghost id: Option<string>)
    requires Restorable(r, k) && s0.Present(Live(r))
    requires w.st.Holds(Live(r), d) && w.st.Holds(k.VhdPath(), d) && SameRegistry(s0, w.st)
    requires w.st.Holds(Aside(r), s0.files[CanonicalPath(Live(r))])
    requires SameFilesBut(s0, w.st, {CanonicalPath(Live(r)), CanonicalPath(Aside(r))})
    requires NamesFree(Aside(r), r.key.VhdName())
    requires n <= |w.trace| && KeptFrom(s0, w.trace, n, Swapping(r, k), At(s0, Live(r)), d)
    modifies w`st, w`trace, w`answers, w`refusals, w`folders
    ensures old(w.trace) <= w.trace && Succeeds(o) && w.refusals >= old(w.refusals)
    ensures o.Restored? <==> AllWorked(w.trace, |old(w.trace)|) && w.refusals == old(w.refusals)
    ensures IsStamped(id, stamp) && old(w.answers) <= w.answers
    ensures KeptFrom(s0, w.trace, n, PlacesFor(r, k, root, id), At(s0, Live(r)), d)
    ensures RestoreLeaves(o, s0, w.st, PlacesFor(r, k, root, id), id, r.guid, r.key.VhdName(), d)
  {
    hide CanonicalPath, JoinWindows, EqualFold, TrimPrefix, Effect, Enabled, BothKept, Restorable, SameFilesBut;
    hide NamesFree, PlainName;
    ghost var c := s0.files[CanonicalPath(Live(r))];
    ghost var t, trace := w.st, w.trace;
    assert PlainName(r.key.VhdName()) by { RestorableNames(r, k); }
    var filed, x := FileAsSnapshot(w, r, root, Aside(r), stamp, c);
    id := Some(x);
    ghost var dir := FolderOf(root, r.guid, x);
    forall i | n <= i < |w.trace| ensures BothKept(s0, w.trace[i].after, Filing(r, k, dir), At(s0, Live(r)), d) {
      if i < |trace| {
        assert w.trace[i] == trace[i];
        Widen(s0, w.trace[i].after, r, k, dir, At(s0, Live(r)), d);
      } else {
        FiledIsKept(s0, t, w.trace[i].after, r, k, dir, d, c);
      }
    }
    FiledIsKept(s0, t, w.st, r, k, dir, d, c);
    o := if filed then Restored(Some(x)) else RestoredUnfiled;
  }

  lemma RestorableNames(r: Registration, k: Kept)
    requires Restorable(r, k)
    ensures PlainName(r.key.VhdName())
  {
  }

  /** With the snapshot's copy in place. */
  lemma Booting(es: seq<Entry>, s0: State, s: State, t: State, r: Registration, k: Kept, d: Content, had: bool)
    requires Restorable(r, k) && Swapped(es, s0, s, r, k, d, had)
    requires Enabled(s, CopySparse(k.VhdPath(), Live(r))) && t == Effect(s, CopySparse(k.VhdPath(), Live(r)))
    ensures BothKept(s0, t, Swapping(r, k), At(s0, Live(r)), d)
    ensures t.Holds(Live(r), d) && t.Holds(k.VhdPath(), d) && SameRegistry(s0, t)
    ensures SameFilesBut(s0, t, {CanonicalPath(Live(r)), CanonicalPath(Aside(r))})
    ensures had ==> t.Holds(Aside(r), s0.files[CanonicalPath(Live(r))]) && At(s0, Live(r)).Some?
    ensures !had ==> At(s0, Live(r)) == None && !s0.Present(Live(r))
    ensures AllAtomic(es)
  {
    CopyingIn(es, s0, s, t, r, k, d, had, true);
    NamesApart(r, k, "");
    hide CanonicalPath, JoinWindows, EqualFold, TrimPrefix;
  }

  lemma BackFromStart(es: seq<Entry>, oks: seq<bool>, s0: State, s: State, t: State, r: Registration, k: Kept,
                      d: Content, had: bool)
    requires Restorable(r, k) && Swapped(es, s0, s, r, k, d, had)
    requires Enabled(s, CopySparse(k.VhdPath(), Live(r))) && t == Effect(s, CopySparse(k.VhdPath(), Live(r)))
    requires |oks| == |es| + 1 && Answers(es + [Entry(Remove(Live(r)), false)], oks, false, t)
    ensures forall step | step in Steps(es + [Entry(Remove(Live(r)), false)], oks, false, t) ::
              BothKept(s0, step.after, Swapping(r, k), At(s0, Live(r)), d)
    ensures AllOk(oks) ==> After(es + [Entry(Remove(Live(r)), false)], oks, t) == s0
  {
    var remove := Entry(Remove(Live(r)), false);
    CopyingIn(es, s0, s, t, r, k, d, had, true);
    CopyInverse(s, k.VhdPath(), Live(r));
    hide JoinWindows, EqualFold, TrimPrefix, CanonicalPath, BothKept, Enabled, Effect, SameFilesBut, Restorable;
    if had {
      BackToSwap(es, oks, s0, s, t, r, k, d);
    } else {
      assert es + [remove] == [remove];
      OneEntry(remove, oks, t);
    }
  }

  lemma BackToSwap(es: seq<Entry>, oks: seq<bool>, s0: State, s: State, t: State, r: Registration, k: Kept, d: Content)
    requires Restorable(r, k) && Swapped(es, s0, s, r, k, d, true)
    requires |oks| == |es| + 1 && Answers(es + [Entry(Remove(Live(r)), false)], oks, false, t)
    requires SameFilesBut(s, t, {CanonicalPath(Live(r))}) && SameRegistry(s, t)
    requires BothKept(s0, t, Swapping(r, k), At(s0, Live(r)), d)
    requires BothKept(s0, Effect(t, Remove(Live(r))), Swapping(r, k), At(s0, Live(r)), d)
    requires Effect(t, Remove(Live(r))) == s
    ensures forall step | step in Steps(es + [Entry(Remove(Live(r)), false)], oks, false, t) ::
              BothKept(s0, step.after, Swapping(r, k), At(s0, Live(r)), d)
    ensures AllOk(oks) ==> After(es + [Entry(Remove(Live(r)), false)], oks, t) == s0
  {
    hide JoinWindows, EqualFold, TrimPrefix, CanonicalPath, BothKept, Enabled, Effect, SameFilesBut, Restorable;
    var remove, back := Entry(Remove(Live(r)), false), Entry(Rename(Aside(r), Live(r)), false);
    assert es + [remove] == [back, remove];
    TwoEntries(back, remove, oks, t);
    var u := if oks[1] then Effect(t, Remove(Live(r))) else t;
    SwapBack(s0, s, u, r, k, d, oks[0]);
  }

  /** The last step back: the disk that was aside returns to its place. */
  lemma SwapBack(s0: State, s: State, u: State, r: Registration, k: Kept, d: Content, ok: bool)
    requires Restorable(r, k) && Enabled(s0, Rename(Live(r), Aside(r))) && s == Effect(s0, Rename(Live(r), Aside(r)))
    requires s.Holds(k.VhdPath(), d)
    requires u == s || (SameFilesBut(s, u, {CanonicalPath(Live(r))}) && SameRegistry(s, u))
    requires ok ==> Enabled(u, Rename(Aside(r), Live(r)))
    ensures var v := if ok then Effect(u, Rename(Aside(r), Live(r))) else u;
            BothKept(s0, v, Swapping(r, k), At(s0, Live(r)), d)
    ensures ok && u == s ==> Effect(u, Rename(Aside(r), Live(r))) == s0
  {
    NamesApart(r, k, "");
    SwapBackAt(s0, s, u, Swapping(r, k), d, ok);
    hide CanonicalPath;
    RenameInverse(s0, Live(r), Aside(r));
  }

  lemma SwapBackAt(s0: State, s: State, u: State, p: Places, d: Content, ok: bool)
    requires Apart(p) && p.dest == p.note == p.aside
    requires Enabled(s0, Rename(p.live, p.aside)) && s == Effect(s0, Rename(p.live, p.aside))
    requires s.Holds(p.snap, d)
    requires u == s || (SameFilesBut(s, u, {CanonicalPath(p.live)}) && SameRegistry(s, u))
    requires ok ==> Enabled(u, Rename(p.aside, p.live))
    ensures var v := if ok then Effect(u, Rename(p.aside, p.live)) else u;
            BothKept(s0, v, p, At(s0, p.live), d)
  {
    hide CanonicalPath;
  }

  lemma FilingIsFree(r: Registration, k: Kept)
    requires Restorable(r, k)
    ensures NamesFree(Aside(r), r.key.VhdName())
  {
    hide JoinWindows, EqualFold, TrimPrefix, CanonicalPath;
    forall f
      ensures !SamePath(JoinWindows(f, NOTE_NAME), Aside(r)) && !SamePath(JoinWindows(f, r.key.VhdName()), Aside(r))
              && !SamePath(JoinWindows(f, NOTE_NAME), JoinWindows(f, r.key.VhdName()))
    {
      NamesApart(r, k, f);
    }
  }

  lemma Widen(s0: State, s: State, r: Registration, k: Kept, dir: Path, c: Option<Content>, d: Content)
    requires Restorable(r, k) && BothKept(s0, s, Swapping(r, k), c, d)
    ensures BothKept(s0, s, Filing(r, k, dir), c, d)
  {
    NamesApart(r, k, dir);
    hide JoinWindows, TrimPrefix, CanonicalPath;
  }

  lemma FiledIsKept(s0: State, t: State, u: State, r: Registration, k: Kept, dir: Path, d: Content, c: Content)
    requires Restorable(r, k) && t.Holds(Live(r), d) && t.Holds(k.VhdPath(), d) && SameRegistry(s0, t)
    requires t.Holds(Aside(r), c) && s0.Present(Live(r))
    requires SameFilesBut(s0, t, {CanonicalPath(Live(r)), CanonicalPath(Aside(r))})
    requires var p := Filing(r, k, dir); Filed(t, u, p.aside, p.dest, p.note, c)
    ensures var p := Filing(r, k, dir);
            && BothKept(s0, u, p, Some(c), d) && (s0.Present(p.dest) <==> t.Present(p.dest))
            && (u.Holds(Live(r), d) || Occupied(s0, p, Live(r)))
            && (s0.Present(p.dest) ==> u.Holds(Aside(r), c))
  {
    NamesApart(r, k, dir);
    FiledFrame(s0, t, u, Filing(r, k, dir), d, c);
  }

  lemma FiledFrame(s0: State, t: State, u: State, p: Places, d: Content, c: Content)
    requires t.Holds(p.live, d) && t.Holds(p.snap, d) && SameRegistry(s0, t)
    requires t.Holds(p.aside, c) && s0.Present(p.live)
    requires SameFilesBut(s0, t, {CanonicalPath(p.live), CanonicalPath(p.aside)})
    requires Filed(t, u, p.aside, p.dest, p.note, c)
    requires !SamePath(p.live, p.aside) && !SamePath(p.snap, p.aside) && !SamePath(p.dest, p.aside)
    requires !SamePath(p.note, p.live) && !SamePath(p.note, p.snap)
    ensures BothKept(s0, u, p, Some(c), d) && (s0.Present(p.dest) <==> t.Present(p.dest))
    ensures u.Holds(p.live, d) || Occupied(s0, p, p.live)
    ensures s0.Present(p.dest) ==> u.Holds(p.aside, c)
  {
    hide CanonicalPath;
    assert SamePath(p.dest, p.live) || (s0.Present(p.dest) <==> t.Present(p.dest));
    if t.Present(p.dest) {
      assert s0.Present(p.dest);
    }
  }

  /* ---- where it does not hold ---- */

  /** The snapshot being restored may be the disk in the way: when the folder of the second is taken, it
      lies in the stand-in folder, and that is on another volume, filing the replaced disk deletes it. */
  lemma StandInIsDeleted(before: seq<Step>, asked: seq<Answer>, s: State, r: Registration, root: Path, stamp: string,
                         d: Content)
    requires var k := Kept(FolderOf(root, r.guid, stamp + "-1"), r.key.VhdName());
             Restorable(r, k) && s.Holds(k.VhdPath(), d) && s.Present(Aside(r))
    ensures var k := Kept(FolderOf(root, r.guid, stamp + "-1"), r.key.VhdName());
            var p, t := PlacesFor(r, k, root, Some(stamp + "-1")), Effect(s, Remove(k.VhdPath()));
            var copy, clean := Step(CopySparse(p.aside, p.dest), false, s, s), Step(Remove(p.dest), true, s, t);
            && p.dest == p.snap
            && Outcome(s, copy.call, copy.ok, copy.after) && Outcome(s, clean.call, clean.ok, clean.after)
            && Blocked(before, before + [copy, clean], asked, asked + [AskedSameVolume(p.aside, k.dir, false)],
                       s, t, p.aside, k.dir, p.dest)
            && !t.Present(k.VhdPath())
  {
    hide CanonicalPath, Restorable;
  }
}
