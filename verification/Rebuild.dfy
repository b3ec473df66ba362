/** Rebuilding a distribution through an archive (internal/disk/rebuild.go): the disk is destroyed
    half way, and the archive is what it is made again from. */
module Rebuild {
  import opened Text
  import opened Paths
  import opened World
  import opened Trash
  import opened Undelete

  datatype RebuildOutcome =
    | NotBegun                      // nothing exported, nothing changed but perhaps being stopped
    | ExportFailed
    | NoArchive
    | NotUnregistered
    | NotImported
    | NotListed
    | SettingsLost(made: Guid)
    | WouldNotStart(made: Guid)
    | ArchiveLeft(made: Guid)       // rebuilt, but the archive could not be deleted
    | Rebuilt(made: Guid)

  /** Past a successful export that left an archive. */
  predicate Exported(o: RebuildOutcome) {
    !o.NotBegun? && !o.ExportFailed? && !o.NoArchive?
  }

  predicate Works(o: RebuildOutcome) {
    o.Rebuilt? || o.ArchiveLeft?
  }

  /** A start worked while some registration named a disk with these contents. */
  ghost predicate StartedOn(step: Step, token: nat) {
    step.call.Start? && step.ok && exists g :: step.before.Resolves(g, Disk(token))
  }

  ghost predicate Tried(trace: seq<Step>, n: nat, token: nat) {
    exists i :: n <= i < |trace| && StartedOn(trace[i], token)
  }

  /** The guest's files exist somewhere: in the first disk, in the export, or in a disk that was started. */
  ghost predicate HasCopy(s: State, source: Path, archive: Path, token: nat) {
    || s.Holds(source, Disk(token))
    || s.Holds(archive, Archive(token))
    || exists g :: s.Resolves(g, Disk(token))
  }

  /** In every state there is a copy; unregistering happens only with the archive there; and from
      then on the archive goes only after a start has worked on the imported disk. */
  ghost predicate SafeRun(trace: seq<Step>, n: nat, source: Path, archive: Path, token: nat) {
    && (forall i :: n <= i < |trace| ==> HasCopy(trace[i].after, source, archive, token))
    && (forall i :: n <= i < |trace| && trace[i].call.Unregister? ==> trace[i].before.Holds(archive, Archive(token)))
    && (forall i, j :: n <= i <= j < |trace| && trace[i].call.Unregister? ==>
          trace[j].after.Holds(archive, Archive(token)) || StartedBetween(trace, i, j, token))
  }

  ghost predicate StartedBetween(trace: seq<Step>, i: nat, j: nat, token: nat)
    requires j <= |trace|
  {
    exists k :: i < k < j && StartedOn(trace[k], token)
  }

  /** The distribution as it was: same name, same files, same default user and flags. */
  ghost predicate Preserved(s: State, g: Guid, r: Registration, token: nat) {
    && s.Resolves(g, Disk(token))
    && s.keys[g].Name() == r.key.Name()
    && s.keys[g].Num(DefaultUid) == r.key.Num(DefaultUid)
    && s.keys[g].Num(Flags) == r.key.Num(Flags)
  }

  /** What each return leaves; `sure` says that the archive was there when it was said to be. */
  ghost predicate RebuildLeaves(o: RebuildOutcome, archiveKept: bool, s0: State, s: State, r: Registration,
                                archive: Path, keepArchive: bool, token: nat, sure: bool)
  {
    && (!Exported(o) || o.NotUnregistered? ==> s.keys == s0.keys && s.Holds(r.key.VhdPath(), Disk(token)))
    && (Exported(o) && sure ==> (archiveKept <==> s.Holds(archive, Archive(token))))
    && (Works(o) && sure ==>
          && Preserved(s, o.made, r, token)
          && (s0.default == Some(r.guid) ==> s.default == Some(o.made))
          && (archiveKept <==> keepArchive || o.ArchiveLeft?))
  }

  /** The file system said of an archive that was not there that it was. */
  ghost predicate Misled(answers: seq<Answer>, k: nat, archive: Path) {
    exists i :: k <= i < |answers| && answers[i].AskedExists? && answers[i].path == archive
                && answers[i].there && !answers[i].present
  }

  /** Step `i` was taken after an export that claimed success and the answer that its archive exists. */
  ghost predicate Asked(trace: seq<Step>, n: nat, answers: seq<Answer>, k: nat, i: nat, name: string, archive: Path) {
    exists a, x :: k <= a < |answers| && n <= x < i <= |trace|
                   && answers[a].AskedExists? && answers[a].path == archive && answers[a].there
                   && x < answers[a].at <= i && trace[x].call == Export(name, archive) && trace[x].ok
  }

  /** Unregistering is never called without having asked. */
  ghost predicate AsksFirst(trace: seq<Step>, n: nat, answers: seq<Answer>, k: nat, name: string, archive: Path) {
    forall i :: n <= i < |trace| && trace[i].call.Unregister? ==> Asked(trace, n, answers, k, i, name, archive)
  }

  /** An export claimed success and left no archive. */
  ghost predicate HollowExport(trace: seq<Step>, n: nat, name: string, archive: Path) {
    exists i :: n <= i < |trace| && trace[i].call == Export(name, archive) && trace[i].ok
                && !trace[i].after.Present(archive)
  }

  /** The call a run stops at, and what it still does then: a failed export is cleaned up, and what was
      not running before is stopped again. */
  ghost predicate Stops(o: RebuildOutcome, trace: seq<Step>, name: string, archive: Path, stopAgain: bool) {
    |trace| > 0 && var last := trace[|trace| - 1];
    match o
    case NotBegun => true
    case ExportFailed =>
      && |trace| > 1 && trace[|trace| - 2].call == Export(name, archive) && !trace[|trace| - 2].ok
      && last.call == Remove(archive)
    case NoArchive => last.call == Export(name, archive) && last.ok
    case NotUnregistered => last.call == Unregister(name) && !last.ok
    case NotImported => last.call.ImportTar? && last.call.tar == archive && !last.ok
    case NotListed => last.call.ImportTar? && last.ok
    case SettingsLost(_) => true
    case WouldNotStart(_) => last.call == Start(name) && !last.ok
    case ArchiveLeft(_) => last.call == Remove(archive) && !last.ok
    case Rebuilt(_) => stopAgain ==> last.call == Terminate(name)
  }

  /* ---- every call of a run, by how it ended ---- */

  function TidyCalls(o: RebuildOutcome, r: Registration, archive: Path, keepArchive: bool, stopAgain: bool): seq<Call> {
    (if keepArchive then [] else [Remove(archive)])
    + if o.Rebuilt? && stopAgain then [Terminate(r.key.Name())] else []
  }

  function TryCalls(o: RebuildOutcome, r: Registration, archive: Path, keepArchive: bool, stopAgain: bool): seq<Call> {
    if o.WouldNotStart? then [Start(r.key.Name())]
    else [Start(r.key.Name())] + TidyCalls(o, r, archive, keepArchive, stopAgain)
  }

  function SettleCalls(o: RebuildOutcome, g: Guid, man: Manifest, r: Registration, archive: Path, keepArchive: bool,
                       stopAgain: bool): seq<Call>
  {
    if o.SettingsLost? then SettingCalls(g, man)
    else SettingCalls(g, man) + TryCalls(o, r, archive, keepArchive, stopAgain)
  }

  /** The import goes to the folder the registration named, and is made once. */
  function MakeCalls(o: RebuildOutcome, man: Manifest, r: Registration, archive: Path, keepArchive: bool,
                     stopAgain: bool): seq<Call>
  {
    var make := ImportTar(r.key.Name(), r.key.Str(BasePath), archive);
    if Remade(o) then [make] + SettleCalls(o, o.made, man, r, archive, keepArchive, stopAgain) else [make]
  }

  /** The imported registration was found. */
  predicate Remade(o: RebuildOutcome) {
    o.SettingsLost? || o.WouldNotStart? || Works(o)
  }

  function ReplaceCalls(o: RebuildOutcome, man: Manifest, r: Registration, archive: Path, keepArchive: bool,
                        stopAgain: bool): seq<Call>
  {
    if o.NotUnregistered? then [Unregister(r.key.Name())]
    else [Unregister(r.key.Name())] + MakeCalls(o, man, r, archive, keepArchive, stopAgain)
  }

  function ExportCalls(o: RebuildOutcome, man: Manifest, r: Registration, archive: Path, keepArchive: bool,
                       stopAgain: bool): seq<Call>
  {
    if o.ExportFailed? then [Export(r.key.Name(), archive), Remove(archive)]
    else if o.NoArchive? then [Export(r.key.Name(), archive)]
    else [Export(r.key.Name(), archive)] + ReplaceCalls(o, man, r, archive, keepArchive, stopAgain)
  }

  /** A new key was made by an import that worked, and what was listed then decides whether the run went on. */
  ghost predicate FoundOrNot(o: RebuildOutcome, trace: seq<Step>, i: nat, listings: seq<Listing>)
    requires i < |trace|
  {
    && trace[i].call.ImportTar? && trace[i].ok
    && |listings| == 1 && (o.NotListed? <==> !ListsNew(listings[0], trace[i]))
  }

  ghost predicate ListedFor(o: RebuildOutcome, trace: seq<Step>, n: nat, listings: seq<Listing>) {
    if o.NotListed? || Remade(o) then exists i: nat :: n <= i < |trace| && FoundOrNot(o, trace, i, listings)
    else listings == []
  }

  method Rebuild(w: Machine, r: Registration, archive: Path, keepArchive: bool, restart: bool, runningBefore: bool,
                 ghost token: nat)
    returns (o: RebuildOutcome, archiveKept: bool)
    requires w.st.Registered(r) && SoleName(w.st, r) && HoldsDwords(r.key)
    requires r.key.VhdPath() != "" && r.key.Name() != "" && w.st.Holds(r.key.VhdPath(), Disk(token))
    requires !w.st.Present(archive)
    modifies w`st, w`trace, w`answers, w`refusals, w`listings, w`folders
    ensures old(w.trace) <= w.trace && old(w.answers) <= w.answers
    ensures AsksFirst(w.trace, |old(w.trace)|, w.answers, |old(w.answers)|, r.key.Name(), archive)
    // Safe, unless the file system claims an archive that a hollow export did not make, and only then not.
    ensures SafeRun(w.trace, |old(w.trace)|, r.key.VhdPath(), archive, token)
            <==> !Misled(w.answers, |old(w.answers)|, archive)
    ensures Misled(w.answers, |old(w.answers)|, archive) ==>
              HollowExport(w.trace, |old(w.trace)|, r.key.Name(), archive)
    ensures !Misled(w.answers, |old(w.answers)|, archive) && Works(o) ==> Tried(w.trace, |old(w.trace)|, token)
    ensures RebuildLeaves(o, archiveKept, old(w.st), w.st, r, archive, keepArchive, token,
                          !Misled(w.answers, |old(w.answers)|, archive))
    // Every call it makes, by how it ends; a registration the import made is found if it is listed.
    ensures var man := Manifest(old(w.st).default.Some? && EqualFold(old(w.st).default.value, r.guid), r, [],
                                BaseOf(r.key.VhdPath()));
            var stop := if runningBefore then [Terminate(r.key.Name())] else [];
            if o.NotBegun?
            then Made(w.trace, |old(w.trace)|, []) || Made(w.trace, |old(w.trace)|, stop)
            else Made(w.trace, |old(w.trace)|,
                      stop + ExportCalls(o, man, r, archive, keepArchive, !restart || !runningBefore))
    ensures old(w.listings) <= w.listings && ListedFor(o, w.trace, |old(w.trace)|, w.listings[|old(w.listings)|..])
    ensures var dir := DirOf(archive);
            || (o.NotBegun? && w.folders == old(w.folders))
            || (o.NotBegun? && w.folders == old(w.folders) + [Folder(dir, false)])
            || (!o.NotBegun? && w.folders == old(w.folders) + [Folder(dir, true)])
    // It stops for a reason, and where it says.
    ensures w.refusals >= old(w.refusals)
    ensures !o.NotBegun? ==> Stops(o, w.trace, r.key.Name(), archive, !restart || !runningBefore)
    ensures o.NoArchive? ==>
              |w.answers| > 0 && w.answers[|w.answers| - 1].AskedExists? && !w.answers[|w.answers| - 1].there
    ensures || o.Rebuilt? || o.NoArchive? || o.NotListed?
            || w.refusals > old(w.refusals) || !AllWorked(w.trace, |old(w.trace)|)
  {
    hide CanonicalPath, EqualFold, Effect, Enabled, DirOf, BaseOf, Stops, AllWorked, ListedFor;
    hide AsksFirst, SafeRun, Misled, HollowExport, RebuildLeaves, Tried, Made, ExportCalls;
    archiveKept, o := false, NotBegun;
    ghost var n := |w.trace|;
    var ready, wasDefault := Prepare(w, r, archive, runningBefore);
    var man := Manifest(wasDefault, r, [], BaseOf(r.key.VhdPath()));
    ghost var trace := w.trace;
    NothingListedFor(o, w.trace, n);
    assert w.listings[|old(w.listings)|..] == [];
    NothingAsked(w.trace, n, w.answers, r.key.Name(), archive);
    NothingDone(o, w.trace, n, old(w.st), w.st, r, archive, keepArchive, token);
    if ready {
      o, archiveKept := ExportFirst(w, r, man, archive, keepArchive, restart, runningBefore, token, n);
      WorkedOn(trace, w.trace, n);
      MadeJoin(old(w.trace), trace, w.trace, if runningBefore then [Terminate(r.key.Name())] else [],
               ExportCalls(o, man, r, archive, keepArchive, !restart || !runningBefore));
      ListedSince(o, w.trace, n, |trace|, w.listings[|old(w.listings)|..]);
    }
  }

  /** What is to be known, stopped and made before anything is exported. */
  method Prepare(w: Machine, r: Registration, archive: Path, runningBefore: bool)
    returns (ready: bool, wasDefault: bool)
    modifies w`st, w`trace, w`refusals, w`folders
    ensures old(w.trace) <= w.trace && w.st == old(w.st) && w.refusals >= old(w.refusals)
    ensures forall i :: |old(w.trace)| <= i < |w.trace| ==>
              w.trace[i].after == w.st && !w.trace[i].call.Unregister?
    ensures var stop := if runningBefore then [Terminate(r.key.Name())] else [];
            Made(w.trace, |old(w.trace)|, stop) || (!ready && Made(w.trace, |old(w.trace)|, []))
    ensures ready <==> w.refusals == old(w.refusals) && AllWorked(w.trace, |old(w.trace)|)
    ensures ready ==> wasDefault == (w.st.default.Some? && EqualFold(w.st.default.value, r.guid))
    ensures var dir := DirOf(archive);
            || (!ready && w.folders == old(w.folders))
            || w.folders == old(w.folders) + [Folder(dir, ready)]
  {
    hide EqualFold, DirOf, AllWorked, Made;
    MadeNone(w.trace);
    NoneFailed(w.trace);
    var def;
    ready, def := w.DefaultDistribution();
    wasDefault := def.Some? && EqualFold(def.value, r.guid);
    if ready && runningBefore {
      ready := w.Do(Terminate(r.key.Name()));
      WorkedSnoc(old(w.trace), w.trace, |old(w.trace)|);
      MadeOne(old(w.trace), w.trace, Terminate(r.key.Name()));
    }
    if ready {
      ready := w.MkdirAll(DirOf(archive));
    }
  }

  lemma NothingListedFor(o: RebuildOutcome, trace: seq<Step>, n: nat)
    requires !o.NotListed? && !Remade(o)
    ensures ListedFor(o, trace, n, [])
  {
  }

  lemma MadeNone(trace: seq<Step>)
    ensures Made(trace, |trace|, [])
  {
  }

  lemma ListedSince(o: RebuildOutcome, trace: seq<Step>, n: nat, m: nat, listings: seq<Listing>)
    requires ListedFor(o, trace, m, listings) && n <= m
    ensures ListedFor(o, trace, n, listings)
  {
    hide FoundOrNot;
  }

  lemma NothingAsked(trace: seq<Step>, n: nat, answers: seq<Answer>, name: string, archive: Path)
    requires forall i :: n <= i < |trace| ==> !trace[i].call.Unregister?
    ensures AsksFirst(trace, n, answers, |answers|, name, archive) && !Misled(answers, |answers|, archive)
  {
  }

  /** Nothing is destroyed before there is an archive to make it again from. */
  method ExportFirst(w: Machine, r: Registration, man: Manifest, archive: Path, keepArchive: bool, restart: bool,
                     runningBefore: bool, ghost token: nat, ghost n: nat)
    returns (o: RebuildOutcome, archiveKept: bool)
    requires w.st.Registered(r) && SoleName(w.st, r) && HoldsDwords(r.key)
    requires r.key.VhdPath() != "" && r.key.Name() != "" && w.st.Holds(r.key.VhdPath(), Disk(token))
    requires !w.st.Present(archive) && Remembers(man, w.st, r)
    requires n <= |w.trace| && Before(w.trace, n, r.key.VhdPath(), archive, token)
    modifies w`st, w`trace, w`answers, w`refusals, w`listings
    ensures old(w.trace) <= w.trace && old(w.answers) <= w.answers
    ensures AsksFirst(w.trace, n, w.answers, |old(w.answers)|, r.key.Name(), archive)
    ensures SafeRun(w.trace, n, r.key.VhdPath(), archive, token) <==> !Misled(w.answers, |old(w.answers)|, archive)
    ensures Misled(w.answers, |old(w.answers)|, archive) ==> HollowExport(w.trace, n, r.key.Name(), archive)
    ensures !Misled(w.answers, |old(w.answers)|, archive) && Works(o) ==> Tried(w.trace, n, token)
    ensures RebuildLeaves(o, archiveKept, old(w.st), w.st, r, archive, keepArchive, token,
                          !Misled(w.answers, |old(w.answers)|, archive))
    ensures w.refusals >= old(w.refusals) && !o.NotBegun?
    ensures Stops(o, w.trace, r.key.Name(), archive, !restart || !runningBefore)
    ensures |w.answers| > 0 || !o.NoArchive?
    ensures o.NoArchive? ==> w.answers[|w.answers| - 1].AskedExists? && !w.answers[|w.answers| - 1].there
    ensures Made(w.trace, |old(w.trace)|, ExportCalls(o, man, r, archive, keepArchive, !restart || !runningBefore))
    ensures old(w.listings) <= w.listings && ListedFor(o, w.trace, |old(w.trace)|, w.listings[|old(w.listings)|..])
    ensures o.Rebuilt? || o.NoArchive? || o.NotListed? || !AllWorked(w.trace, |old(w.trace)|)
  {
    hide CanonicalPath, EqualFold, Effect, Enabled, HoldsDwords, SoleName, Remembers, SafeRun, RebuildLeaves, Tried;
    hide Made, ReplaceCalls, ListedFor, Misled, HollowExport, AsksFirst, Before, AllWorked;
    archiveKept, o := false, ExportFailed;
    ghost var s0, trace := w.st, w.trace;
    var exported := ExportOnce(w, r, archive, token, n);
    ghost var run := w.trace;
    NothingListedFor(o, run, |trace|);
    assert w.listings[|old(w.listings)|..] == [];
    BeforeMeans(run, n, r.key.VhdPath(), archive, token);
    NothingAsked(run, n, w.answers, r.key.Name(), archive);
    NothingDone(o, run, n, s0, w.st, r, archive, keepArchive, token);
    if exported {
      o, archiveKept := ReplaceIfThere(w, r, man, archive, keepArchive, restart, runningBefore, token, s0, n);
      MadeJoin(trace, run, w.trace, [Export(r.key.Name(), archive)],
               if o.NoArchive? then []
               else ReplaceCalls(o, man, r, archive, keepArchive, !restart || !runningBefore));
      assert [Export(r.key.Name(), archive)] + [] == [Export(r.key.Name(), archive)];
      ListedSince(o, w.trace, |trace|, |run|, w.listings[|old(w.listings)|..]);
      WorkedOn(run, w.trace, |trace|);
    }
  }

  /** The export; a failed one is cleaned up. */
  method ExportOnce(w: Machine, r: Registration, archive: Path, ghost token: nat, ghost n: nat) returns (ok: bool)
    requires w.st.Registered(r) && SoleName(w.st, r) && r.key.VhdPath() != ""
    requires w.st.Holds(r.key.VhdPath(), Disk(token)) && !w.st.Present(archive)
    requires n <= |w.trace| && Before(w.trace, n, r.key.VhdPath(), archive, token)
    modifies w`st, w`trace
    ensures old(w.trace) < w.trace && Before(w.trace, n, r.key.VhdPath(), archive, token)
    ensures w.st.keys == old(w.st).keys
    ensures w.st.Holds(r.key.VhdPath(), Disk(token)) && !SamePath(archive, r.key.VhdPath())
    ensures Made(w.trace, |old(w.trace)|,
                 if ok then [Export(r.key.Name(), archive)] else [Export(r.key.Name(), archive), Remove(archive)])
    ensures !ok ==>
              && !AllWorked(w.trace, |old(w.trace)|)
              && forall stopAgain :: Stops(ExportFailed, w.trace, r.key.Name(), archive, stopAgain)
    ensures ok ==>
              && w.trace == old(w.trace) + [Step(Export(r.key.Name(), archive), true, old(w.st), w.st)]
              && w.st.default == old(w.st).default && (w.st.Present(archive) ==> w.st.Holds(archive, Archive(token)))
  {
    hide CanonicalPath, EqualFold, Effect, Enabled, SoleName;
    ghost var s0, k := w.st, |w.trace|;
    ok := w.Do(Export(r.key.Name(), archive));
    Exporting(s0, w.st, r, archive, token, ok);
    if !ok {
      var cleaned := w.Do(Remove(archive));
      assert !w.trace[k].ok;
    }
  }

  lemma BeforeMeans(trace: seq<Step>, n: nat, source: Path, archive: Path, token: nat)
    requires Before(trace, n, source, archive, token)
    ensures forall i :: n <= i < |trace| ==> !trace[i].call.Unregister?
  {
  }

  /** After an export that claimed success: the archive is asked for, and nothing goes on without it. */
  method ReplaceIfThere(w: Machine, r: Registration, man: Manifest, archive: Path, keepArchive: bool, restart: bool,
                        runningBefore: bool, ghost token: nat, ghost s0: State, ghost n: nat)
    returns (o: RebuildOutcome, archiveKept: bool)
    requires s0.Registered(r) && SoleName(s0, r) && HoldsDwords(r.key) && Remembers(man, s0, r)
    requires r.key.VhdPath() != "" && r.key.Name() != "" && !SamePath(archive, r.key.VhdPath())
    requires w.st.keys == s0.keys && w.st.default == s0.default && w.st.Holds(r.key.VhdPath(), Disk(token))
    requires w.st.Present(archive) ==> w.st.Holds(archive, Archive(token))
    requires n < |w.trace| && Before(w.trace, n, r.key.VhdPath(), archive, token)
    requires var last := w.trace[|w.trace| - 1];
             last.call == Export(r.key.Name(), archive) && last.ok && last.after == w.st
    modifies w`st, w`trace, w`answers, w`refusals, w`listings
    ensures old(w.trace) <= w.trace && old(w.answers) <= w.answers
    ensures AsksFirst(w.trace, n, w.answers, |old(w.answers)|, r.key.Name(), archive)
    ensures SafeRun(w.trace, n, r.key.VhdPath(), archive, token) <==> !Misled(w.answers, |old(w.answers)|, archive)
    ensures Misled(w.answers, |old(w.answers)|, archive) ==> HollowExport(w.trace, n, r.key.Name(), archive)
    ensures !Misled(w.answers, |old(w.answers)|, archive) && Works(o) ==> Tried(w.trace, n, token)
    ensures RebuildLeaves(o, archiveKept, s0, w.st, r, archive, keepArchive, token,
                          !Misled(w.answers, |old(w.answers)|, archive))
    ensures w.refusals >= old(w.refusals) && (o.NoArchive? || Exported(o))
    ensures Stops(o, w.trace, r.key.Name(), archive, !restart || !runningBefore)
    ensures |w.answers| > 0 && w.answers[|w.answers| - 1].AskedExists?
    ensures o.NoArchive? <==> !w.answers[|w.answers| - 1].there
    ensures Made(w.trace, |old(w.trace)|,
                 if o.NoArchive? then []
                 else ReplaceCalls(o, man, r, archive, keepArchive, !restart || !runningBefore))
    ensures old(w.listings) <= w.listings && ListedFor(o, w.trace, |old(w.trace)|, w.listings[|old(w.listings)|..])
    ensures o.Rebuilt? || o.NoArchive? || o.NotListed? || !AllWorked(w.trace, |old(w.trace)|)
  {
    hide CanonicalPath, EqualFold, Effect, Enabled, HoldsDwords, SoleName, Remembers, SafeRun, RebuildLeaves, Tried;
    hide Made, ReplaceCalls, ListedFor, AsksFirst, Misled, HollowExport, AllWorked;
    archiveKept, o := false, NoArchive;
    ghost var trace, k := w.trace, |w.answers|;
    MadeNone(w.trace);
    NothingListedFor(o, w.trace, |trace|);
    assert w.listings[|old(w.listings)|..] == [];
    NothingDone(o, w.trace, n, s0, w.st, r, archive, keepArchive, token);
    var there := w.Exists(archive);
    OnlyAnswer(w.answers, k, archive, trace, n, r.key.Name());
    if there {
      o, archiveKept := Replace(w, r, man, archive, keepArchive, restart, runningBefore, token, s0, n,
                                w.st.Present(archive));
      assert w.trace[|trace| - 1] == trace[|trace| - 1];
      HollowMore(trace, w.trace, n, r.key.Name(), archive);
      AskedBefore(w.trace, n, w.answers, k, |trace| - 1, r.key.Name(), archive);
    }
  }

  /** With one answer only, it is what misleads; then the export was hollow. */
  lemma OnlyAnswer(answers: seq<Answer>, k: nat, archive: Path, trace: seq<Step>, n: nat, name: string)
    requires n < |trace| && |answers| == k + 1 && answers[k].AskedExists? && answers[k].path == archive
    requires var last := trace[|trace| - 1];
             last.call == Export(name, archive) && last.ok && answers[k].present == last.after.Present(archive)
    requires forall i :: n <= i < |trace| ==> !trace[i].call.Unregister?
    ensures Misled(answers, k, archive) <==> answers[k].there && !answers[k].present
    ensures Misled(answers, k, archive) ==> HollowExport(trace, n, name, archive)
    ensures AsksFirst(trace, n, answers, k, name, archive)
  {
  }

  lemma HollowMore(trace: seq<Step>, more: seq<Step>, n: nat, name: string, archive: Path)
    requires trace <= more
    ensures HollowExport(trace, n, name, archive) ==> HollowExport(more, n, name, archive)
  {
    if HollowExport(trace, n, name, archive) {
      var i :| n <= i < |trace| && trace[i].call == Export(name, archive) && trace[i].ok
               && !trace[i].after.Present(archive);
      assert more[i] == trace[i];
    }
  }

  /** Before unregistering, a run is safe and leaves what there was. */
  lemma NothingDone(o: RebuildOutcome, trace: seq<Step>, n: nat, s0: State, s: State, r: Registration, archive: Path,
                    keepArchive: bool, token: nat)
    requires Before(trace, n, r.key.VhdPath(), archive, token) && !Exported(o)
    requires s.keys == s0.keys && s.Holds(r.key.VhdPath(), Disk(token))
    ensures SafeRun(trace, n, r.key.VhdPath(), archive, token)
    ensures RebuildLeaves(o, false, s0, s, r, archive, keepArchive, token, true)
  {
  }

  /** The export is step `x`, the answer is the only one, and every unregistering comes later. */
  lemma AskedBefore(trace: seq<Step>, n: nat, answers: seq<Answer>, k: nat, x: nat, name: string, archive: Path)
    requires n <= x < |trace| && k < |answers| && trace[x].call == Export(name, archive) && trace[x].ok
    requires answers[k].AskedExists? && answers[k].path == archive && answers[k].there && answers[k].at == x + 1
    requires forall i :: n <= i <= x ==> !trace[i].call.Unregister?
    ensures AsksFirst(trace, n, answers, k, name, archive)
  {
    forall i | n <= i < |trace| && trace[i].call.Unregister? ensures Asked(trace, n, answers, k, i, name, archive) {
      assert x < answers[k].at <= i;
    }
  }

  /** Unregistering without the archive takes the last copy, where the disk is nowhere else. */
  lemma NoArchiveNoCopy(s: State, t: State, r: Registration, archive: Path, token: nat)
    requires s.Registered(r) && SoleName(s, r) && r.key.VhdPath() != "" && Unregisters(s, r.guid, r.key.Name(), t)
    requires !s.Present(archive)
    requires forall f :: f in s.files && s.files[f] == Disk(token) ==> f == CanonicalPath(r.key.VhdPath())
    ensures !HasCopy(t, r.key.VhdPath(), archive, token)
  {
    hide CanonicalPath;
  }

  /** The manifest says what the import will not carry over. */
  ghost predicate Remembers(m: Manifest, s0: State, r: Registration) {
    m.registration == r && m.wasDefault == (s0.default.Some? && EqualFold(s0.default.value, r.guid))
  }

  /** What an export leaves, by its answer. */
  lemma Exporting(s0: State, t: State, r: Registration, archive: Path, token: nat, ok: bool)
    requires s0.Registered(r) && SoleName(s0, r) && r.key.VhdPath() != ""
    requires s0.Holds(r.key.VhdPath(), Disk(token)) && !s0.Present(archive)
    requires Outcome(s0, Export(r.key.Name(), archive), ok, t)
    ensures t.keys == s0.keys && t.default == s0.default && t.Holds(r.key.VhdPath(), Disk(token))
    ensures !SamePath(archive, r.key.VhdPath())
    ensures ok && t.Present(archive) ==> t.Holds(archive, Archive(token))
    ensures var u := Effect(t, Remove(archive)); u.keys == s0.keys && u.Holds(r.key.VhdPath(), Disk(token))
  {
    hide CanonicalPath, EqualFold;
    if !ok {
      OnlyFileMeans(s0, t, CanonicalPath(archive));
    } else if t != s0 {
      var g :| g in s0.keys && Exports(s0, g, r.key.Name(), archive, t);
      assert g == r.guid;
    }
  }

  /** From the point of no return on. */
  method Replace(w: Machine, r: Registration, man: Manifest, archive: Path, keepArchive: bool, restart: bool,
                 runningBefore: bool, ghost token: nat, ghost s0: State, ghost n: nat, ghost sure: bool)
    returns (o: RebuildOutcome, archiveKept: bool)
    requires s0.Registered(r) && SoleName(s0, r) && HoldsDwords(r.key) && Remembers(man, s0, r)
    requires r.key.VhdPath() != "" && r.key.Name() != "" && !SamePath(archive, r.key.VhdPath())
    requires w.st.keys == s0.keys && w.st.default == s0.default && w.st.Holds(r.key.VhdPath(), Disk(token))
    requires if sure then w.st.Holds(archive, Archive(token)) else !w.st.Present(archive)
    requires n <= |w.trace| && Before(w.trace, n, r.key.VhdPath(), archive, token)
    modifies w`st, w`trace, w`refusals, w`listings
    ensures old(w.trace) <= w.trace
    ensures SafeRun(w.trace, n, r.key.VhdPath(), archive, token) <==> sure
    ensures sure && Works(o) ==> Tried(w.trace, n, token)
    ensures Exported(o) && RebuildLeaves(o, archiveKept, s0, w.st, r, archive, keepArchive, token, sure)
    ensures w.refusals >= old(w.refusals) && Stops(o, w.trace, r.key.Name(), archive, !restart || !runningBefore)
    ensures Made(w.trace, |old(w.trace)|, ReplaceCalls(o, man, r, archive, keepArchive, !restart || !runningBefore))
    ensures old(w.listings) <= w.listings && ListedFor(o, w.trace, |old(w.trace)|, w.listings[|old(w.listings)|..])
    ensures o.Rebuilt? || o.NotListed? || !AllWorked(w.trace, |old(w.trace)|)
  {
    hide CanonicalPath, EqualFold, Effect, Enabled, HoldsDwords, Remembers, Made, MakeCalls, ListedFor;
    archiveKept := true;
    ghost var s, u, trace := w.st, |w.trace|, w.trace;
    var gone := w.Do(Unregister(r.key.Name()));
    assert w.trace[..u] == trace;
    ghost var run := w.trace;
    MadeOne(trace, run, Unregister(r.key.Name()));
    if !gone {
      o := NotUnregistered;
      NothingListedFor(o, w.trace, u);
      assert w.listings[|old(w.listings)|..] == [];
      if sure {
        UnregisterRefused(w.trace, n, u, r.key.VhdPath(), archive, token);
      }
    } else {
      Destroying(s0, s, w.st, r, archive, token);
      o, archiveKept := MakeAgain(w, r, man, archive, keepArchive, restart, runningBefore, token, s0, n, u, sure);
      MadeJoin(trace, run, w.trace, [Unregister(r.key.Name())],
               MakeCalls(o, man, r, archive, keepArchive, !restart || !runningBefore));
      ListedSince(o, w.trace, u, |run|, w.listings[|old(w.listings)|..]);
    }
    if !sure {
      assert w.trace[u].call.Unregister? && w.trace[u].before == s;
    }
  }

  /* ---- the run, in phases ---- */

  /** Up to the point of no return. */
  ghost predicate Before(trace: seq<Step>, n: nat, source: Path, archive: Path, token: nat) {
    forall i :: n <= i < |trace| ==> HasCopy(trace[i].after, source, archive, token) && !trace[i].call.Unregister?
  }

  /** From unregistering, at step `u`, with the archive as the only certain copy. */
  ghost predicate OnArchive(trace: seq<Step>, n: nat, u: nat, source: Path, archive: Path, token: nat) {
    && n <= u < |trace| && Before(trace[..u], n, source, archive, token)
    && trace[u].call.Unregister? && trace[u].before.Holds(archive, Archive(token))
    && forall i :: u <= i < |trace| ==>
         trace[i].after.Holds(archive, Archive(token)) && (i > u ==> !trace[i].call.Unregister?)
  }

  lemma OnArchiveSteps(trace: seq<Step>, n: nat, u: nat, source: Path, archive: Path, token: nat)
    requires OnArchive(trace, n, u, source, archive, token)
    ensures forall i :: n <= i < |trace| ==>
              HasCopy(trace[i].after, source, archive, token) && (trace[i].call.Unregister? ==> i == u)
  {
    hide CanonicalPath;
    forall i | n <= i < |trace|
      ensures HasCopy(trace[i].after, source, archive, token)
      ensures trace[i].call.Unregister? ==> i == u
    {
      if i < u {
        assert trace[i] == trace[..u][i];
      }
    }
  }

  lemma OnArchiveIsSafe(trace: seq<Step>, n: nat, u: nat, source: Path, archive: Path, token: nat)
    requires OnArchive(trace, n, u, source, archive, token)
    ensures SafeRun(trace, n, source, archive, token)
  {
    hide CanonicalPath, HasCopy, StartedBetween;
    OnArchiveSteps(trace, n, u, source, archive, token);
  }

  /** More steps, with the archive still there. */
  lemma OnArchiveMore(trace: seq<Step>, more: seq<Step>, n: nat, u: nat, source: Path, archive: Path, token: nat)
    requires OnArchive(trace, n, u, source, archive, token) && trace <= more
    requires forall i :: |trace| <= i < |more| ==>
               more[i].after.Holds(archive, Archive(token)) && !more[i].call.Unregister?
    ensures OnArchive(more, n, u, source, archive, token)
  {
    assert more[..u] == trace[..u];
    forall i | u <= i < |more|
      ensures more[i].after.Holds(archive, Archive(token)) && (i > u ==> !more[i].call.Unregister?)
    {
      if i < |trace| {
        assert more[i] == trace[i];
      }
    }
  }

  /** Steps after a start that worked on the imported disk. */
  lemma StartedIsSafe(trace: seq<Step>, tail: seq<Step>, n: nat, u: nat, source: Path, archive: Path, token: nat)
    requires OnArchive(trace, n, u, source, archive, token)
    requires u < |trace| - 1 && StartedOn(trace[|trace| - 1], token)
    requires forall i :: 0 <= i < |tail| ==> HasCopy(tail[i].after, source, archive, token) && !tail[i].call.Unregister?
    ensures SafeRun(trace + tail, n, source, archive, token)
  {
    hide HasCopy, StartedOn, CanonicalPath;
    OnArchiveSteps(trace, n, u, source, archive, token);
    var all := trace + tail;
    forall i | n <= i < |all|
      ensures HasCopy(all[i].after, source, archive, token)
      ensures all[i].call.Unregister? ==> i == u
    {
      assert all[i] == if i < |trace| then trace[i] else tail[i - |trace|];
    }
    assert all[u] == trace[u];
    forall j | u <= j < |all|
      ensures all[j].after.Holds(archive, Archive(token)) || StartedBetween(all, u, j, token)
    {
      if j < |trace| {
        assert all[j] == trace[j];
      } else {
        assert all[|trace| - 1] == trace[|trace| - 1];
      }
    }
  }

  /** A refused unregister changes nothing. */
  lemma UnregisterRefused(trace: seq<Step>, n: nat, u: nat, source: Path, archive: Path, token: nat)
    requires n <= u == |trace| - 1 && Before(trace[..u], n, source, archive, token)
    requires trace[u].call.Unregister? && trace[u].before == trace[u].after
    requires trace[u].before.Holds(archive, Archive(token))
    ensures SafeRun(trace, n, source, archive, token)
  {
    OnArchiveIsSafe(trace, n, u, source, archive, token);
  }

  /** Unregistering takes the key and the old disk, and leaves the archive. */
  lemma Destroying(s0: State, s: State, t: State, r: Registration, archive: Path, token: nat)
    requires s0.Registered(r) && SoleName(s0, r) && s.keys == s0.keys && s.default == s0.default
    requires !SamePath(archive, r.key.VhdPath())
    requires exists g | g in s.keys :: Unregisters(s, g, r.key.Name(), t)
    ensures t.keys == s0.keys - {r.guid} && NameFree(t, r.key.Name())
    ensures s.Holds(archive, Archive(token)) ==> t.Holds(archive, Archive(token))
  {
    hide CanonicalPath, EqualFold;
    var g :| g in s.keys && Unregisters(s, g, r.key.Name(), t);
    assert Named(s0, g, r.key.Name());
    forall x ensures !Named(t, x, r.key.Name()) {
      assert Named(t, x, r.key.Name()) ==> Named(s0, x, r.key.Name());
    }
  }

  /** The import, and everything it does not carry over. */
  method MakeAgain(w: Machine, r: Registration, man: Manifest, archive: Path, keepArchive: bool, restart: bool,
                   runningBefore: bool, ghost token: nat, ghost s0: State, ghost n: nat, ghost u: nat, ghost sure: bool)
    returns (o: RebuildOutcome, archiveKept: bool)
    requires HoldsDwords(r.key) && Remembers(man, s0, r) && r.key.Name() != ""
    requires NameFree(w.st, r.key.Name())
    requires sure ==> w.st.Holds(archive, Archive(token))
    requires sure ==> OnArchive(w.trace, n, u, r.key.VhdPath(), archive, token)
    requires n <= u <= |w.trace|
    modifies w`st, w`trace, w`refusals, w`listings
    ensures old(w.trace) <= w.trace
    ensures sure ==> SafeRun(w.trace, n, r.key.VhdPath(), archive, token)
    ensures sure && Works(o) ==> Tried(w.trace, n, token)
    ensures Exported(o) && !o.NotUnregistered?
    ensures RebuildLeaves(o, archiveKept, s0, w.st, r, archive, keepArchive, token, sure)
    ensures w.refusals >= old(w.refusals) && Stops(o, w.trace, r.key.Name(), archive, !restart || !runningBefore)
    ensures Made(w.trace, |old(w.trace)|, MakeCalls(o, man, r, archive, keepArchive, !restart || !runningBefore))
    ensures old(w.listings) <= w.listings && ListedFor(o, w.trace, |old(w.trace)|, w.listings[|old(w.listings)|..])
    ensures o.Rebuilt? || o.NotListed? || !AllWorked(w.trace, |old(w.trace)|)
  {
    hide CanonicalPath, EqualFold, Effect, Enabled, HoldsDwords, Remembers, OnArchive, SafeRun, NameFree, AllWorked;
    hide Made, SettleCalls, ListsNew, ListedFor, Imports;
    archiveKept := true;
    ghost var s, trace := w.st, w.trace;
    NoneFailed(w.trace);
    var imported;
    ghost var g;
    imported, g := Import(w, r, archive, token);
    WorkedSnoc(trace, w.trace, |trace|);
    ghost var run := w.trace;
    MadeOne(trace, run, ImportTar(r.key.Name(), r.key.Str(BasePath), archive));
    if sure {
      OnArchiveMore(trace, w.trace, n, u, r.key.VhdPath(), archive, token);
      OnArchiveIsSafe(w.trace, n, u, r.key.VhdPath(), archive, token);
    }
    o := RebuildOutcome.NotImported;
    NothingListedFor(o, w.trace, |trace|);
    assert w.listings[|old(w.listings)|..] == [];
    if imported {
      hide RebuildLeaves, Stops;
      o, archiveKept := FindAgain(w, r, man, archive, keepArchive, restart, runningBefore, token, s0, n, u, sure, s, g);
      WorkedOn(run, w.trace, |trace|);
      MadeJoin(trace, run, w.trace, [ImportTar(r.key.Name(), r.key.Str(BasePath), archive)],
               if o.NotListed? then []
               else SettleCalls(o, g, man, r, archive, keepArchive, !restart || !runningBefore));
      assert [ImportTar(r.key.Name(), r.key.Str(BasePath), archive)] + []
             == [ImportTar(r.key.Name(), r.key.Str(BasePath), archive)];
      assert w.trace[|trace|] == run[|trace|];
      NewIsFresh(w.trace[|trace|], g, r.key.Name(), run[|trace|].after.keys[g].VhdPath(),
                 w.listings[|old(w.listings)|]);
      ListedHere(o, w.trace, |trace|, w.listings[|old(w.listings)|..]);
    }
  }

  /** The one import; `g` is the key it makes, for a new disk with the archive's contents. */
  method Import(w: Machine, r: Registration, archive: Path, ghost token: nat) returns (ok: bool, ghost g: Guid)
    modifies w`st, w`trace
    ensures w.trace == old(w.trace)
                       + [Step(ImportTar(r.key.Name(), r.key.Str(BasePath), archive), ok, old(w.st), w.st)]
    ensures old(w.st).Holds(archive, Archive(token)) ==> w.st.Holds(archive, Archive(token))
    ensures ok ==>
              && g in w.st.keys && Imports(old(w.st), g, r.key.Name(), w.st.keys[g].VhdPath(), w.st)
              && w.st.keys[g].Name() == r.key.Name() && w.st.keys[g].VhdPath() != ""
              && !SamePath(w.st.keys[g].VhdPath(), archive)
              && (old(w.st).Holds(archive, Archive(token)) ==> w.st.Resolves(g, Disk(token)))
  {
    hide CanonicalPath, EqualFold;
    g := "";
    ok := w.Do(ImportTar(r.key.Name(), r.key.Str(BasePath), archive));
    ImportKeeps(old(w.st), w.st, r.key.Name(), r.key.Str(BasePath), archive, token, ok);
    if ok {
      g :| g in w.st.keys && ImportsTar(old(w.st), g, r.key.Name(), archive, w.st);
    }
  }

  lemma ListedHere(o: RebuildOutcome, trace: seq<Step>, i: nat, listings: seq<Listing>)
    requires i < |trace| && FoundOrNot(o, trace, i, listings) && (o.NotListed? || Remade(o))
    ensures ListedFor(o, trace, i, listings)
  {
    hide ListsNew;
  }

  /** With nothing found, what is left is the archive. */
  lemma FoundNothing(s0: State, s: State, r: Registration, archive: Path, keepArchive: bool, token: nat, sure: bool)
    requires sure ==> s.Holds(archive, Archive(token))
    ensures RebuildLeaves(RebuildOutcome.NotListed, true, s0, s, r, archive, keepArchive, token, sure)
  {
  }

  /** The import's registration is found by its name, given its settings back and tried out. */
  method FindAgain(w: Machine, r: Registration, man: Manifest, archive: Path, keepArchive: bool, restart: bool,
                   runningBefore: bool, ghost token: nat, ghost s0: State, ghost n: nat, ghost u: nat, ghost sure: bool,
                   ghost s: State, ghost g: Guid)
    returns (o: RebuildOutcome, archiveKept: bool)
    requires HoldsDwords(r.key) && Remembers(man, s0, r) && r.key.Name() != ""
    requires g in w.st.keys && Imports(s, g, r.key.Name(), w.st.keys[g].VhdPath(), w.st)
    requires NameFree(s, r.key.Name())
    requires w.st.keys[g].VhdPath() != "" && !SamePath(w.st.keys[g].VhdPath(), archive)
    requires sure ==> w.st.Holds(archive, Archive(token)) && w.st.Resolves(g, Disk(token))
    requires sure ==> OnArchive(w.trace, n, u, r.key.VhdPath(), archive, token)
    requires n <= u < |w.trace|
    requires var last := w.trace[|w.trace| - 1]; last.call.ImportTar? && last.call.tar == archive && last.ok
    modifies w`st, w`trace, w`refusals, w`listings
    ensures old(w.trace) <= w.trace
    ensures sure ==> SafeRun(w.trace, n, r.key.VhdPath(), archive, token)
    ensures sure && Works(o) ==> Tried(w.trace, n, token)
    ensures Exported(o) && !o.NotUnregistered?
    ensures RebuildLeaves(o, archiveKept, s0, w.st, r, archive, keepArchive, token, sure)
    ensures w.refusals >= old(w.refusals) && Stops(o, w.trace, r.key.Name(), archive, !restart || !runningBefore)
    ensures o.NotListed? || (Remade(o) && o.made == g)
    ensures Made(w.trace, |old(w.trace)|,
                 if o.NotListed? then []
                 else SettleCalls(o, g, man, r, archive, keepArchive, !restart || !runningBefore))
    ensures old(w.listings) <= w.listings && |w.listings| == |old(w.listings)| + 1
    ensures var l := w.listings[|old(w.listings)|];
            o.NotListed? <==> !(l.answered && exists x | x in l.list :: x.guid == g)
    ensures o.Rebuilt? || o.NotListed? || !AllWorked(w.trace, |old(w.trace)|)
  {
    hide CanonicalPath, EqualFold, Effect, Enabled, HoldsDwords, Remembers, OnArchive, SafeRun, NameFree, AllWorked;
    hide SettleCalls, Resolves, RebuildLeaves;
    archiveKept := true;
    FoundNothing(s0, w.st, r, archive, keepArchive, token, sure);
    if sure {
      OnArchiveIsSafe(w.trace, n, u, r.key.VhdPath(), archive, token);
    }
    var read, list := w.Distros();
    o := RebuildOutcome.NotListed;
    if read {
      var found := Resolve(list, r.key.Name());
      ListedIsFound(s, w.st, g, r.key.Name(), w.st.keys[g].VhdPath(), list, found);
      if found.Found? {
        OnlyTheFresh(s, w.st, g, r.key.Name(), w.st.keys[g].VhdPath(), list, found.registration);
        o, archiveKept := Settle(w, r, man, found.registration.guid, archive, keepArchive, restart, runningBefore,
                                 token, s0, n, u, sure);
      }
    }
  }

  /** A new disk with the archive's contents, beside the archive; or, failing, only additions. */
  lemma ImportKeeps(s: State, t: State, name: string, dir: Path, archive: Path, token: nat, ok: bool)
    requires Outcome(s, ImportTar(name, dir, archive), ok, t)
    ensures s.Holds(archive, Archive(token)) ==> t.Holds(archive, Archive(token))
    ensures forall g | ok && g in t.keys && ImportsTar(s, g, name, archive, t) ::
              && t.keys[g].Name() == name && t.keys[g].VhdPath() != ""
              && !SamePath(t.keys[g].VhdPath(), archive)
              && (s.Holds(archive, Archive(token)) ==> t.Resolves(g, Disk(token)))
              && Imports(s, g, name, t.keys[g].VhdPath(), t)
  {
    hide CanonicalPath;
  }

  method Settle(w: Machine, r: Registration, man: Manifest, g: Guid, archive: Path, keepArchive: bool, restart: bool,
                runningBefore: bool, ghost token: nat, ghost s0: State, ghost n: nat, ghost u: nat, ghost sure: bool)
    returns (o: RebuildOutcome, archiveKept: bool)
    requires HoldsDwords(r.key) && Remembers(man, s0, r)
    requires g in w.st.keys && w.st.keys[g].Name() == r.key.Name() && w.st.keys[g].VhdPath() != ""
    requires !SamePath(w.st.keys[g].VhdPath(), archive)
    requires sure ==> w.st.Holds(archive, Archive(token)) && w.st.Resolves(g, Disk(token))
    requires sure ==> OnArchive(w.trace, n, u, r.key.VhdPath(), archive, token)
    requires n <= u <= |w.trace|
    modifies w`st, w`trace
    ensures old(w.trace) <= w.trace
    ensures sure ==> SafeRun(w.trace, n, r.key.VhdPath(), archive, token)
    ensures sure && Works(o) ==> Tried(w.trace, n, token)
    ensures Exported(o) && !o.NotUnregistered?
    ensures RebuildLeaves(o, archiveKept, s0, w.st, r, archive, keepArchive, token, sure)
    ensures Stops(o, w.trace, r.key.Name(), archive, !restart || !runningBefore)
    ensures Remade(o) && o.made == g
    ensures Made(w.trace, |old(w.trace)|, SettleCalls(o, g, man, r, archive, keepArchive, !restart || !runningBefore))
    ensures o.Rebuilt? || !AllWorked(w.trace, |old(w.trace)|)
  {
    hide CanonicalPath, EqualFold, Effect, Enabled, HoldsDwords, OnArchive, SafeRun, PutBack, Made, TryCalls,
      SettingCalls;
    archiveKept := true;
    ghost var s, trace := w.st, w.trace;
    var settled := RestoreSettings(w, g, man);
    SettingsKeep(s, w.st, g, archive, token);
    ghost var run := w.trace;
    if sure {
      OnArchiveMore(trace, w.trace, n, u, r.key.VhdPath(), archive, token);
      OnArchiveIsSafe(w.trace, n, u, r.key.VhdPath(), archive, token);
    }
    o := RebuildOutcome.SettingsLost(g);
    if settled {
      SettingsComeBack(w.st, g, man, DefaultUid);
      SettingsComeBack(w.st, g, man, Flags);
      FoldsToItself(r.guid);
      o, archiveKept := TryOut(w, r, g, archive, keepArchive, restart, runningBefore, token, s0, n, u, sure);
      MadeJoin(trace, run, w.trace, SettingCalls(g, man),
               TryCalls(o, r, archive, keepArchive, !restart || !runningBefore));
    }
  }

  lemma SettingsKeep(s: State, t: State, g: Guid, archive: Path, token: nat)
    requires OnlyNumbers(s, t, g)
    ensures t.keys[g].Name() == s.keys[g].Name() && t.keys[g].VhdPath() == s.keys[g].VhdPath()
    ensures s.Resolves(g, Disk(token)) ==> t.Resolves(g, Disk(token))
    ensures s.Holds(archive, Archive(token)) ==> t.Holds(archive, Archive(token))
  {
    hide CanonicalPath;
    assert Version !in SETTINGS;
  }

  /** The smoke test; only then may the archive go. */
  method TryOut(w: Machine, r: Registration, g: Guid, archive: Path, keepArchive: bool, restart: bool,
                runningBefore: bool, ghost token: nat, ghost s0: State, ghost n: nat, ghost u: nat, ghost sure: bool)
    returns (o: RebuildOutcome, archiveKept: bool)
    requires g in w.st.keys && w.st.keys[g].VhdPath() != "" && !SamePath(w.st.keys[g].VhdPath(), archive)
    requires sure ==> w.st.Holds(archive, Archive(token)) && Preserved(w.st, g, r, token)
    requires sure && s0.default == Some(r.guid) ==> w.st.default == Some(g)
    requires sure ==> OnArchive(w.trace, n, u, r.key.VhdPath(), archive, token)
    requires n <= u <= |w.trace|
    modifies w`st, w`trace
    ensures old(w.trace) <= w.trace
    ensures sure ==> SafeRun(w.trace, n, r.key.VhdPath(), archive, token)
    ensures sure && Works(o) ==> Tried(w.trace, n, token)
    ensures Exported(o) && !o.NotUnregistered?
    ensures RebuildLeaves(o, archiveKept, s0, w.st, r, archive, keepArchive, token, sure)
    ensures Stops(o, w.trace, r.key.Name(), archive, !restart || !runningBefore)
    ensures o == WouldNotStart(g) || o == Rebuilt(g) || o == ArchiveLeft(g)
    ensures Made(w.trace, |old(w.trace)|, TryCalls(o, r, archive, keepArchive, !restart || !runningBefore))
    ensures o.Rebuilt? || !AllWorked(w.trace, |old(w.trace)|)
  {
    hide CanonicalPath, OnArchive, SafeRun, Enabled, AllWorked, Made, TidyCalls;
    archiveKept := true;
    ghost var before := w.trace;
    var up := w.Do(Start(r.key.Name()));
    ghost var started := w.trace;
    if sure {
      OnArchiveMore(before, started, n, u, r.key.VhdPath(), archive, token);
      OnArchiveIsSafe(started, n, u, r.key.VhdPath(), archive, token);
    }
    WorkedSnoc(before, started, |before|);
    MadeOne(before, started, Start(r.key.Name()));
    if !up {
      o := WouldNotStart(g);
    } else {
      o, archiveKept := TidyUp(w, r, g, archive, keepArchive, !restart || !runningBefore, token);
      WorkedOn(started, w.trace, |before|);
      MadeJoin(before, started, w.trace, [Start(r.key.Name())],
               TidyCalls(o, r, archive, keepArchive, !restart || !runningBefore));
      if sure {
        assert started[|started| - 1].before.Resolves(g, Disk(token));
        assert w.trace[|started| - 1] == started[|started| - 1] && StartedOn(w.trace[|started| - 1], token);
        Tail(before, started, w.trace, n, u, g, r, archive, token);
      }
    }
  }

  /** The archive goes, unless it is wanted, and the distribution is stopped if it was not running. */
  method TidyUp(w: Machine, r: Registration, g: Guid, archive: Path, keepArchive: bool, stopAgain: bool,
                ghost token: nat)
    returns (o: RebuildOutcome, archiveKept: bool)
    requires g in w.st.keys && w.st.keys[g].VhdPath() != "" && !SamePath(w.st.keys[g].VhdPath(), archive)
    requires w.trace != []
    modifies w`st, w`trace
    ensures old(w.trace) <= w.trace
    ensures forall i :: |old(w.trace)| <= i < |w.trace| ==>
              && (old(w.st).Resolves(g, Disk(token)) ==> w.trace[i].after.Resolves(g, Disk(token)))
              && !w.trace[i].call.Unregister?
    ensures o == Rebuilt(g) || o == ArchiveLeft(g)
    ensures Made(w.trace, |old(w.trace)|, TidyCalls(o, r, archive, keepArchive, stopAgain))
    ensures Stops(o, w.trace, r.key.Name(), archive, stopAgain)
    ensures o.Rebuilt? || !AllWorked(w.trace, |old(w.trace)|)
    ensures w.st.keys == old(w.st).keys && w.st.default == old(w.st).default
    ensures archiveKept <==> keepArchive || o.ArchiveLeft?
    ensures if archiveKept then w.st == old(w.st) else !w.st.Present(archive)
    ensures Preserved(old(w.st), g, r, token) ==> Preserved(w.st, g, r, token)
  {
    hide CanonicalPath, Effect, Enabled;
    ghost var n := |w.trace|;
    o, archiveKept := Rebuilt(g), true;
    if !keepArchive {
      Cleaning(w.st, g, r, archive, token);
      var cleaned := w.Do(Remove(archive));
      assert w.trace[n].ok == cleaned;
      archiveKept := !cleaned;
      o := if cleaned then Rebuilt(g) else ArchiveLeft(g);
    }
    if o.Rebuilt? && stopAgain {
      var stopped := w.Do(Terminate(r.key.Name()));
    }
  }

  /** Deleting the archive leaves the imported disk. */
  lemma Cleaning(s: State, g: Guid, r: Registration, archive: Path, token: nat)
    requires g in s.keys && s.keys[g].VhdPath() != "" && !SamePath(s.keys[g].VhdPath(), archive)
    ensures var t := Effect(s, Remove(archive));
            && t.keys == s.keys && t.default == s.default && !t.Present(archive)
            && (Preserved(s, g, r, token) ==> Preserved(t, g, r, token))
            && (s.Resolves(g, Disk(token)) ==> t.Resolves(g, Disk(token)))
  {
    hide CanonicalPath;
  }

  /** The steps after the start: each leaves the imported disk where its registration says. */
  lemma Tail(before: seq<Step>, started: seq<Step>, trace: seq<Step>, n: nat, u: nat, g: Guid, r: Registration,
             archive: Path, token: nat)
    requires OnArchive(before, n, u, r.key.VhdPath(), archive, token)
    requires OnArchive(started, n, u, r.key.VhdPath(), archive, token)
    requires |started| == |before| + 1 && started <= trace
    requires var step := started[|started| - 1]; step.call.Start? && step.ok && step.before.Resolves(g, Disk(token))
    requires forall i :: |started| <= i < |trace| ==>
               trace[i].after.Resolves(g, Disk(token)) && !trace[i].call.Unregister?
    ensures SafeRun(trace, n, r.key.VhdPath(), archive, token)
  {
    var tail := trace[|started|..];
    assert trace == started + tail;
    assert u < |before|;
    hide OnArchive, SafeRun;
    StartedIsSafe(started, tail, n, u, r.key.VhdPath(), archive, token);
  }
}
