/** Moving a distribution's disk (internal/disk/move.go). */
module Move {
  import opened Text
  import opened Paths
  import opened World
  import opened Undo
  import opened Relink
  import opened Wait

  datatype MoveTarget = MoveTarget(dir: Path, path: Path)

  /** Where the disk goes: into another directory, under the name it has. */
  function NewMoveTarget(source: Path, dir: Path): MoveTarget {
    MoveTarget(dir, JoinWindows(dir, BaseOf(source)))
  }

  datatype MoveOutcome =
    | Moved
    | NotStarted                           // no directory, or the rename or copy itself failed
    | RolledBack(wouldNotStart: bool, rolledBack: seq<bool>)  // oldest first: the file, then the registry
    | HeldAtTarget                         // renamed, would not start, and WSL will not let go
    | OriginalLeft                         // moved, but the original could not be deleted

  /** The disk is where it was or where it is going; nothing else has changed. */
  ghost predicate Safe(s0: State, s: State, source: Path, target: Path, g: Guid, c: Content, renamed: bool) {
    && (s.Holds(source, c) || (renamed && s.Holds(target, c)))
    && SameFilesBut(s0, s, {CanonicalPath(source), CanonicalPath(target)})
    && s.keys - {g} == s0.keys - {g} && s.default == s0.default
  }

  lemma SafeEitherWay(s0: State, s: State, source: Path, target: Path, g: Guid, c: Content, renamed: bool)
    requires Safe(s0, s, source, target, g, c, renamed)
    ensures Safe(s0, s, source, target, g, c, true)
  {
  }

  /** A directory the registration can be pointed into. */
  predicate Fits(dir: Path) {
    TrimSeparators(TrimPrefix(dir, EXTENDED)) != "" && Repointable(dir)
  }

  /** The target holds the disk, and the registration names it there, in the form it had. */
  ghost predicate Leads(s: State, r: Registration, t: MoveTarget, c: Content) {
    && s.Holds(t.path, c)
    && r.guid in s.keys && FormKept(r.key.Str(BasePath), t.dir, s.keys[r.guid].Str(BasePath))
    && (Fits(t.dir) ==> s.Resolves(r.guid, c) && SamePath(s.keys[r.guid].VhdPath(), t.path))
  }

  /** From step `n` on, every step left the move safe and none asked for the original's deletion. */
  ghost predicate SafeRun(s0: State, trace: seq<Step>, n: nat, t: MoveTarget, r: Registration,
                          c: Content, renamed: bool)
  {
    forall i :: n <= i < |trace| ==>
      && Safe(s0, trace[i].after, r.key.VhdPath(), t.path, r.guid, c, renamed)
      && !(trace[i].call.Remove? && SamePath(trace[i].call.path, r.key.VhdPath()))
  }

  /** The last step deletes the original, straight after a start that worked while the registration
      named the target and the target had the disk. */
  ghost predicate DeletesOriginal(s0: State, trace: seq<Step>, n: nat, t: MoveTarget, r: Registration, c: Content)
  {
    var k := |trace| - 1;
    && k > n
    && SafeRun(s0, trace[..k], n, t, r, c, false)
    && trace[k - 1].call == Start(r.key.Name()) && trace[k - 1].ok
    && trace[k].call == Remove(r.key.VhdPath())
    && trace[k].before == trace[k - 1].before
    && Leads(trace[k].before, r, t, c)
    && Safe(s0, trace[k].after, r.key.VhdPath(), t.path, r.guid, c, true)
  }

  ghost predicate GoodRun(s0: State, trace: seq<Step>, n: nat, t: MoveTarget, r: Registration,
                          c: Content, renamed: bool, keepSource: bool)
  {
    || SafeRun(s0, trace, n, t, r, c, renamed)
    || (!renamed && !keepSource && DeletesOriginal(s0, trace, n, t, r, c))
  }

  /** Success is claimed only for a distribution that started from the target; a failed start is
      stopped before anything else is called, and then the disk at the target is waited for; and a
      renamed file is moved back only once that disk was seen unlocked. Nothing else is waited for. */
  ghost predicate Tested(o: MoveOutcome, trace: seq<Step>, n: nat, wait: seq<Probe>, passed: int, t: MoveTarget,
                         r: Registration, c: Content, renamed: bool)
  {
    && (o.Moved? || o.OriginalLeft? ==>
          exists i :: n <= i < |trace| && trace[i].call == Start(r.key.Name()) && trace[i].ok
            && Leads(trace[i].before, r, t, c))
    && if o.HeldAtTarget? || (o.RolledBack? && o.wouldNotStart) then
         && wait != []
         && (renamed ==> (o.RolledBack? <==> SeenFree(wait)))
         && exists i :: n <= i < |trace| - 1 && NotUpAt(trace, i, wait, passed, t, r)
       else wait == []
  }

  /** Step `i` is a start that failed, the next one the stop, and then the disk at the target is waited
      for. */
  ghost predicate NotUpAt(trace: seq<Step>, i: nat, wait: seq<Probe>, passed: int, t: MoveTarget, r: Registration)
    requires i + 1 < |trace|
  {
    && trace[i].call == Start(r.key.Name()) && !trace[i].ok
    && trace[i + 1].call == Terminate(r.key.Name())
    && Waits(wait, r.key.Name(), t.path, i + 2, 0, passed, SeenFree(wait))
  }

  lemma TestedNothing(o: MoveOutcome, trace: seq<Step>, n: nat, passed: int, t: MoveTarget, r: Registration, c: Content,
                      renamed: bool)
    requires o.NotStarted? || (o.RolledBack? && !o.wouldNotStart)
    ensures Tested(o, trace, n, [], passed, t, r, c, renamed)
  {
  }

  lemma TestedUp(o: MoveOutcome, trace: seq<Step>, n: nat, i: nat, passed: int, t: MoveTarget, r: Registration,
                 c: Content, renamed: bool)
    requires o.Moved? || o.OriginalLeft?
    requires n <= i < |trace| && trace[i].call == Start(r.key.Name()) && trace[i].ok && Leads(trace[i].before, r, t, c)
    ensures Tested(o, trace, n, [], passed, t, r, c, renamed)
  {
    hide Leads;
  }

  /** What each return leaves behind. */
  ghost predicate Leaves(o: MoveOutcome, s0: State, s: State, t: MoveTarget, r: Registration,
                         c: Content, renamed: bool, keepSource: bool)
  {
    match o
    case Moved =>
      && Leads(s, r, t, c)
      && (if keepSource then s.Holds(r.key.VhdPath(), c) else !s.Present(r.key.VhdPath()))
    case OriginalLeft =>
      && Leads(s, r, t, c) && s.Holds(r.key.VhdPath(), c) && !renamed && !keepSource
    case HeldAtTarget =>
      && Leads(s, r, t, c) && renamed
    case NotStarted =>
      // A copy that failed may have left something at the target.
      s.keys == s0.keys && s.Resolves(r.guid, c) && (renamed ==> s == s0)
    case RolledBack(_, oks) =>
      && oks != [] && (AllOk(oks) ==> s == s0)
      // A copy WSL would not release stays; the registration names the original all the same.
      && (!renamed && AllOk(oks[1..]) ==> s.keys == s0.keys && s.Resolves(r.guid, c))
  }

  function FirstUndo(renamed: bool, t: MoveTarget, r: Registration): Entry {
    Entry(if renamed then Rename(t.path, r.key.VhdPath()) else Remove(t.path), !renamed)
  }

  /** How a run that does not succeed ends: having changed nothing, with the deletion of the original
      refused, or with a rollback of the file and of every value that was written. A copy is not tried
      while WSL holds it. */
  ghost predicate Retreats(o: MoveOutcome, s0: State, trace: seq<Step>, n: nat, wait: seq<Probe>, t: MoveTarget,
                           r: Registration, renamed: bool)
  {
    match o
    case NotStarted => |trace| == n || (|trace| == n + 1 && !trace[n].ok)
    case RolledBack(wouldNotStart, oks) =>
      EndsTakenBack(s0, trace, n, [FirstUndo(renamed, t, r)], r.guid, oks,
                       wouldNotStart && !SeenFree(wait))
    case OriginalLeft => |trace| > n && !trace[|trace| - 1].ok && trace[|trace| - 1].call == Remove(r.key.VhdPath())
    case _ => true
  }

  lemma RetreatsFrom(k: nat, wouldNotStart: bool, oks: seq<bool>, s0: State, trace: seq<Step>, n: nat,
                     wait: seq<Probe>, t: MoveTarget, r: Registration, renamed: bool)
    requires TakenBack(s0, trace, n, k, [FirstUndo(renamed, t, r)], r.guid, oks,
                       wouldNotStart && !SeenFree(wait))
    ensures Retreats(RolledBack(wouldNotStart, oks), s0, trace, n, wait, t, r, renamed)
  {
  }

  /** It succeeds if, and only if, everything works. */
  ghost predicate Succeeds(o: MoveOutcome, trace: seq<Step>, n: nat, refused: bool) {
    && (o.Moved? ==> AllWorked(trace, n))
    && (AllWorked(trace, n) && !refused ==> o.Moved?)
  }

  /** What there is to be undone so far. */
  ghost predicate Stacked(es: seq<Entry>, s: State, s0: State, trace: seq<Step>, n: nat, renamed: bool, t: MoveTarget,
                          r: Registration)
  {
    && r.guid in s0.keys && n <= |trace| && StateAt(s0, trace, n, |trace|) == s
    && Writes(trace[n..]) <= |Reverts(s0, r.guid)|
    && es == [FirstUndo(renamed, t, r)] + Reverts(s0, r.guid)[..Writes(trace[n..])]
  }

  lemma StackedFirst(es: seq<Entry>, s: State, s0: State, before: seq<Step>, after: seq<Step>, renamed: bool,
                     t: MoveTarget, r: Registration)
    requires r.guid in s0.keys && es == [FirstUndo(renamed, t, r)]
    requires |after| == |before| + 1 && before <= after && after[|before|].after == s
    requires !after[|before|].call.WriteString?
    ensures Stacked(es, s, s0, after, |before|, renamed, t, r) && Writes(after[|before|..]) == 0
  {
    WritesSnoc([], after[|before|]);
    assert after[|before|..] == [] + [after[|before|]];
  }

  lemma StackedOn(es: seq<Entry>, s: State, s0: State, before: seq<Step>, after: seq<Step>, n: nat, renamed: bool,
                  t: MoveTarget, r: Registration)
    requires Stacked(es, s, s0, before, n, renamed, t, r)
    requires |after| == |before| + 1 && before <= after
    requires !after[|before|].call.WriteString? && after[|before|].after == s
    ensures Stacked(es, s, s0, after, n, renamed, t, r)
  {
    assert after[n..] == before[n..] + [after[|before|]];
    WritesSnoc(before[n..], after[|before|]);
    hide Writes, Reverts;
  }

  lemma StackedWrites(es: seq<Entry>, s: State, es': seq<Entry>, s': State, s0: State, before: seq<Step>,
                      after: seq<Step>, n: nat, renamed: bool, t: MoveTarget, r: Registration)
    requires Stacked(es, s, s0, before, n, renamed, t, r) && Writes(before[n..]) == 0
    requires before <= after && s.keys == s0.keys && StateAt(s, after, |before|, |after|) == s'
    requires Writes(after[|before|..]) <= |Reverts(s, r.guid)|
    requires es' == es + Reverts(s, r.guid)[..Writes(after[|before|..])]
    ensures Stacked(es', s', s0, after, n, renamed, t, r)
  {
    assert after[n..] == before[n..] + after[|before|..];
    WritesAppend(before[n..], after[|before|..]);
    assert Reverts(s, r.guid) == Reverts(s0, r.guid);
    hide Writes, Reverts;
  }

  method Move(w: Machine, r: Registration, t: MoveTarget, keepSource: bool, ghost c: Content)
    returns (o: MoveOutcome, renamed: bool)
    requires w.st.Registered(r) && r.key.Num(Version) == 2
    requires w.st.Holds(r.key.VhdPath(), c) && BaseOf(r.key.VhdPath()) != ""
    requires t == NewMoveTarget(r.key.VhdPath(), t.dir) && !SamePath(r.key.VhdPath(), t.path)
    modifies w`st, w`trace, w`now, w`probes, w`answers, w`refusals, w`folders
    ensures old(w.trace) <= w.trace
    // One volume and no copy to keep: the file is renamed; otherwise it is copied.
    ensures exists same :: w.answers == old(w.answers) + [AskedSameVolume(r.key.VhdPath(), t.dir, same)]
                           && (renamed <==> same && !keepSource)
    ensures GoodRun(old(w.st), w.trace, |old(w.trace)|, t, r, c, renamed, keepSource)
    ensures Safe(old(w.st), w.st, r.key.VhdPath(), t.path, r.guid, c, true)
    ensures Leaves(o, old(w.st), w.st, t, r, c, renamed, keepSource)
    ensures old(w.probes) <= w.probes
    ensures Tested(o, w.trace, |old(w.trace)|, w.probes[|old(w.probes)|..], w.now - old(w.now), t, r, c, renamed)
    ensures Retreats(o, old(w.st), w.trace, |old(w.trace)|, w.probes[|old(w.probes)|..], t, r, renamed)
    ensures w.refusals >= old(w.refusals) && Succeeds(o, w.trace, |old(w.trace)|, w.refusals > old(w.refusals))
    ensures exists made :: w.folders == old(w.folders) + [Folder(t.dir, made)] && (!made ==> o.NotStarted?)
  {
    hide CanonicalPath, DirOf, BaseOf, JoinWindows, TrimSeparators, DiskPath;
    hide Effect, Enabled, Undone, Pointed, Safe, Tested, Leads;
    AtStart(w.st, r, t, c);
    var source := r.key.VhdPath();
    var same := w.SameVolume(source, t.dir);
    renamed := same && !keepSource;
    var undo := new UndoStack();
    ghost var s := w.st;
    var placed := w.MkdirAll(t.dir);
    if placed {
      placed := Place(w, source, t.path, renamed, undo, r.guid, c);
      SafeEitherWay(s, w.st, source, t.path, r.guid, c, renamed);
    }
    o := NotStarted;
    TestedNothing(o, w.trace, |old(w.trace)|, w.now - old(w.now), t, r, c, renamed);
    assert w.probes[|old(w.probes)|..] == [];
    if placed {
      StackedFirst(undo.entries, w.st, s, old(w.trace), w.trace, renamed, t, r);
      o := Carry(w, undo, renamed, t, r, keepSource, c, s, |old(w.trace)|);
    }
  }

  lemma AtStart(s: State, r: Registration, t: MoveTarget, c: Content)
    requires BaseOf(r.key.VhdPath()) != "" && s.Holds(r.key.VhdPath(), c)
    ensures r.key.VhdPath() != "" && BasePath in r.key.strings && Safe(s, s, r.key.VhdPath(), t.path, r.guid, c, true)
  {
  }

  /** Everything after the file is in place. */
  method Carry(w: Machine, undo: UndoStack, renamed: bool, t: MoveTarget, r: Registration, keepSource: bool,
               ghost c: Content, ghost s0: State, ghost n: nat)
    returns (o: MoveOutcome)
    requires Rollback(undo.entries, w.st, renamed, t, r, s0, c)
    requires renamed ==> !keepSource
    requires |undo.entries| == 1 && w.st.keys == s0.keys
    requires BasePath in r.key.strings && r.key.Num(Version) == 2
    requires t == NewMoveTarget(r.key.VhdPath(), t.dir) && BaseOf(r.key.VhdPath()) != ""
    requires w.st.Holds(t.path, c)
    requires if renamed then !w.st.Present(r.key.VhdPath()) else w.st.Holds(r.key.VhdPath(), c)
    requires n <= |w.trace| && SafeRun(s0, w.trace, n, t, r, c, renamed)
    requires Stacked(undo.entries, w.st, s0, w.trace, n, renamed, t, r) && Writes(w.trace[n..]) == 0
    requires AllWorked(w.trace, n)
    modifies undo, w`st, w`trace, w`now, w`probes, w`refusals
    ensures old(w.trace) <= w.trace
    ensures GoodRun(s0, w.trace, n, t, r, c, renamed, keepSource)
    ensures Safe(s0, w.st, r.key.VhdPath(), t.path, r.guid, c, true)
    ensures Leaves(o, s0, w.st, t, r, c, renamed, keepSource)
    ensures old(w.probes) <= w.probes
    ensures Tested(o, w.trace, n, w.probes[|old(w.probes)|..], w.now - old(w.now), t, r, c, renamed)
    ensures Retreats(o, s0, w.trace, n, w.probes[|old(w.probes)|..], t, r, renamed)
    ensures w.refusals >= old(w.refusals) && Succeeds(o, w.trace, n, w.refusals > old(w.refusals))
  {
    hide CanonicalPath, DirOf, BaseOf, JoinWindows, TrimSeparators, DiskPath, Safe, Leaves, Leads, Tested;
    hide Effect, Enabled, Undone, Pointed, Stacked, TakenBack, Writes, Reverts;
    ghost var s1, run, es := w.st, w.trace, undo.entries;
    NameAlwaysFits(s1, r, t);
    var pointed := Repoint(w, r, t.path, WithSamePrefixAs(r.key.Str(BasePath), t.dir), undo);
    RevertsPutBack(s1, r.guid, es, Writes(w.trace[|run|..]));
    StackedWrites(es, s1, undo.entries, w.st, s0, run, w.trace, n, renamed, t, r);
    OnlyKeyIsSafe(s0, s1, r.key.VhdPath(), t.path, r.guid, c, renamed);
    if pointed {
      MoveReaches(s1, r, t, r.key.VhdPath(), c);
      o := Settle(w, undo, renamed, t, r, keepSource, c, s0, n);
    } else {
      ghost var k := |w.trace|;
      var oks := PutBack(w, undo, false, renamed, t, r, keepSource, false, c, s0, n);
      SafeEitherWay(s0, w.st, r.key.VhdPath(), t.path, r.guid, c, renamed);
      RetreatsFrom(k, false, oks, s0, w.trace, n, [], t, r, renamed);
      o := RolledBack(false, oks);
      TestedNothing(o, w.trace, n, w.now - old(w.now), t, r, c, renamed);
      assert w.probes[|old(w.probes)|..] == [];
    }
  }

  /** A registration without a file name has the disk under the default one. */
  lemma NameAlwaysFits(s: State, r: Registration, t: MoveTarget)
    requires r.guid in s.keys && s.keys[r.guid] == r.key && t == NewMoveTarget(r.key.VhdPath(), t.dir)
    requires BaseOf(r.key.VhdPath()) != ""
    ensures NameFits(s, r.guid, t.path)
  {
    var source := r.key.VhdPath();
    BaseOfJoin(t.dir, source);
    if VhdFileName !in r.key.strings {
      var base := TrimPrefix(r.key.Str(BasePath), EXTENDED);
      assert source == JoinWindows(base, DEFAULT_VHD_NAME);
      BaseOfDefault();
      hide BaseOf, JoinWindows, TrimPrefix;
      BaseOfJoin(base, DEFAULT_VHD_NAME);
    }
    hide CanonicalPath, BaseOf, JoinWindows, TrimPrefix;
  }

  lemma BaseOfDefault()
    ensures BaseOf(DEFAULT_VHD_NAME) == DEFAULT_VHD_NAME
  {
    var d := DEFAULT_VHD_NAME;
    assert TrimSeparators(d) == d;
    assert forall k :: 0 <= k < |d| ==> !IsSeparator(d[k]);
  }

  /** The smoke test, and what follows from it. */
  method Settle(w: Machine, undo: UndoStack, renamed: bool, t: MoveTarget, r: Registration, keepSource: bool,
                ghost c: Content, ghost s0: State, ghost n: nat)
    returns (o: MoveOutcome)
    requires Rollback(undo.entries, w.st, renamed, t, r, s0, c)
    requires renamed ==> !keepSource
    requires if renamed then !w.st.Present(r.key.VhdPath()) else w.st.Holds(r.key.VhdPath(), c)
    requires Leads(w.st, r, t, c)
    requires n <= |w.trace| && SafeRun(s0, w.trace, n, t, r, c, renamed)
    requires Stacked(undo.entries, w.st, s0, w.trace, n, renamed, t, r) && AllWorked(w.trace, n)
    modifies undo, w`st, w`trace, w`now, w`probes
    ensures old(w.trace) <= w.trace
    ensures GoodRun(s0, w.trace, n, t, r, c, renamed, keepSource)
    ensures Safe(s0, w.st, r.key.VhdPath(), t.path, r.guid, c, true)
    ensures Leaves(o, s0, w.st, t, r, c, renamed, keepSource)
    ensures old(w.probes) <= w.probes
    ensures Tested(o, w.trace, n, w.probes[|old(w.probes)|..], w.now - old(w.now), t, r, c, renamed)
    ensures Retreats(o, s0, w.trace, n, w.probes[|old(w.probes)|..], t, r, renamed)
    ensures Succeeds(o, w.trace, n, false)
  {
    hide CanonicalPath, DiskPath, Effect, Enabled, Undone, Safe, Tested, FormKept;
    SafeEitherWay(s0, w.st, r.key.VhdPath(), t.path, r.guid, c, renamed);
    ghost var k := |w.trace|;
    ghost var es, s1 := undo.entries, w.st;
    var up := w.Do(Start(r.key.Name()));
    StackedOn(es, s1, s0, old(w.trace), w.trace, n, renamed, t, r);
    assert w.trace[k].call == Start(r.key.Name());
    if !up {
      o := NotUp(w, undo, renamed, t, r, keepSource, c, s0, n);
    } else {
      o := Moved;
      if !renamed && !keepSource {
        ghost var run := w.trace;
        Deleting(s0, w.st, t, r, c);
        var gone := w.Do(Remove(r.key.VhdPath()));
        assert w.trace[..|w.trace| - 1] == run;
        assert Leads(w.trace[k].before, r, t, c);
        o := if gone then Moved else OriginalLeft;
      }
      TestedUp(o, w.trace, n, k, w.now - old(w.now), t, r, c, renamed);
      assert w.probes[|old(w.probes)|..] == [];
    }
  }

  /** After a start that did not work: stopped, waited for, and put back if WSL lets go. */
  method NotUp(w: Machine, undo: UndoStack, renamed: bool, t: MoveTarget, r: Registration, ghost keepSource: bool,
               ghost c: Content, ghost s0: State, ghost n: nat)
    returns (o: MoveOutcome)
    requires Rollback(undo.entries, w.st, renamed, t, r, s0, c)
    requires Leads(w.st, r, t, c)
    requires n < |w.trace| && SafeRun(s0, w.trace, n, t, r, c, renamed)
    requires w.trace[|w.trace| - 1].call == Start(r.key.Name()) && !w.trace[|w.trace| - 1].ok
    requires Stacked(undo.entries, w.st, s0, w.trace, n, renamed, t, r)
    modifies undo, w`st, w`trace, w`now, w`probes
    ensures old(w.trace) <= w.trace
    ensures SafeRun(s0, w.trace, n, t, r, c, renamed)
    ensures Safe(s0, w.st, r.key.VhdPath(), t.path, r.guid, c, true)
    ensures Leaves(o, s0, w.st, t, r, c, renamed, keepSource)
    ensures old(w.probes) <= w.probes
    ensures Tested(o, w.trace, n, w.probes[|old(w.probes)|..], w.now - old(w.now), t, r, c, renamed)
    ensures Retreats(o, s0, w.trace, n, w.probes[|old(w.probes)|..], t, r, renamed)
    ensures o.HeldAtTarget? || o.RolledBack?
  {
    hide CanonicalPath, DiskPath, Effect, Enabled, Undone, Safe, Stacked, TakenBack;
    SafeEitherWay(s0, w.st, r.key.VhdPath(), t.path, r.guid, c, renamed);
    ghost var k := |w.trace|;
    ghost var es, s1 := undo.entries, w.st;
    var stopped := w.Do(Terminate(r.key.Name()));
    StackedOn(es, s1, s0, old(w.trace), w.trace, n, renamed, t, r);
    assert w.trace[k - 1].call == Start(r.key.Name()) && w.trace[k].call == Terminate(r.key.Name());
    var free := WaitForDisk(w, r.key.Name(), t.path, false, 0);
    ghost var wait := w.probes[|old(w.probes)|..];
    WaitsOnce(wait, r.key.Name(), t.path, |w.trace|, 0, w.now - old(w.now), free.Free?);
    assert NotUpAt(w.trace, k - 1, wait, w.now - old(w.now), t, r);
    if free != Free && renamed {
      // The file cannot come along, so the registration has to stay with it.
      o := HeldAtTarget;
    } else {
      ghost var run := |w.trace|;
      var oks := PutBack(w, undo, free != Free, renamed, t, r, keepSource, true, c, s0, n);
      RetreatsFrom(run, true, oks, s0, w.trace, n, wait, t, r, renamed);
      SafeEitherWay(s0, w.st, r.key.VhdPath(), t.path, r.guid, c, renamed);
      assert NotUpAt(w.trace, k - 1, wait, w.now - old(w.now), t, r);
      o := RolledBack(true, oks);
    }
  }

  /** Deleting the original once the registration leads to the copy. */
  lemma Deleting(s0: State, s: State, t: MoveTarget, r: Registration, c: Content)
    requires Safe(s0, s, r.key.VhdPath(), t.path, r.guid, c, false)
    requires !SamePath(r.key.VhdPath(), t.path) && Leads(s, r, t, c)
    ensures var s' := Effect(s, Remove(r.key.VhdPath()));
            && Safe(s0, s', r.key.VhdPath(), t.path, r.guid, c, true)
            && Leads(s', r, t, c) && !s'.Present(r.key.VhdPath())
    ensures Safe(s0, s, r.key.VhdPath(), t.path, r.guid, c, true) && s.Holds(r.key.VhdPath(), c)
  {
    hide CanonicalPath, DiskPath;
  }

  /** The rollback of a move, from anywhere in it, leads back to the start. */
  ghost predicate Rollback(es: seq<Entry>, s: State, renamed: bool, t: MoveTarget, r: Registration,
                           s0: State, c: Content)
  {
    var source := r.key.VhdPath();
    && !SamePath(source, t.path) && source != ""
    && s0.Holds(source, c) && s0.Registered(r)
    && es != []
    && es[0] == Entry(if renamed then Rename(t.path, source) else Remove(t.path), !renamed)
    && (forall i :: 1 <= i < |es| ==> PutsBack(es[i], r.guid))
    && Safe(s0, s, source, t.path, r.guid, c, renamed)
    && Undone(es, s) == s0
  }

  /** The first step: a rename, undone by renaming back, or a copy, undone by removing it. */
  method Place(w: Machine, source: Path, target: Path, renamed: bool, undo: UndoStack,
               ghost g: Guid, ghost c: Content)
    returns (ok: bool)
    requires w.st.Holds(source, c) && !SamePath(source, target)
    requires undo.entries == []
    modifies w`st, w`trace, undo
    ensures |w.trace| == |old(w.trace)| + 1 && old(w.trace) <= w.trace
    ensures var step := w.trace[|old(w.trace)|];
            && step.after == w.st && step.ok == ok
            && step.call == if renamed then Rename(source, target) else CopySparse(source, target)
    ensures w.st.keys == old(w.st).keys
    ensures Safe(old(w.st), w.st, source, target, g, c, renamed)
    ensures !ok ==> w.st.Holds(source, c) && (renamed ==> w.st == old(w.st))
    ensures ok ==>
              && w.st.Holds(target, c)
              && (if renamed then !w.st.Present(source) else w.st.Holds(source, c))
              && undo.entries == [Entry(if renamed then Rename(target, source) else Remove(target), !renamed)]
              && Undone(undo.entries, w.st) == old(w.st)
  {
    hide CanonicalPath;
    if renamed {
      ok := w.Do(Rename(source, target));
      if ok {
        RenameInverse(old(w.st), source, target);
        undo.Push(Rename(target, source), false);
      }
    } else {
      ok := w.Do(CopySparse(source, target));
      if ok {
        CopyInverse(old(w.st), source, target);
        undo.Push(Remove(target), true);
      } else if w.st != old(w.st) {
        OnlyFileMeans(old(w.st), w.st, CanonicalPath(target));
      }
    }
    if ok {
      assert Undone([], old(w.st)) == old(w.st);
    }
  }

  lemma OnlyKeyIsSafe(s0: State, s1: State, source: Path, target: Path, g: Guid, c: Content, renamed: bool)
    requires Safe(s0, s1, source, target, g, c, renamed)
    ensures forall s | OnlyKey(s1, s, g) :: Safe(s0, s, source, target, g, c, renamed)
  {
  }

  /** After repointing, the registration leads to the target, which holds the disk. */
  lemma MoveReaches(s: State, r: Registration, t: MoveTarget, source: Path, c: Content)
    requires r.guid in s.keys && s.keys[r.guid].Num(Version) == 2 && NameFits(s, r.guid, t.path)
    requires t == NewMoveTarget(source, t.dir) && BaseOf(source) != ""
    requires s.Holds(t.path, c) && s.keys[r.guid] == r.key
    ensures Leads(Pointed(s, r.guid, t.path, WithSamePrefixAs(s.keys[r.guid].Str(BasePath), t.dir)), r, t, c)
  {
    PrefixFollows(r.key.Str(BasePath), t.dir);
    hide WithSamePrefixAs, FormKept;
    if Fits(t.dir) {
      BaseOfJoin(t.dir, source);
      PointedNames(s, r.guid, t.path, t.dir);
    }
  }

  lemma BaseOfJoin(dir: Path, source: Path)
    requires BaseOf(source) != ""
    ensures PlainName(BaseOf(source)) && BaseOf(JoinWindows(dir, BaseOf(source))) == BaseOf(source)
  {
    var name := BaseOf(source);
    BaseOfIsPlain(source);
    var p := JoinWindows(dir, name);
    assert p[|p| - 1] == name[|name| - 1];
    assert TrimSeparators(p) == p;
    if p != name {
      LastSeparatorIs(p, |p| - |name| - 1);
    }
  }

  method PutBack(w: Machine, undo: UndoStack, held: bool, renamed: bool, t: MoveTarget, r: Registration,
                 ghost keepSource: bool, ghost wouldNotStart: bool, ghost c: Content, ghost s0: State, ghost n: nat)
    returns (oks: seq<bool>)
    requires Rollback(undo.entries, w.st, renamed, t, r, s0, c) && !(held && renamed)
    requires n <= |w.trace| && SafeRun(s0, w.trace, n, t, r, c, renamed)
    requires Stacked(undo.entries, w.st, s0, w.trace, n, renamed, t, r)
    modifies undo, w`st, w`trace
    ensures old(w.trace) <= w.trace
    ensures TakenBack(s0, w.trace, n, |old(w.trace)|, [FirstUndo(renamed, t, r)], r.guid, oks, held)
    ensures SafeRun(s0, w.trace, n, t, r, c, renamed)
    ensures Safe(s0, w.st, r.key.VhdPath(), t.path, r.guid, c, renamed)
    ensures Leaves(RolledBack(wouldNotStart, oks), s0, w.st, t, r, c, renamed, keepSource)
  {
    hide CanonicalPath;
    ghost var es, s := undo.entries, w.st;
    oks := undo.Unwind(w, held);
    assert w.trace[n..|old(w.trace)|] == old(w.trace)[n..];
    assert w.trace[|old(w.trace)|..] == Steps(es, oks, held, s);
    PutBackKeeps(es, oks, held, s, s0, t, r, c, renamed);
    hide Steps, Answers, After, Undone, Effect, Enabled;
    forall i | n <= i < |w.trace|
      ensures Safe(s0, w.trace[i].after, r.key.VhdPath(), t.path, r.guid, c, renamed)
              && !(w.trace[i].call.Remove? && SamePath(w.trace[i].call.path, r.key.VhdPath()))
    {
      if i < |old(w.trace)| {
        assert w.trace[i] == old(w.trace)[i];
      } else {
        assert w.trace[i] in Steps(es, oks, held, s);
      }
    }
    if AllOk(oks) {
      AllOkIsUndone(es, oks, s);
    }
    if !renamed && AllOk(oks[1..]) {
      RegistryBack(es, oks, s, t.path);
    }
  }

  lemma PutBackKeeps(es: seq<Entry>, oks: seq<bool>, held: bool, s: State, s0: State,
                     t: MoveTarget, r: Registration, c: Content, renamed: bool)
    requires Rollback(es, s, renamed, t, r, s0, c)
    requires |oks| == |es| && Answers(es, oks, held, s)
    ensures var source := r.key.VhdPath();
            && Safe(s0, After(es, oks, s), source, t.path, r.guid, c, renamed)
            && forall step | step in Steps(es, oks, held, s) ::
                 Safe(s0, step.after, source, t.path, r.guid, c, renamed)
                 && !(step.call.Remove? && SamePath(step.call.path, source))
  {
    hide CanonicalPath, Steps, Answers, After, Undone;
    StepCalls(es, oks, held, s);
    forall i, x: State | 0 <= i < |es| && Safe(s0, x, r.key.VhdPath(), t.path, r.guid, c, renamed)
                         && Enabled(x, es[i].call)
      ensures Safe(s0, Effect(x, es[i].call), r.key.VhdPath(), t.path, r.guid, c, renamed)
    {
      EntryIsSafe(es, i, x, s, s0, t, r, c, renamed);
    }
    hide Effect, Enabled, Safe;
    UnwindKeeps(es, oks, held, s, x => Safe(s0, x, r.key.VhdPath(), t.path, r.guid, c, renamed));
  }

  lemma EntryIsSafe(es: seq<Entry>, i: nat, x: State, s: State, s0: State, t: MoveTarget, r: Registration, c: Content,
                    renamed: bool)
    requires Rollback(es, s, renamed, t, r, s0, c) && i < |es|
    requires Safe(s0, x, r.key.VhdPath(), t.path, r.guid, c, renamed) && Enabled(x, es[i].call)
    ensures Safe(s0, Effect(x, es[i].call), r.key.VhdPath(), t.path, r.guid, c, renamed)
  {
    hide CanonicalPath, Undone;
  }

  /** If everything but the oldest entry, a removal, succeeded, the registry is back. */
  lemma RegistryBack(es: seq<Entry>, oks: seq<bool>, s: State, p: Path)
    requires |oks| == |es| && es != [] && es[0].call == Remove(p) && AllOk(oks[1..])
    ensures After(es, oks, s).keys == Undone(es, s).keys
    ensures After(es, oks, s).default == Undone(es, s).default
  {
    hide CanonicalPath;
    var all := [true] + oks[1..];
    assert all[1..] == oks[1..];
    AllOkIsUndone(es, all, s);
  }
}
