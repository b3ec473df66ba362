/** Unregistering a distribution after its files went into the trash (Trash in internal/disk/trash.go). */
module Trash {
  import opened Text
  import opened Paths
  import opened World
  import opened Undo
  import opened Wait

  const MANIFEST_NAME: string := "wslkit-trash.json"

  const STRING_VALUES: seq<StringValue> :=
    [DistributionName, BasePath, VhdFileName, Flavor, OsVersion, ShortcutPath, TerminalProfilePath, PackageFamilyName]
  const NUMBER_VALUES: seq<NumberValue> := [Version, LxssState, Flags, DefaultUid, RunOOBE, Modern]

  /** Re-reads every value; one that is absent keeps what the listing said. */
  method ReadFullRegistration(w: Machine, r: Registration) returns (ok: bool, full: Registration)
    requires r.guid in w.st.keys
    modifies w`refusals
    ensures w.refusals >= old(w.refusals) && (ok <==> w.refusals == old(w.refusals))
    ensures full.guid == r.guid && full.isDefault == r.isDefault
    ensures ok ==> forall n :: full.key.Str(n) ==
                     if n in w.st.keys[r.guid].strings then w.st.keys[r.guid].strings[n] else r.key.Str(n)
    ensures ok ==> forall n :: full.key.Num(n) ==
                     if n in w.st.keys[r.guid].numbers then w.st.keys[r.guid].numbers[n] else r.key.Num(n)
    ensures ok && w.st.Registered(r) ==> full == r
  {
    var strings, numbers;
    full := r;
    AllStringsListed();
    AllNumbersListed();
    ok, strings := ReadStrings(w, r, STRING_VALUES);
    if ok {
      ok, numbers := ReadNumbers(w, r, NUMBER_VALUES);
      full := full.(key := Key(strings, numbers));
    }
  }

  method ReadStrings(w: Machine, r: Registration, values: seq<StringValue>)
    returns (ok: bool, out: map<StringValue, string>)
    requires r.guid in w.st.keys && forall n: StringValue :: n in values
    modifies w`refusals
    ensures w.refusals >= old(w.refusals) && (ok <==> w.refusals == old(w.refusals))
    ensures ok ==> forall n :: Key(out, map[]).Str(n) ==
                     if n in w.st.keys[r.guid].strings then w.st.keys[r.guid].strings[n] else r.key.Str(n)
    ensures w.st.Registered(r) ==> out == r.key.strings
  {
    var key := w.st.keys[r.guid];
    out := r.key.strings;
    for i := 0 to |values|
      invariant w.refusals == old(w.refusals)
      invariant StringsRead(out, key, r.key, values[..i])
      invariant w.st.Registered(r) ==> out == r.key.strings
    {
      var n := values[i];
      var read, v := w.ReadString(r.guid, n);
      if !read {
        return false, out;
      }
      StringsReadOn(out, key, r.key, values[..i], n);
      if v.Some? {
        out := out[n := v.value];
      }
      assert values[..i + 1] == values[..i] + [n];
    }
    assert values[..|values|] == values;
    ok := true;
  }

  /** The values of these names are the registry's, if it has them, and all others the listing's. */
  ghost predicate StringsRead(out: map<StringValue, string>, key: Key, was: Key, names: seq<StringValue>) {
    forall n :: Key(out, map[]).Str(n) == if n in names && n in key.strings then key.strings[n] else was.Str(n)
  }

  lemma StringsReadOn(out: map<StringValue, string>, key: Key, was: Key, names: seq<StringValue>, n: StringValue)
    requires StringsRead(out, key, was, names)
    ensures StringsRead(if n in key.strings then out[n := key.strings[n]] else out, key, was, names + [n])
  {
  }

  method ReadNumbers(w: Machine, r: Registration, values: seq<NumberValue>)
    returns (ok: bool, out: map<NumberValue, int>)
    requires r.guid in w.st.keys && forall n: NumberValue :: n in values
    modifies w`refusals
    ensures w.refusals >= old(w.refusals) && (ok <==> w.refusals == old(w.refusals))
    ensures ok ==> forall n :: Key(map[], out).Num(n) ==
                     if n in w.st.keys[r.guid].numbers then w.st.keys[r.guid].numbers[n] else r.key.Num(n)
    ensures w.st.Registered(r) ==> out == r.key.numbers
  {
    var key := w.st.keys[r.guid];
    out := r.key.numbers;
    for i := 0 to |values|
      invariant w.refusals == old(w.refusals)
      invariant forall n :: Key(map[], out).Num(n) ==
                  if n in values[..i] && n in key.numbers then key.numbers[n] else r.key.Num(n)
      invariant w.st.Registered(r) ==> out == r.key.numbers
    {
      var n := values[i];
      var read, v := w.ReadDWORD(r.guid, n);
      if !read {
        return false, out;
      }
      if v.Some? {
        out := out[n := v.value];
      }
      assert values[..i + 1] == values[..i] + [n];
    }
    assert values[..|values|] == values;
    ok := true;
  }

  lemma AllStringsListed()
    ensures forall n: StringValue :: n in STRING_VALUES
  {
    forall n: StringValue ensures n in STRING_VALUES {
      match n
      case DistributionName => assert STRING_VALUES[0] == n;
      case BasePath => assert STRING_VALUES[1] == n;
      case VhdFileName => assert STRING_VALUES[2] == n;
      case Flavor => assert STRING_VALUES[3] == n;
      case OsVersion => assert STRING_VALUES[4] == n;
      case ShortcutPath => assert STRING_VALUES[5] == n;
      case TerminalProfilePath => assert STRING_VALUES[6] == n;
      case PackageFamilyName => assert STRING_VALUES[7] == n;
    }
  }

  lemma AllNumbersListed()
    ensures forall n: NumberValue :: n in NUMBER_VALUES
  {
    forall n: NumberValue ensures n in NUMBER_VALUES {
      match n
      case Version => assert NUMBER_VALUES[0] == n;
      case LxssState => assert NUMBER_VALUES[1] == n;
      case Flags => assert NUMBER_VALUES[2] == n;
      case DefaultUid => assert NUMBER_VALUES[3] == n;
      case RunOOBE => assert NUMBER_VALUES[4] == n;
      case Modern => assert NUMBER_VALUES[5] == n;
    }
  }

  /* ---- moving files into the trash folder ---- */

  /** The paths a trashing is about. */
  datatype Places = Places(source: Path, trash: Path, note: Path)

  function PlacesOf(r: Registration, dir: Path): Places {
    Places(r.key.VhdPath(), JoinWindows(dir, r.key.VhdName()), JoinWindows(dir, MANIFEST_NAME))
  }

  predicate InTrash(s: State, p: Places, c: Content) {
    s.Holds(p.trash, c) && !s.Present(p.source)
  }

  predicate Kept(s: State, p: Places, c: Content) {
    s.Holds(p.source, c) || s.Holds(p.trash, c)
  }

  predicate SameRegistry(s: State, t: State) {
    t.keys == s.keys && t.default == s.default
  }

  datatype Placed = NotPlaced | Renamed | Copied | CopiedOnly

  /** How many files were renamed or copied. */
  function Moves(steps: seq<Step>): nat {
    if steps == [] then 0
    else
      var last := steps[|steps| - 1];
      Moves(steps[..|steps| - 1]) + if (last.call.Rename? || last.call.CopySparse?) && last.ok then 1 else 0
  }

  lemma {:induction false} MovesAppend(a: seq<Step>, b: seq<Step>)
    ensures Moves(a + b) == Moves(a) + Moves(b)
  {
    if b == [] {
      assert a + b == a;
    } else {
      var last := |b| - 1;
      MovesAppend(a, b[..last]);
      assert (a + b)[..|a + b| - 1] == a + b[..last];
    }
  }

  lemma MovesSince(before: seq<Step>, after: seq<Step>, n: nat)
    requires n <= |before| && before <= after
    ensures Moves(after[n..]) == Moves(before[n..]) + Moves(after[|before|..])
  {
    MovesAppend(before[n..], after[|before|..]);
    assert after[n..] == before[n..] + after[|before|..];
  }

  lemma MovesOf(a: Step, b: Step)
    ensures Moves([a]) == if (a.call.Rename? || a.call.CopySparse?) && a.ok then 1 else 0
    ensures b.call.Remove? ==> Moves([a, b]) == Moves([a])
  {
    assert [a][..0] == [] && [a, b][..1] == [a];
  }

  /** What a part of the move reports: one entry more for each file it renamed or copied, and success just
      when every call worked. */
  ghost predicate Advances(before: seq<Step>, after: seq<Step>, s: State, t: State, k: nat, k': nat, ok: bool) {
    && before <= after && StateAt(s, after, |before|, |after|) == t
    && k' == k + Moves(after[|before|..])
    && (ok <==> AllWorked(after, |before|))
  }

  lemma AdvancesOn(a: seq<Step>, b: seq<Step>, c: seq<Step>, s: State, t: State, u: State, k: nat, k': nat, k'': nat,
                   ok: bool)
    requires Advances(a, b, s, t, k, k', true) && Advances(b, c, t, u, k', k'', ok)
    ensures Advances(a, c, s, u, k, k'', ok)
  {
    MovesSince(b, c, |a|);
    hide Moves;
    forall i | |a| <= i < |b| ensures c[i].ok {
      assert c[i] == b[i];
    }
  }

  lemma AdvancesNot(trace: seq<Step>, s: State, k: nat)
    ensures Advances(trace, trace, s, s, k, k, true)
  {
    assert trace[|trace|..] == [];
  }

  /** One file into the trash folder: renamed on one volume, otherwise copied and then deleted. */
  method MoveOne(w: Machine, from: Path, dir: Path, name: string, undo: UndoStack) returns (p: Placed)
    modifies w`st, w`trace, w`answers, undo
    ensures |w.trace| > |old(w.trace)|
    ensures w.answers == old(w.answers) + [AskedSameVolume(from, dir, w.trace[|old(w.trace)|].call.Rename?)]
    ensures Advances(old(w.trace), w.trace, old(w.st), w.st, |old(undo.entries)|, |undo.entries|,
                     p == Renamed || p == Copied)
    ensures var to, s, before := JoinWindows(dir, name), old(w.st), old(w.trace);
            match p
            case Renamed =>
              && Enabled(s, Rename(from, to)) && w.st == Effect(s, Rename(from, to))
              && undo.entries == old(undo.entries) + [Entry(Rename(to, from), false)]
              && w.trace == before + [Step(Rename(from, to), true, s, w.st)]
            case Copied =>
              var mid := Effect(s, CopySparse(from, to));
              && Enabled(s, CopySparse(from, to)) && w.st == Effect(mid, Remove(from))
              && undo.entries == old(undo.entries) + [Entry(Remove(to), false)]
              && w.trace == before + [Step(CopySparse(from, to), true, s, mid), Step(Remove(from), true, mid, w.st)]
            case CopiedOnly =>
              && Enabled(s, CopySparse(from, to)) && w.st == Effect(s, CopySparse(from, to))
              && undo.entries == old(undo.entries) + [Entry(Remove(to), false)]
              && w.trace == before + [Step(CopySparse(from, to), true, s, w.st), Step(Remove(from), false, w.st, w.st)]
            case NotPlaced =>
              && undo.entries == old(undo.entries) && SameRegistry(s, w.st)
              && SameFilesBut(s, w.st, {CanonicalPath(to)}) && (s.Present(to) ==> w.st == s)
              && ((w.trace == before + [Step(Rename(from, to), false, s, w.st)] && w.st == s)
                  || w.trace == before + [Step(CopySparse(from, to), false, s, w.st)])
  {
    hide CanonicalPath, Moves;
    ghost var n := |w.trace|;
    var to := JoinWindows(dir, name);
    var same := w.SameVolume(from, dir);
    if same {
      var ok := w.Do(Rename(from, to));
      MovesOf(w.trace[n], w.trace[n]);
      assert w.trace[n..] == [w.trace[n]];
      if ok {
        undo.Push(Rename(to, from), false);
        return Renamed;
      }
    } else {
      var ok := w.Do(CopySparse(from, to));
      MovesOf(w.trace[n], w.trace[n]);
      assert w.trace[n..] == [w.trace[n]];
      if ok {
        undo.Push(Remove(to), false);
        var gone := w.Do(Remove(from));
        MovesOf(w.trace[n], w.trace[n + 1]);
        assert w.trace[n..] == [w.trace[n], w.trace[n + 1]];
        return if gone then Copied else CopiedOnly;
      }
      if w.st != old(w.st) {
        OnlyFileMeans(old(w.st), w.st, CanonicalPath(to));
      }
    }
    p := NotPlaced;
  }

  /** A sibling's two names are neither the disk's nor, unless it is called that, the manifest's. */
  lemma SiblingElsewhere(base: Path, dir: Path, name: string, other: string)
    requires PlainName(name) && PlainName(other) && !EqualFold(name, other)
    ensures forall d :: !SamePath(JoinWindows(base, name), JoinWindows(d, other))
    ensures forall d :: !SamePath(JoinWindows(dir, name), JoinWindows(d, other))
  {
    hide CanonicalPath, JoinWindows;
    forall d
      ensures !SamePath(JoinWindows(base, name), JoinWindows(d, other))
      ensures !SamePath(JoinWindows(dir, name), JoinWindows(d, other))
    {
      DifferentNames(base, name, d, other);
      DifferentNames(dir, name, d, other);
    }
  }

  /** Where the files stand once the disk is in the trash, and what an unwind would do about it. */
  ghost predicate Underway(es: seq<Entry>, s: State, s0: State, p: Places, c: Content,
                           crossed: bool, exact: bool, clean: bool)
  {
    && es != []
    && es[0] == Entry(if crossed then Remove(p.trash) else Rename(p.trash, p.source), false)
    && (forall i :: 1 <= i < |es| ==> Elsewhere(es[i], {CanonicalPath(p.source), CanonicalPath(p.trash)}))
    && (clean ==> forall i :: 0 <= i < |es| ==> Elsewhere(es[i], {CanonicalPath(p.note)}))
    && InTrash(s, p, c) && SameRegistry(s0, s)
    && (exact ==> !crossed && Undone(es, s) == s0)
  }

  /** Nothing has been taken away yet. */
  ghost predicate NotYet(es: seq<Entry>, s: State, s0: State, p: Places, c: Content, exact: bool) {
    && (es == [] || es == [Entry(Remove(p.trash), false)])
    && s.Holds(p.source, c) && SameRegistry(s0, s) && (es != [] ==> !SamePath(p.source, p.trash))
    && (exact ==> es == [] && s == s0)
  }

  ghost predicate FileStep(step: Step, s0: State, p: Places, c: Content) {
    Kept(step.after, p, c) && SameRegistry(s0, step.after) && !step.call.Unregister?
  }

  /** The folder WSL keeps the disk in. */
  function Base(r: Registration): Path {
    TrimPrefix(r.key.Str(BasePath), EXTENDED)
  }

  /** The disk's name is a file name, and not the manifest's. */
  predicate OrdinaryDisk(r: Registration) {
    && r.key.VhdPath() != "" && PlainName(r.key.VhdName())
    && !EqualFold(r.key.VhdName(), MANIFEST_NAME)
  }

  ghost predicate NoCopies(trace: seq<Step>, n: nat) {
    forall i :: n <= i < |trace| ==> !trace[i].call.CopySparse?
  }

  /** Every file was said to be on the volume of the trash. */
  ghost predicate OneVolume(answers: seq<Answer>, n: nat) {
    forall i :: n <= i < |answers| && answers[i].AskedSameVolume? ==> answers[i].same
  }

  /** The disk was copied to the trash and its original was deleted. */
  ghost predicate Crossed(trace: seq<Step>, n: nat, p: Places) {
    exists i, j :: n <= i < j < |trace|
      && trace[i].ok && trace[i].call == CopySparse(p.source, p.trash)
      && trace[j].ok && trace[j].call == Remove(p.source)
  }

  ghost predicate Spares(trace: seq<Step>, n: nat, p: Places) {
    forall i :: n <= i < |trace| ==> trace[i].call != Remove(p.source)
  }

  lemma CrossedStays(before: seq<Step>, after: seq<Step>, n: nat, p: Places)
    requires before <= after && Spares(after, |before|, p)
    ensures Crossed(before, n, p) <==> Crossed(after, n, p)
  {
    if Crossed(before, n, p) {
      var i, j :| n <= i < j < |before|
                  && before[i].ok && before[i].call == CopySparse(p.source, p.trash)
                  && before[j].ok && before[j].call == Remove(p.source);
      assert after[i] == before[i] && after[j] == before[j];
    }
    if Crossed(after, n, p) {
      var i, j :| n <= i < j < |after|
                  && after[i].ok && after[i].call == CopySparse(p.source, p.trash)
                  && after[j].ok && after[j].call == Remove(p.source);
      assert before[i] == after[i] && before[j] == after[j];
    }
  }

  /** A file has gone from one path to another, and nothing else has changed. */
  ghost predicate Shifted(s: State, t: State, from: Path, to: Path) {
    && s.Present(from) && !s.Present(to)
    && t.Holds(to, s.files[CanonicalPath(from)]) && !t.Present(from)
    && SameFilesBut(s, t, {CanonicalPath(from), CanonicalPath(to)})
  }

  lemma RenameShifts(s: State, from: Path, to: Path)
    requires Enabled(s, Rename(from, to))
    ensures Shifted(s, Effect(s, Rename(from, to)), from, to)
  {
    hide CanonicalPath;
  }

  lemma CopyShifts(s: State, from: Path, to: Path)
    requires Enabled(s, CopySparse(from, to))
    ensures Shifted(s, Effect(Effect(s, CopySparse(from, to)), Remove(from)), from, to)
  {
    hide CanonicalPath;
  }

  lemma DiskRenamed(s: State, p: Places, c: Content)
    requires s.Holds(p.source, c) && Enabled(s, Rename(p.source, p.trash))
    requires !SamePath(p.trash, p.note) && !SamePath(p.source, p.note)
    ensures var t := Effect(s, Rename(p.source, p.trash));
            && Underway([Entry(Rename(p.trash, p.source), false)], t, s, p, c, false, true, true)
            && Shifted(s, t, p.source, p.trash) && Kept(t, p, c) && SameRegistry(s, t)
  {
    hide CanonicalPath;
    var t, e := Effect(s, Rename(p.source, p.trash)), Entry(Rename(p.trash, p.source), false);
    RenameInverse(s, p.source, p.trash);
    PushInverse([], e, s, t);
    assert [] + [e] == [e];
  }

  lemma DiskCopied(s: State, p: Places, c: Content)
    requires s.Holds(p.source, c) && Enabled(s, CopySparse(p.source, p.trash))
    requires !SamePath(p.trash, p.note) && !SamePath(p.source, p.note)
    ensures var mid := Effect(s, CopySparse(p.source, p.trash));
            var t := Effect(mid, Remove(p.source));
            && Underway([Entry(Remove(p.trash), false)], t, s, p, c, true, false, true)
            && NotYet([Entry(Remove(p.trash), false)], mid, s, p, c, false)
            && Shifted(s, t, p.source, p.trash) && p.source != p.trash
            && Kept(mid, p, c) && SameRegistry(s, mid) && Kept(t, p, c) && SameRegistry(s, t)
  {
    hide CanonicalPath, Undone;
  }

  lemma DiskNotPlaced(s: State, t: State, p: Places, c: Content)
    requires s.Holds(p.source, c) && SameRegistry(s, t)
    requires SameFilesBut(s, t, {CanonicalPath(p.trash)}) && (s.Present(p.trash) ==> t == s)
    ensures NotYet([], t, s, p, c, t == s) && Kept(t, p, c)
  {
    hide CanonicalPath;
  }

  method MoveDisk(w: Machine, r: Registration, dir: Path, undo: UndoStack, ghost c: Content)
    returns (first: Placed, ghost exact: bool)
    requires OrdinaryDisk(r) && w.st.Holds(r.key.VhdPath(), c) && undo.entries == []
    modifies w`st, w`trace, w`answers, undo
    ensures old(w.trace) <= w.trace
    ensures forall i :: |old(w.trace)| <= i < |w.trace| ==> FileStep(w.trace[i], old(w.st), PlacesOf(r, dir), c)
    ensures Advances(old(w.trace), w.trace, old(w.st), w.st, 0, |undo.entries|, first == Renamed || first == Copied)
    ensures NoCopies(w.trace, |old(w.trace)|) ==> exact
    ensures first == Copied <==> Crossed(w.trace, |old(w.trace)|, PlacesOf(r, dir))
    ensures w.answers == old(w.answers) + [AskedSameVolume(r.key.VhdPath(), dir, NoCopies(w.trace, |old(w.trace)|))]
    ensures first == Renamed || first == Copied ==>
              && Underway(undo.entries, w.st, old(w.st), PlacesOf(r, dir), c, first == Copied, exact, true)
              && |undo.entries| == 1 && (first == Renamed <==> NoCopies(w.trace, |old(w.trace)|))
              && Shifted(old(w.st), w.st, r.key.VhdPath(), PlacesOf(r, dir).trash)
    ensures first == NotPlaced || first == CopiedOnly ==>
              && NotYet(undo.entries, w.st, old(w.st), PlacesOf(r, dir), c, exact)
              && (undo.entries == []
                  || (undo.entries == [Entry(Remove(PlacesOf(r, dir).trash), false)]
                      && !NoCopies(w.trace, |old(w.trace)|)))
    ensures AllAtomic(undo.entries)
  {
    hide CanonicalPath, JoinWindows, TrimPrefix, Effect, Enabled, Underway, NotYet, Shifted, Kept, SameRegistry,
      SameFilesBut, Advances;
    ghost var p := PlacesOf(r, dir);
    ghost var s0, n := w.st, |w.trace|;
    SiblingElsewhere(Base(r), dir, r.key.VhdName(), MANIFEST_NAME);
    assert p.source == JoinWindows(Base(r), r.key.VhdName());
    assert !SamePath(p.trash, p.note) && !SamePath(p.source, p.note);
    first := MoveOne(w, r.key.VhdPath(), dir, r.key.VhdName(), undo);
    exact := first == Renamed || (first == NotPlaced && w.st == s0);
    match first
    case Renamed =>
      DiskRenamed(s0, p, c);
      assert undo.entries == [Entry(Rename(p.trash, p.source), false)];
    case Copied =>
      DiskCopied(s0, p, c);
      assert undo.entries == [Entry(Remove(p.trash), false)];
      assert w.trace[n].call == CopySparse(p.source, p.trash) && w.trace[n + 1].call == Remove(p.source);
    case CopiedOnly =>
      DiskCopied(s0, p, c);
      assert undo.entries == [Entry(Remove(p.trash), false)];
    case NotPlaced =>
      DiskNotPlaced(s0, w.st, p, c);
    assert w.trace[n].call.CopySparse? <==> !NoCopies(w.trace, n);
  }

  /** A file that is neither the disk nor, if the rollback is to be clean, the manifest. */
  predicate Aside(item: Path, p: Places, clean: bool) {
    && !SamePath(item, p.source) && !SamePath(item, p.trash)
    && (clean ==> !SamePath(item, p.note))
  }

  /** The entry for a file that has moved, by what was said of its volume. */
  predicate Undoes(e: Entry, volume: Answer, from: Path, dir: Path, to: Path) {
    && volume.AskedSameVolume? && volume.from == from && volume.to == dir
    && e == Entry(if volume.same then Rename(to, from) else Remove(to), false)
  }

  /** A file that could not be moved: nothing is left of it in the trash but what a failed copy left, or
      all of it, with an entry to delete it again. */
  ghost predicate NotMoved(s: State, t: State, es: seq<Entry>, es': seq<Entry>, volume: Answer, from: Path, dir: Path,
                           to: Path)
  {
    || (es' == es && SameFilesBut(s, t, {CanonicalPath(to)}) && (s.Present(to) ==> t == s))
    || (&& |es'| == |es| + 1 && es' == es + [es'[|es|]] && Undoes(es'[|es|], volume, from, dir, to)
        && es'[|es|].call.Remove? && Enabled(s, CopySparse(from, to)) && t == Effect(s, CopySparse(from, to)))
  }

  lemma SiblingRenamed(es: seq<Entry>, s: State, s0: State, p: Places, c: Content,
                       crossed: bool, exact: bool, clean: bool, item: Path, to: Path)
    requires Underway(es, s, s0, p, c, crossed, exact, clean) && Aside(item, p, clean) && Aside(to, p, clean)
    requires Enabled(s, Rename(item, to))
    ensures var t := Effect(s, Rename(item, to));
            && Underway(es + [Entry(Rename(to, item), false)], t, s0, p, c, crossed, exact, clean)
            && FileStep(Step(Rename(item, to), true, s, t), s0, p, c)
            && Shifted(s, t, item, to)
  {
    hide CanonicalPath;
    RenameShifts(s, item, to);
    RenameInverse(s, item, to);
    PushInverse(es, Entry(Rename(to, item), false), s, Effect(s, Rename(item, to)));
    hide Undone;
  }

  lemma SiblingCopied(es: seq<Entry>, s: State, s0: State, p: Places, c: Content,
                      crossed: bool, exact: bool, clean: bool, item: Path, to: Path)
    requires Underway(es, s, s0, p, c, crossed, exact, clean) && Aside(item, p, clean) && Aside(to, p, clean)
    requires Enabled(s, CopySparse(item, to))
    ensures var mid := Effect(s, CopySparse(item, to));
            var t := Effect(mid, Remove(item));
            && Underway(es + [Entry(Remove(to), false)], mid, s0, p, c, crossed, false, clean)
            && Underway(es + [Entry(Remove(to), false)], t, s0, p, c, crossed, false, clean)
            && FileStep(Step(CopySparse(item, to), true, s, mid), s0, p, c)
            && FileStep(Step(Remove(item), true, mid, t), s0, p, c)
            && FileStep(Step(Remove(item), false, mid, mid), s0, p, c)
            && Shifted(s, t, item, to)
  {
    hide CanonicalPath, Undone;
    CopyShifts(s, item, to);
  }

  lemma SiblingNotPlaced(es: seq<Entry>, s: State, t: State, s0: State, p: Places, c: Content,
                         crossed: bool, exact: bool, clean: bool, call: Call, to: Path)
    requires Underway(es, s, s0, p, c, crossed, exact, clean) && Aside(to, p, clean)
    requires SameFilesBut(s, t, {CanonicalPath(to)}) && SameRegistry(s, t) && !call.Unregister?
    ensures Underway(es, t, s0, p, c, crossed, exact && t == s, clean)
    ensures FileStep(Step(call, false, s, t), s0, p, c)
  {
    hide CanonicalPath, Undone, Elsewhere;
  }

  method MoveSibling(w: Machine, r: Registration, dir: Path, item: Path, undo: UndoStack,
                     ghost s0: State, ghost c: Content, ghost crossed: bool, ghost exact: bool, ghost clean: bool)
    returns (ok: bool, ghost exact': bool)
    requires OrdinaryDisk(r)
    requires item == JoinWindows(Base(r), BaseOf(item)) && PlainName(BaseOf(item))
    requires !EqualFold(BaseOf(item), r.key.VhdName())
    requires clean ==> !EqualFold(BaseOf(item), MANIFEST_NAME)
    requires Underway(undo.entries, w.st, s0, PlacesOf(r, dir), c, crossed, exact, clean)
    requires AllAtomic(undo.entries)
    modifies w`st, w`trace, w`answers, undo
    ensures old(w.trace) <= w.trace && Spares(w.trace, |old(w.trace)|, PlacesOf(r, dir))
    ensures forall i :: |old(w.trace)| <= i < |w.trace| ==> FileStep(w.trace[i], s0, PlacesOf(r, dir), c)
    ensures NoCopies(w.trace, |old(w.trace)|) && exact ==> exact'
    ensures w.answers == old(w.answers) + [AskedSameVolume(item, dir, NoCopies(w.trace, |old(w.trace)|))]
    ensures Underway(undo.entries, w.st, s0, PlacesOf(r, dir), c, crossed, exact', clean)
    ensures AllAtomic(undo.entries)
    ensures Advances(old(w.trace), w.trace, old(w.st), w.st, |old(undo.entries)|, |undo.entries|, ok)
    ensures ok ==> Shifted(old(w.st), w.st, item, JoinWindows(dir, BaseOf(item)))
    ensures ok ==>
              && |undo.entries| == |old(undo.entries)| + 1
              && undo.entries == old(undo.entries) + [undo.entries[|old(undo.entries)|]]
              && Undoes(undo.entries[|old(undo.entries)|], w.answers[|old(w.answers)|], item, dir,
                        JoinWindows(dir, BaseOf(item)))
    ensures !ok ==> NotMoved(old(w.st), w.st, old(undo.entries), undo.entries, w.answers[|old(w.answers)|], item, dir,
                             JoinWindows(dir, BaseOf(item)))
  {
    hide CanonicalPath, JoinWindows, TrimPrefix, BaseOf, Effect, Enabled, Underway, Shifted, Kept, SameRegistry,
      SameFilesBut, FileStep, Advances;
    ghost var p := PlacesOf(r, dir);
    var name := BaseOf(item);
    var to := JoinWindows(dir, name);
    ghost var es, s, n := undo.entries, w.st, |w.trace|;
    SiblingElsewhere(Base(r), dir, name, r.key.VhdName());
    if clean {
      SiblingElsewhere(Base(r), dir, name, MANIFEST_NAME);
    }
    assert p.source == JoinWindows(Base(r), r.key.VhdName());
    assert Aside(item, p, clean) && Aside(to, p, clean);
    var placed := MoveOne(w, item, dir, name, undo);
    ok := placed == Renamed || placed == Copied;
    exact' := exact && (placed == Renamed || (placed == NotPlaced && w.st == s));
    match placed
    case Renamed =>
      SiblingRenamed(es, s, s0, p, c, crossed, exact, clean, item, to);
    case NotPlaced =>
      SiblingNotPlaced(es, s, w.st, s0, p, c, crossed, exact, clean, w.trace[n].call, to);
    case _ =>
      SiblingCopied(es, s, s0, p, c, crossed, exact, clean, item, to);
    assert w.trace[n].call.CopySparse? <==> !NoCopies(w.trace, n);
  }

  /* ---- every file that went ---- */

  /** The files of these names have gone from one folder to the other, each with what it held. */
  ghost predicate Arrived(s0: State, s: State, base: Path, dir: Path, names: seq<string>) {
    forall x | x in names :: Went(s0, s, JoinWindows(base, x), JoinWindows(dir, x))
  }

  predicate Went(s0: State, s: State, from: Path, to: Path) {
    s0.Present(from) && !s.Present(from) && s.Holds(to, s0.files[CanonicalPath(from)])
  }

  predicate Touches(f: FileId, base: Path, dir: Path, name: string) {
    f == CanonicalPath(JoinWindows(base, name)) || f == CanonicalPath(JoinWindows(dir, name))
  }

  predicate SameAt(s: State, t: State, f: FileId) {
    (f in s.files <==> f in t.files) && (f in s.files ==> s.files[f] == t.files[f])
  }

  /** No other file is different. */
  ghost predicate OthersStay(s0: State, s: State, base: Path, dir: Path, names: seq<string>) {
    forall f :: (forall x | x in names :: !Touches(f, base, dir, x)) ==> SameAt(s0, s, f)
  }

  /** They are different files, whatever the case of their names. */
  ghost predicate FileNames(names: seq<string>) {
    && (forall i :: 0 <= i < |names| ==> PlainName(names[i]))
    && (forall i, j :: 0 <= i < j < |names| ==> !EqualFold(names[i], names[j]))
  }

  /** One rollback entry for each. */
  ghost predicate UndoesAll(es: seq<Entry>, volumes: seq<Answer>, base: Path, dir: Path, names: seq<string>) {
    && |es| == |names| == |volumes|
    && forall i :: 0 <= i < |es| ==>
         Undoes(es[i], volumes[i], JoinWindows(base, names[i]), dir, JoinWindows(dir, names[i]))
  }

  ghost predicate Gathered(s0: State, s: State, base: Path, dir: Path, names: seq<string>, es: seq<Entry>,
                           volumes: seq<Answer>)
  {
    && FileNames(names) && UndoesAll(es, volumes, base, dir, names)
    && Arrived(s0, s, base, dir, names) && OthersStay(s0, s, base, dir, names)
  }

  lemma OneGathered(s0: State, s: State, base: Path, dir: Path, name: string, e: Entry, v: Answer)
    requires PlainName(name) && Shifted(s0, s, JoinWindows(base, name), JoinWindows(dir, name))
    requires Undoes(e, v, JoinWindows(base, name), dir, JoinWindows(dir, name))
    ensures Gathered(s0, s, base, dir, [name], [e], [v])
  {
    hide CanonicalPath, JoinWindows, EqualFold, PlainName;
    assert name in [name];
  }

  /** A file that is there has not gone yet, so its name is a new one. */
  lemma NewName(s0: State, s: State, base: Path, dir: Path, names: seq<string>, name: string)
    requires FileNames(names) && Arrived(s0, s, base, dir, names) && PlainName(name)
    requires s.Present(JoinWindows(base, name))
    ensures forall x | x in names :: !EqualFold(x, name)
    ensures forall x | x in names ::
              && !SamePath(JoinWindows(base, x), JoinWindows(base, name))
              && !SamePath(JoinWindows(base, x), JoinWindows(dir, name))
              && !SamePath(JoinWindows(dir, x), JoinWindows(base, name))
              && !SamePath(JoinWindows(dir, x), JoinWindows(dir, name))
  {
    hide CanonicalPath, JoinWindows, EqualFold, PlainName;
    forall x | x in names
      ensures !EqualFold(x, name)
      ensures !SamePath(JoinWindows(base, x), JoinWindows(base, name))
      ensures !SamePath(JoinWindows(base, x), JoinWindows(dir, name))
      ensures !SamePath(JoinWindows(dir, x), JoinWindows(base, name))
      ensures !SamePath(JoinWindows(dir, x), JoinWindows(dir, name))
    {
      FoldedNeedsSame(s, base, x, name);
      DifferentNames(base, x, base, name);
      DifferentNames(base, x, dir, name);
      DifferentNames(dir, x, base, name);
      DifferentNames(dir, x, dir, name);
    }
  }

  lemma NewNameToo(s0: State, s: State, t: State, base: Path, dir: Path, names: seq<string>, name: string)
    requires FileNames(names) && Arrived(s0, s, base, dir, names) && PlainName(name)
    requires Shifted(s, t, JoinWindows(base, name), JoinWindows(dir, name))
    ensures FileNames(names + [name])
  {
    NewName(s0, s, base, dir, names, name);
    hide CanonicalPath, JoinWindows, EqualFold, PlainName, Arrived, SameFilesBut;
  }

  lemma FoldedNeedsSame(s: State, base: Path, x: string, name: string)
    requires PlainName(x) && PlainName(name)
    requires !s.Present(JoinWindows(base, x)) && s.Present(JoinWindows(base, name))
    ensures !EqualFold(x, name)
  {
    hide CanonicalPath, JoinWindows, EqualFold, PlainName;
    if EqualFold(x, name) {
      FoldedNameSameFile(base, x, name);
      assert false;
    }
  }

  lemma StillAsItWas(s0: State, s: State, base: Path, dir: Path, names: seq<string>, name: string)
    requires FileNames(names) && Arrived(s0, s, base, dir, names) && OthersStay(s0, s, base, dir, names)
    requires PlainName(name) && s.Present(JoinWindows(base, name))
    ensures s0.Holds(JoinWindows(base, name), s.files[CanonicalPath(JoinWindows(base, name))])
  {
    hide CanonicalPath, JoinWindows, EqualFold, PlainName, FileNames, Arrived;
    NewName(s0, s, base, dir, names, name);
    assert SameAt(s0, s, CanonicalPath(JoinWindows(base, name)));
  }

  lemma StillThere(s0: State, s: State, t: State, base: Path, dir: Path, names: seq<string>, name: string, x: string)
    requires FileNames(names) && Arrived(s0, s, base, dir, names) && x in names && PlainName(name)
    requires Shifted(s, t, JoinWindows(base, name), JoinWindows(dir, name))
    ensures Went(s0, t, JoinWindows(base, x), JoinWindows(dir, x))
  {
    hide CanonicalPath, JoinWindows, EqualFold, PlainName, FileNames;
    NewName(s0, s, base, dir, names, name);
    assert Went(s0, s, JoinWindows(base, x), JoinWindows(dir, x));
  }

  lemma OneMoreArrived(s0: State, s: State, t: State, base: Path, dir: Path, names: seq<string>, name: string)
    requires FileNames(names) && Arrived(s0, s, base, dir, names) && OthersStay(s0, s, base, dir, names)
    requires PlainName(name) && Shifted(s, t, JoinWindows(base, name), JoinWindows(dir, name))
    ensures Arrived(s0, t, base, dir, names + [name])
  {
    hide CanonicalPath, JoinWindows, FileNames, OthersStay, SameFilesBut;
    StillAsItWas(s0, s, base, dir, names, name);
    forall x | x in names + [name] ensures Went(s0, t, JoinWindows(base, x), JoinWindows(dir, x)) {
      if x in names {
        StillThere(s0, s, t, base, dir, names, name, x);
      } else {
        assert x == name;
      }
    }
  }

  lemma OneMoreStays(s0: State, s: State, t: State, base: Path, dir: Path, names: seq<string>, name: string)
    requires OthersStay(s0, s, base, dir, names)
    requires Shifted(s, t, JoinWindows(base, name), JoinWindows(dir, name))
    ensures OthersStay(s0, t, base, dir, names + [name])
  {
    hide CanonicalPath, JoinWindows;
    forall f | forall x | x in names + [name] :: !Touches(f, base, dir, x)
      ensures SameAt(s0, t, f)
    {
      assert forall x | x in names :: x in names + [name];
      assert SameAt(s0, s, f);
      assert name in names + [name] && !Touches(f, base, dir, name);
    }
  }

  lemma OneMoreGathered(s0: State, s: State, t: State, base: Path, dir: Path, names: seq<string>, es: seq<Entry>,
                        volumes: seq<Answer>, name: string, e: Entry, v: Answer)
    requires Gathered(s0, s, base, dir, names, es, volumes) && PlainName(name)
    requires Shifted(s, t, JoinWindows(base, name), JoinWindows(dir, name))
    requires Undoes(e, v, JoinWindows(base, name), dir, JoinWindows(dir, name))
    ensures Gathered(s0, t, base, dir, names + [name], es + [e], volumes + [v])
  {
    hide CanonicalPath, JoinWindows, EqualFold, PlainName, Shifted, Arrived, OthersStay, FileNames, Undoes;
    assert FileNames(names + [name]) by {
      NewNameToo(s0, s, t, base, dir, names, name);
    }
    OneMoreArrived(s0, s, t, base, dir, names, name);
    OneMoreStays(s0, s, t, base, dir, names, name);
  }

  /** A file was copied and its original is still there. */
  ghost predicate Doubled(s0: State, s: State, e: Entry, from: Path, to: Path) {
    && e.call.Remove? && !SamePath(from, to)
    && s0.Present(from) && s.Holds(from, s0.files[CanonicalPath(from)])
  }

  /** As many files have moved as there are entries, but the last may only have been copied. */
  ghost predicate Halted(s0: State, s: State, base: Path, dir: Path, names: seq<string>, es: seq<Entry>,
                         volumes: seq<Answer>)
  {
    && FileNames(names) && UndoesAll(es, volumes, base, dir, names)
    && forall i :: 0 <= i < |names| ==>
         || Went(s0, s, JoinWindows(base, names[i]), JoinWindows(dir, names[i]))
         || (i == |names| - 1 && Doubled(s0, s, es[i], JoinWindows(base, names[i]), JoinWindows(dir, names[i])))
  }

  /** What a failed copy leaves is none of the files that have moved. */
  lemma LeftoverKeeps(s0: State, s: State, t: State, base: Path, dir: Path, x: string, name: string)
    requires PlainName(x) && PlainName(name) && Went(s0, s, JoinWindows(base, x), JoinWindows(dir, x))
    requires SameFilesBut(s, t, {CanonicalPath(JoinWindows(dir, name))})
    requires s.Present(JoinWindows(dir, name)) ==> t == s
    ensures Went(s0, t, JoinWindows(base, x), JoinWindows(dir, x))
  {
    hide CanonicalPath, JoinWindows, EqualFold, PlainName;
    if !s.Present(JoinWindows(dir, name)) {
      if EqualFold(x, name) {
        FoldedNameSameFile(dir, x, name);
        assert false;
      }
      DifferentNames(base, x, dir, name);
      DifferentNames(dir, x, dir, name);
    }
  }

  lemma CopiedKeeps(s0: State, s: State, t: State, base: Path, dir: Path, names: seq<string>, x: string, name: string)
    requires FileNames(names) && Arrived(s0, s, base, dir, names) && PlainName(name) && x in names
    requires var from, to := JoinWindows(base, name), JoinWindows(dir, name);
             Enabled(s, CopySparse(from, to)) && t == Effect(s, CopySparse(from, to))
    ensures Went(s0, t, JoinWindows(base, x), JoinWindows(dir, x)) && !EqualFold(x, name)
  {
    hide CanonicalPath, JoinWindows, EqualFold, PlainName, FileNames;
    NewName(s0, s, base, dir, names, name);
    assert Went(s0, s, JoinWindows(base, x), JoinWindows(dir, x));
  }

  lemma CopiedIsDoubled(s0: State, s: State, t: State, base: Path, dir: Path, names: seq<string>, name: string,
                        e: Entry)
    requires FileNames(names) && Arrived(s0, s, base, dir, names) && OthersStay(s0, s, base, dir, names)
    requires PlainName(name) && e.call.Remove?
    requires var from, to := JoinWindows(base, name), JoinWindows(dir, name);
             Enabled(s, CopySparse(from, to)) && t == Effect(s, CopySparse(from, to))
    ensures Doubled(s0, t, e, JoinWindows(base, name), JoinWindows(dir, name))
  {
    StillAsItWas(s0, s, base, dir, names, name);
    hide CanonicalPath, JoinWindows, FileNames, Arrived, OthersStay;
  }

  lemma HaltedAt(s0: State, s: State, t: State, base: Path, dir: Path, names: seq<string>, es: seq<Entry>,
                 es': seq<Entry>, volumes: seq<Answer>, v: Answer, name: string)
    requires Gathered(s0, s, base, dir, names, es, volumes) && PlainName(name)
    requires NotMoved(s, t, es, es', v, JoinWindows(base, name), dir, JoinWindows(dir, name))
    ensures |es'| <= |names| + 1 == |volumes| + 1
    ensures Halted(s0, t, base, dir, (names + [name])[..|es'|], es', (volumes + [v])[..|es'|])
  {
    hide CanonicalPath, JoinWindows, EqualFold, PlainName, Undoes, Went, Doubled, Effect, Enabled, OthersStay,
      SameFilesBut;
    if es' == es {
      assert (names + [name])[..|es|] == names && (volumes + [v])[..|es|] == volumes;
      forall i | 0 <= i < |names| ensures Went(s0, t, JoinWindows(base, names[i]), JoinWindows(dir, names[i])) {
        assert names[i] in names;
        LeftoverKeeps(s0, s, t, base, dir, names[i], name);
      }
    } else {
      assert (names + [name])[..|es'|] == names + [name] && (volumes + [v])[..|es'|] == volumes + [v];
      forall i | 0 <= i < |names|
        ensures Went(s0, t, JoinWindows(base, names[i]), JoinWindows(dir, names[i])) && !EqualFold(names[i], name)
      {
        CopiedKeeps(s0, s, t, base, dir, names, names[i], name);
      }
      CopiedIsDoubled(s0, s, t, base, dir, names, name, es'[|es|]);
    }
  }

  lemma {:induction false} OthersPrefix(entries: seq<Path>, i: nat, disk: string)
    requires i <= |entries|
    ensures Others(entries[..i], disk) <= Others(entries, disk)
  {
    hide BaseOf, EqualFold;
    if i < |entries| {
      var before := entries[..|entries| - 1];
      OthersPrefix(before, i, disk);
      assert before[..i] == entries[..i];
    } else {
      assert entries[..i] == entries;
    }
  }

  /** The names, among those listed, of what is not the disk. */
  function Others(entries: seq<Path>, disk: string): seq<string> {
    if entries == [] then []
    else
      var name := BaseOf(entries[|entries| - 1]);
      Others(entries[..|entries| - 1], disk) + if EqualFold(name, disk) then [] else [name]
  }

  /** The disk, then what was listed beside it; without a listing, just the disk. */
  function FilesMoved(r: Registration, answer: Answer): seq<string>
    requires answer.AskedList?
  {
    [r.key.VhdName()] + if answer.listed then Others(answer.entries, r.key.VhdName()) else []
  }

  /** The files that are asked about: the disk, and what is listed beside it. */
  function Asked(r: Registration, answers: seq<Answer>, m: nat): seq<string> {
    if |answers| > m + 1 && answers[m + 1].AskedList? then FilesMoved(r, answers[m + 1]) else [r.key.VhdName()]
  }

  /** The stack holds one entry for each of the first files, by what was said of its volume. */
  ghost predicate EntriesFor(es: seq<Entry>, r: Registration, dir: Path, answers: seq<Answer>, m: nat)
    requires m <= |answers|
  {
    && |es| <= |Asked(r, answers, m)| && |es| <= |Volumes(answers[m..])|
    && UndoesAll(es, Volumes(answers[m..])[..|es|], Base(r), dir, Asked(r, answers, m)[..|es|])
  }

  /** What was said of one volume after another. */
  function Volumes(answers: seq<Answer>): seq<Answer> {
    if answers == [] then []
    else
      var last := answers[|answers| - 1];
      Volumes(answers[..|answers| - 1]) + if last.AskedSameVolume? then [last] else []
  }

  lemma {:induction false} VolumesAppend(a: seq<Answer>, b: seq<Answer>)
    ensures Volumes(a + b) == Volumes(a) + Volumes(b)
  {
    if b == [] {
      assert a + b == a;
    } else {
      var last := |b| - 1;
      VolumesAppend(a, b[..last]);
      assert (a + b)[..|a + b| - 1] == a + b[..last];
    }
  }

  lemma VolumesJoin(a: seq<Answer>, b: seq<Answer>, m: nat)
    requires m <= |a| && a <= b
    ensures Volumes(b[m..]) == Volumes(a[m..]) + Volumes(b[|a|..])
  {
    VolumesAppend(a[m..], b[|a|..]);
    assert a[m..] + b[|a|..] == b[m..];
  }

  /** What was asked and done so far, and what was asked and done then. */
  lemma OneVolumeJoin(a: seq<Answer>, b: seq<Answer>, m: nat, before: seq<Step>, after: seq<Step>, n: nat)
    requires m <= |a| && a <= b && n <= |before| && before <= after
    requires OneVolume(a, m) ==> NoCopies(before, n)
    requires OneVolume(b, |a|) ==> NoCopies(after, |before|)
    ensures OneVolume(b, m) ==> NoCopies(after, n)
  {
    if OneVolume(b, m) {
      forall i | m <= i < |a| && a[i].AskedSameVolume? ensures a[i].same {
        assert b[i] == a[i];
      }
      forall i | n <= i < |after| ensures !after[i].call.CopySparse? {
        assert i < |before| ==> after[i] == before[i];
      }
    }
  }

  lemma OneQuestion(b: seq<Answer>, after: seq<Step>, n: nat)
    requires b != [] && b[|b| - 1].AskedSameVolume? ==> b[|b| - 1].same == NoCopies(after, n)
    requires b != [] && b[|b| - 1].AskedList? ==> |after| == n
    ensures b != [] && OneVolume(b, |b| - 1) && !b[|b| - 1].AskedExists? ==> NoCopies(after, n)
    ensures b != [] ==> Volumes(b[|b| - 1..]) == if b[|b| - 1].AskedSameVolume? then [b[|b| - 1]] else []
  {
    if b != [] {
      var last := b[|b| - 1];
      assert b[|b| - 1..] == [last];
      assert Volumes([last]) == Volumes([]) + if last.AskedSameVolume? then [last] else [];
    }
  }

  lemma OneMoreAsked(a: seq<Answer>, b: seq<Answer>, m: nat, before: seq<Step>, after: seq<Step>, n: nat,
                     said: seq<Answer>, volumes: seq<Answer>)
    requires m <= |a| && |b| == |a| + 1 && a <= b && n <= |before| && before <= after
    requires b[|a|].AskedSameVolume? && b[|a|].same == NoCopies(after, |before|)
    requires OneVolume(a, m) ==> NoCopies(before, n)
    requires said == volumes + Volumes(a[m..])
    ensures OneVolume(b, m) ==> NoCopies(after, n)
    ensures said + [b[|a|]] == volumes + Volumes(b[m..])
  {
    OneQuestion(b, after, |before|);
    OneVolumeJoin(a, b, m, before, after, n);
    VolumesJoin(a, b, m);
  }

  lemma OneMoreOther(first: seq<string>, entries: seq<Path>, i: nat, disk: string)
    requires i < |entries|
    ensures first + Others(entries[..i + 1], disk)
            == first + Others(entries[..i], disk)
               + if EqualFold(BaseOf(entries[i]), disk) then [] else [BaseOf(entries[i])]
  {
    hide BaseOf, EqualFold;
    assert entries[..i + 1][..i] == entries[..i];
  }

  ghost predicate HaltedAmong(s0: State, s: State, r: Registration, dir: Path, files: seq<string>, es: seq<Entry>,
                              volumes: seq<Answer>)
  {
    && |es| <= |files| && |es| <= |volumes|
    && Halted(s0, s, Base(r), dir, files[..|es|], es, volumes[..|es|])
  }

  lemma HaltedThere(s0: State, s: State, t: State, r: Registration, dir: Path, first: seq<string>, entries: seq<Path>,
                    i: nat, es: seq<Entry>, es': seq<Entry>, volumes: seq<Answer>, v: Answer)
    requires i < |entries| && !EqualFold(BaseOf(entries[i]), r.key.VhdName())
    requires entries[i] == JoinWindows(Base(r), BaseOf(entries[i])) && PlainName(BaseOf(entries[i]))
    requires Gathered(s0, s, Base(r), dir, first + Others(entries[..i], r.key.VhdName()), es, volumes)
    requires NotMoved(s, t, es, es', v, entries[i], dir, JoinWindows(dir, BaseOf(entries[i])))
    ensures HaltedAmong(s0, t, r, dir, first + Others(entries, r.key.VhdName()), es', volumes + [v])
  {
    hide CanonicalPath, JoinWindows, EqualFold, PlainName, BaseOf, TrimPrefix, Others, NotMoved, Gathered, Halted;
    var disk := r.key.VhdName();
    var names, name, all := first + Others(entries[..i], disk), BaseOf(entries[i]), first + Others(entries, disk);
    HaltedAt(s0, s, t, Base(r), dir, names, es, es', volumes, v, name);
    OneMoreOther(first, entries, i, disk);
    OthersPrefix(entries, i + 1, disk);
    assert names + [name] <= all;
    assert (names + [name])[..|es'|] == all[..|es'|];
  }

  /** What is listed beside the disk, one file after another until one of them fails. */
  method MoveSiblings(w: Machine, r: Registration, dir: Path, entries: seq<Path>, undo: UndoStack, first: seq<string>,
                      ghost s0: State, ghost c: Content, ghost crossed: bool, ghost exact: bool, ghost clean: bool,
                      ghost volumes: seq<Answer>)
    returns (ok: bool, moved: seq<string>, ghost exact': bool)
    requires OrdinaryDisk(r) && AllAtomic(undo.entries)
    requires forall e | e in entries :: e == JoinWindows(Base(r), BaseOf(e)) && PlainName(BaseOf(e))
    requires clean ==> forall e | e in entries :: !EqualFold(BaseOf(e), MANIFEST_NAME)
    requires Underway(undo.entries, w.st, s0, PlacesOf(r, dir), c, crossed, exact, clean)
    requires Gathered(s0, w.st, Base(r), dir, first, undo.entries, volumes)
    modifies w`st, w`trace, w`answers, undo
    ensures old(w.trace) <= w.trace && Spares(w.trace, |old(w.trace)|, PlacesOf(r, dir))
    ensures forall i :: |old(w.trace)| <= i < |w.trace| ==> FileStep(w.trace[i], s0, PlacesOf(r, dir), c)
    ensures NoCopies(w.trace, |old(w.trace)|) && exact ==> exact'
    ensures old(w.answers) <= w.answers
    ensures OneVolume(w.answers, |old(w.answers)|) ==> NoCopies(w.trace, |old(w.trace)|)
    ensures Underway(undo.entries, w.st, s0, PlacesOf(r, dir), c, crossed, exact', clean)
    ensures AllAtomic(undo.entries)
    ensures Advances(old(w.trace), w.trace, old(w.st), w.st, |old(undo.entries)|, |undo.entries|, ok)
    ensures ok ==>
              && moved == first + Others(entries, r.key.VhdName())
              && Gathered(s0, w.st, Base(r), dir, moved, undo.entries, volumes + Volumes(w.answers[|old(w.answers)|..]))
    ensures !ok ==> HaltedAmong(s0, w.st, r, dir, first + Others(entries, r.key.VhdName()), undo.entries,
                                volumes + Volumes(w.answers[|old(w.answers)|..]))
  {
    hide CanonicalPath, JoinWindows, TrimPrefix, BaseOf, EqualFold, Effect, Enabled, Undone, Elsewhere, Underway,
      Gathered, FileStep, NoCopies, OneVolume, Spares, OrdinaryDisk, Shifted, Undoes, PlainName, Others, Volumes,
      NotMoved, HaltedAmong, Advances;
    ghost var p, n, m := PlacesOf(r, dir), |w.trace|, |w.answers|;
    ok, moved, exact' := true, first, exact;
    ghost var said := volumes;
    assert w.answers[m..] == [];
    NothingYet(w.answers, w.trace, p, r.key.VhdName());
    AdvancesNot(w.trace, w.st, |undo.entries|);
    assert entries[..0] == [];
    var i := 0;
    while ok && i < |entries|
      invariant 0 <= i <= |entries|
      invariant old(w.trace) <= w.trace && old(w.answers) <= w.answers
      invariant Spares(w.trace, n, p)
      invariant forall k :: n <= k < |w.trace| ==> FileStep(w.trace[k], s0, p, c)
      invariant NoCopies(w.trace, n) && exact ==> exact'
      invariant OneVolume(w.answers, m) ==> NoCopies(w.trace, n)
      invariant Underway(undo.entries, w.st, s0, p, c, crossed, exact', clean)
      invariant AllAtomic(undo.entries)
      invariant Advances(old(w.trace), w.trace, old(w.st), w.st, |old(undo.entries)|, |undo.entries|, ok)
      invariant ok ==> moved == first + Others(entries[..i], r.key.VhdName())
      invariant said == volumes + Volumes(w.answers[m..])
      invariant ok ==> Gathered(s0, w.st, Base(r), dir, moved, undo.entries, said)
      invariant !ok ==> HaltedAmong(s0, w.st, r, dir, first + Others(entries, r.key.VhdName()), undo.entries, said)
    {
      var name := BaseOf(entries[i]);
      assert entries[i] in entries;
      OneMoreOther(first, entries, i, r.key.VhdName());
      if !EqualFold(name, r.key.VhdName()) {
        ghost var s, before, asked, es := w.st, w.trace, w.answers, undo.entries;
        ok, exact' := MoveSibling(w, r, dir, entries[i], undo, s0, c, crossed, exact', clean);
        ghost var v := w.answers[|asked|];
        AdvancesOn(old(w.trace), before, w.trace, old(w.st), s, w.st, |old(undo.entries)|, |es|, |undo.entries|, ok);
        OneMoreAsked(asked, w.answers, m, before, w.trace, n, said, volumes);
        StepsSplit(before, w.trace, n, p);
        if ok {
          OneMoreGathered(s0, s, w.st, Base(r), dir, moved, es, said, name, undo.entries[|es|], v);
          moved := moved + [name];
        } else {
          HaltedThere(s0, s, w.st, r, dir, first, entries, i, es, undo.entries, said, v);
        }
        said := said + [v];
      }
      i := i + 1;
    }
    assert entries[..|entries|] == entries;
  }

  lemma NothingYet(answers: seq<Answer>, trace: seq<Step>, p: Places, disk: string)
    ensures Volumes([]) == [] && Others([], disk) == []
    ensures NoCopies(trace, |trace|) && OneVolume(answers, |answers|) && Spares(trace, |trace|, p)
  {
  }

  lemma StepsSplit(before: seq<Step>, after: seq<Step>, n: nat, p: Places)
    requires before <= after && n <= |before|
    ensures NoCopies(after, n) <==> NoCopies(before, n) && NoCopies(after, |before|)
    ensures Spares(after, n, p) <==> Spares(before, n, p) && Spares(after, |before|, p)
  {
    forall i | 0 <= i < |before| ensures after[i] == before[i] {
    }
  }

  /** The disk first, then anything WSL left beside it. `crossed` says the disk was copied and its
      original deleted; `exact` that everything done so far was a rename. */
  method MoveIntoTrash(w: Machine, r: Registration, dir: Path, undo: UndoStack, ghost c: Content)
    returns (ok: bool, moved: seq<string>, ghost crossed: bool, ghost exact: bool)
    requires OrdinaryDisk(r) && w.st.Holds(r.key.VhdPath(), c) && undo.entries == []
    modifies w`st, w`trace, w`answers, undo
    ensures old(w.trace) <= w.trace && old(w.answers) <= w.answers
    ensures forall i :: |old(w.trace)| <= i < |w.trace| ==> FileStep(w.trace[i], old(w.st), PlacesOf(r, dir), c)
    ensures NoCopies(w.trace, |old(w.trace)|) ==> exact
    ensures OneVolume(w.answers, |old(w.answers)|) ==> NoCopies(w.trace, |old(w.trace)|)
    ensures crossed <==> Crossed(w.trace, |old(w.trace)|, PlacesOf(r, dir))
    ensures crossed ==> |w.answers| > |old(w.answers)|
                        && w.answers[|old(w.answers)|] == AskedSameVolume(r.key.VhdPath(), dir, false)
    ensures var clean := !old(w.st).Present(JoinWindows(Base(r), MANIFEST_NAME));
            || Underway(undo.entries, w.st, old(w.st), PlacesOf(r, dir), c, crossed, exact, clean)
            || (!ok && !crossed && NotYet(undo.entries, w.st, old(w.st), PlacesOf(r, dir), c, exact))
    ensures AllAtomic(undo.entries)
    ensures ok ==>
              && |w.answers| > |old(w.answers)| + 1 && var answer := w.answers[|old(w.answers)| + 1];
              && answer.AskedList? && answer.dir == Base(r) && moved == FilesMoved(r, answer)
              && Gathered(old(w.st), w.st, Base(r), dir, moved, undo.entries, Volumes(w.answers[|old(w.answers)|..]))
    ensures Advances(old(w.trace), w.trace, old(w.st), w.st, 0, |undo.entries|, ok)
    ensures EntriesFor(undo.entries, r, dir, w.answers, |old(w.answers)|)
    ensures !ok && |undo.entries| > 1 ==>
              && |w.answers| > |old(w.answers)| + 1 && var answer := w.answers[|old(w.answers)| + 1];
              && answer.AskedList? && answer.dir == Base(r)
              && HaltedAmong(old(w.st), w.st, r, dir, FilesMoved(r, answer), undo.entries,
                             Volumes(w.answers[|old(w.answers)|..]))
  {
    hide CanonicalPath, JoinWindows, TrimPrefix, BaseOf, EqualFold, Effect, Enabled, Undone, Elsewhere, HaltedAmong,
      Underway, NotYet, Gathered, FileStep, Crossed, NoCopies, OneVolume, Spares, OrdinaryDisk, Volumes, Advances,
      EntriesFor;
    ghost var p := PlacesOf(r, dir);
    ghost var s0, n, m := w.st, |w.trace|, |w.answers|;
    ghost var clean := !s0.Present(JoinWindows(Base(r), MANIFEST_NAME));
    var first;
    first, exact := MoveDisk(w, r, dir, undo, c);
    crossed := first == Copied;
    DiskDecides(w.answers, m, w.trace, n, p, dir);
    OneQuestion(w.answers, w.trace, n);
    if first == NotPlaced || first == CopiedOnly {
      DiskEntry(undo.entries, r, dir, w.answers, m, NoCopies(w.trace, n));
    }
    if first == NotPlaced || first == CopiedOnly {
      return false, [], crossed, exact;
    }
    moved := [r.key.VhdName()];
    DiskGathered(s0, w.st, r, dir, undo.entries, w.answers[m], c, crossed, exact, clean);
    ghost var trace, volume := w.trace, w.answers;
    var listed, entries := w.List(Base(r));
    OneQuestion(w.answers, w.trace, |trace|);
    OneVolumeJoin(volume, w.answers, m, trace, trace, n);
    VolumesJoin(volume, w.answers, m);
    assert Volumes(w.answers[m..]) == [w.answers[m]];
    ok := true;
    if !listed {
      GatheredEntries(s0, w.st, r, dir, moved, undo.entries, w.answers, m);
      return;
    }
    ghost var s1, k := w.st, |undo.entries|;
    StillClean(s0, w.st, r, dir, clean, entries);
    ghost var asked := w.answers;
    ok, moved, exact :=
      MoveSiblings(w, r, dir, entries, undo, moved, s0, c, crossed, exact, clean, Volumes(asked[m..]));
    OneVolumeJoin(asked, w.answers, m, trace, w.trace, n);
    VolumesJoin(asked, w.answers, m);
    CrossedStays(trace, w.trace, n, p);
    StepsSplit(trace, w.trace, n, p);
    AdvancesOn(old(w.trace), trace, w.trace, s0, s1, w.st, 0, k, |undo.entries|, ok);
    if ok {
      GatheredEntries(s0, w.st, r, dir, moved, undo.entries, w.answers, m);
    } else {
      HaltedEntries(s0, w.st, r, dir, undo.entries, w.answers, m);
    }
  }

  lemma DiskEntry(es: seq<Entry>, r: Registration, dir: Path, answers: seq<Answer>, m: nat, same: bool)
    requires |answers| == m + 1 && answers[m] == AskedSameVolume(r.key.VhdPath(), dir, same)
    requires es == [] || (!same && es == [Entry(Remove(PlacesOf(r, dir).trash), false)])
    requires Volumes(answers[m..]) == [answers[m]] && OrdinaryDisk(r)
    ensures EntriesFor(es, r, dir, answers, m)
  {
    hide CanonicalPath, JoinWindows, TrimPrefix, Volumes;
    assert r.key.VhdPath() == JoinWindows(Base(r), r.key.VhdName());
  }

  lemma GatheredEntries(s0: State, s: State, r: Registration, dir: Path, names: seq<string>, es: seq<Entry>,
                        answers: seq<Answer>, m: nat)
    requires |answers| > m + 1 && answers[m + 1].AskedList? && names == FilesMoved(r, answers[m + 1])
    requires Gathered(s0, s, Base(r), dir, names, es, Volumes(answers[m..]))
    ensures EntriesFor(es, r, dir, answers, m)
  {
    hide CanonicalPath, JoinWindows, TrimPrefix, Volumes, FilesMoved, Arrived, OthersStay, FileNames, Undoes;
    assert names[..|es|] == names && Volumes(answers[m..])[..|es|] == Volumes(answers[m..]);
  }

  lemma HaltedEntries(s0: State, s: State, r: Registration, dir: Path, es: seq<Entry>, answers: seq<Answer>, m: nat)
    requires |answers| > m + 1 && answers[m + 1].AskedList?
    requires HaltedAmong(s0, s, r, dir, FilesMoved(r, answers[m + 1]), es, Volumes(answers[m..]))
    ensures EntriesFor(es, r, dir, answers, m)
  {
    hide CanonicalPath, JoinWindows, TrimPrefix, Volumes, FilesMoved, FileNames, Undoes, Went, Doubled;
  }

  /** The answer about the disk's volume is the first, and it decides whether the disk is copied. */
  lemma DiskDecides(answers: seq<Answer>, m: nat, trace: seq<Step>, n: nat, p: Places, dir: Path)
    requires |answers| == m + 1 && answers[m] == AskedSameVolume(p.source, dir, NoCopies(trace, n))
    ensures OneVolume(answers, m) ==> NoCopies(trace, n)
    ensures Crossed(trace, n, p) ==> answers[m] == AskedSameVolume(p.source, dir, false)
  {
  }

  lemma DiskGathered(s0: State, s: State, r: Registration, dir: Path, es: seq<Entry>, v: Answer, c: Content,
                     crossed: bool, exact: bool, clean: bool)
    requires OrdinaryDisk(r) && |es| == 1 && Underway(es, s, s0, PlacesOf(r, dir), c, crossed, exact, true)
    requires Shifted(s0, s, r.key.VhdPath(), PlacesOf(r, dir).trash)
    requires v == AskedSameVolume(r.key.VhdPath(), dir, !crossed)
    ensures Underway(es, s, s0, PlacesOf(r, dir), c, crossed, exact, clean)
    ensures Gathered(s0, s, Base(r), dir, [r.key.VhdName()], es, [v])
  {
    hide CanonicalPath, JoinWindows, TrimPrefix, EqualFold, Undone, Elsewhere, Gathered, Shifted;
    assert PlacesOf(r, dir).source == JoinWindows(Base(r), r.key.VhdName());
    OneGathered(s0, s, Base(r), dir, r.key.VhdName(), es[0], v);
    assert es == [es[0]];
  }

  /** Moving the disk has put nothing called like the manifest beside it. */
  lemma StillClean(s0: State, s: State, r: Registration, dir: Path, clean: bool, entries: seq<Path>)
    requires OrdinaryDisk(r) && forall e | e in entries :: Listed(s, Base(r), e)
    requires clean ==> !s0.Present(JoinWindows(Base(r), MANIFEST_NAME))
    requires SameFilesBut(s0, s, {CanonicalPath(r.key.VhdPath()), CanonicalPath(PlacesOf(r, dir).trash)})
    ensures clean ==> forall e | e in entries :: !EqualFold(BaseOf(e), MANIFEST_NAME)
    ensures forall e | e in entries :: e == JoinWindows(Base(r), BaseOf(e)) && PlainName(BaseOf(e))
  {
    hide CanonicalPath, JoinWindows, TrimPrefix, BaseOf;
    if clean {
      SiblingElsewhere(Base(r), dir, r.key.VhdName(), MANIFEST_NAME);
      assert PlainName(MANIFEST_NAME);
      forall e | e in entries ensures !EqualFold(BaseOf(e), MANIFEST_NAME) {
        if EqualFold(BaseOf(e), MANIFEST_NAME) {
          FoldedNameSameFile(Base(r), BaseOf(e), MANIFEST_NAME);
        }
      }
    }
  }

  /* ---- unwinding ---- */

  ghost predicate BackStep(step: Step, s0: State, p: Places, c: Content, crossed: bool) {
    && (Kept(step.after, p, c) || (crossed && step.call == Remove(p.trash)))
    && SameRegistry(s0, step.after) && !step.call.Unregister? && !Transfers(step.call, p)
  }

  /** A copy, or the deletion of the original. */
  predicate Transfers(call: Call, p: Places) {
    call.CopySparse? || call == Remove(p.source)
  }

  /** A rollback keeps the disk unless it had been copied: then the rollback of the copy deletes the
      only disk there is. */
  lemma UnwindTrash(es: seq<Entry>, oks: seq<bool>, s: State, s0: State, p: Places, c: Content,
                    crossed: bool, exact: bool, clean: bool)
    requires Underway(es, s, s0, p, c, crossed, exact, clean)
    requires |oks| == |es| && Answers(es, oks, false, s)
    ensures var t := After(es, oks, s);
            && SameRegistry(s0, t)
            && (if crossed && oks[0] then !t.Present(p.source) && !t.Present(p.trash) else Kept(t, p, c))
            && (exact && AllOk(oks) ==> t == s0)
    ensures forall step | step in Steps(es, oks, false, s) :: BackStep(step, s0, p, c, crossed)
  {
    StepCalls(es, oks, false, s);
    NoneTransfers(es, p);
    if crossed {
      UnwindCrossed(es, oks, s, s0, p, c, clean);
    } else {
      UnwindRenamed(es, oks, s, s0, p, c, exact, clean);
    }
    hide Steps, Answers, Undone, CanonicalPath;
    if exact && AllOk(oks) {
      AllOkIsUndone(es, oks, s);
    }
  }

  lemma NoneTransfers(es: seq<Entry>, p: Places)
    requires es != [] && (es[0].call == Remove(p.trash) || es[0].call == Rename(p.trash, p.source))
    requires p.source != p.trash
    requires forall i :: 1 <= i < |es| ==> Elsewhere(es[i], {CanonicalPath(p.source), CanonicalPath(p.trash)})
    ensures forall e | e in es :: !e.call.Unregister? && !Transfers(e.call, p)
  {
    hide CanonicalPath;
  }

  lemma UnwindRenamed(es: seq<Entry>, oks: seq<bool>, s: State, s0: State, p: Places, c: Content,
                      exact: bool, clean: bool)
    requires Underway(es, s, s0, p, c, false, exact, clean)
    requires |oks| == |es| && Answers(es, oks, false, s)
    ensures Kept(After(es, oks, s), p, c) && SameRegistry(s0, After(es, oks, s))
    ensures forall step | step in Steps(es, oks, false, s) :: Kept(step.after, p, c) && SameRegistry(s0, step.after)
  {
    hide CanonicalPath, Undone;
    UnwindKeeps(es, oks, false, s, x => Kept(x, p, c) && SameRegistry(s0, x));
  }

  lemma UnwindCrossed(es: seq<Entry>, oks: seq<bool>, s: State, s0: State, p: Places, c: Content, clean: bool)
    requires Underway(es, s, s0, p, c, true, false, clean)
    requires |oks| == |es| && Answers(es, oks, false, s)
    ensures var t := After(es, oks, s);
            && SameRegistry(s0, t)
            && (if oks[0] then !t.Present(p.source) && !t.Present(p.trash) else Kept(t, p, c))
    ensures forall step | step in Steps(es, oks, false, s) ::
              SameRegistry(s0, step.after) && (Kept(step.after, p, c) || step.call == Remove(p.trash))
  {
    hide CanonicalPath, Undone;
    UnwindKeeps(es, oks[1..], false, s, x => InTrash(x, p, c) && SameRegistry(s0, x));
    var last := Step(es[0].call, oks[0], After(es, oks[1..], s), After(es, oks, s));
    assert Steps(es, oks, false, s) == Steps(es, oks[1..], false, s) + [last];
  }

  /** Before anything has been taken away, a rollback cannot lose it. */
  lemma UnwindNotYet(es: seq<Entry>, oks: seq<bool>, s: State, s0: State, p: Places, c: Content, exact: bool)
    requires NotYet(es, s, s0, p, c, exact)
    requires |oks| == |es| && Answers(es, oks, false, s)
    ensures Kept(After(es, oks, s), p, c) && SameRegistry(s0, After(es, oks, s))
    ensures exact ==> After(es, oks, s) == s0
    ensures forall step | step in Steps(es, oks, false, s) :: BackStep(step, s0, p, c, false)
  {
    hide CanonicalPath;
    StepCalls(es, oks, false, s);
    UnwindKeeps(es, oks, false, s, (x: State) => x.Holds(p.source, c) && SameRegistry(s0, x));
  }

  /** What a rollback has made of one file that had moved: it is still in the trash if its undo
      failed; otherwise it is back if it was renamed, and gone if it was copied. */
  predicate Undid(s0: State, s: State, volume: Answer, ok: bool, from: Path, to: Path) {
    if !ok then Went(s0, s, from, to)
    else if volume.AskedSameVolume? && volume.same then
      s0.Present(from) && s.Holds(from, s0.files[CanonicalPath(from)]) && !s.Present(to)
    else !s.Present(from) && !s.Present(to)
  }

  /** The entries of the other files leave this one alone. */
  lemma EntryKeeps(e: Entry, v: Answer, u: State, base: Path, dir: Path, other: string, name: string)
    requires PlainName(other) && PlainName(name) && !EqualFold(other, name)
    requires Undoes(e, v, JoinWindows(base, other), dir, JoinWindows(dir, other)) && Enabled(u, e.call)
    ensures SameAt(u, Effect(u, e.call), CanonicalPath(JoinWindows(base, name)))
    ensures SameAt(u, Effect(u, e.call), CanonicalPath(JoinWindows(dir, name)))
  {
    hide CanonicalPath, JoinWindows, EqualFold, PlainName;
    DifferentNames(base, other, base, name);
    DifferentNames(base, other, dir, name);
    DifferentNames(dir, other, base, name);
    DifferentNames(dir, other, dir, name);
  }

  /** Its own entry puts it back, or deletes it. */
  lemma EntryUndoes(e: Entry, v: Answer, s0: State, u: State, from: Path, dir: Path, to: Path)
    requires Undoes(e, v, from, dir, to) && Went(s0, u, from, to) && Enabled(u, e.call)
    ensures Undid(s0, Effect(u, e.call), v, true, from, to)
  {
    hide CanonicalPath;
  }

  /** Each file's fate hangs on its own entry alone. */
  lemma {:induction false} Fate(es: seq<Entry>, oks: seq<bool>, volumes: seq<Answer>, s0: State, s: State,
                                base: Path, dir: Path, names: seq<string>, i: nat)
    requires FileNames(names) && UndoesAll(es, volumes, base, dir, names)
    requires |oks| <= |es| && Answers(es, oks, false, s) && i < |es|
    requires Went(s0, s, JoinWindows(base, names[i]), JoinWindows(dir, names[i]))
    ensures var h := |es| - |oks|;
            Undid(s0, After(es, oks, s), volumes[i], i >= h && oks[i - h],
                  JoinWindows(base, names[i]), JoinWindows(dir, names[i]))
    decreases |oks|
  {
    hide CanonicalPath, JoinWindows, EqualFold, PlainName, Effect, Enabled, Undoes;
    if oks != [] {
      var h := |es| - |oks|;
      var from, to := JoinWindows(base, names[i]), JoinWindows(dir, names[i]);
      Fate(es, oks[1..], volumes, s0, s, base, dir, names, i);
      var u := After(es, oks[1..], s);
      assert Undoes(es[h], volumes[h], JoinWindows(base, names[h]), dir, JoinWindows(dir, names[h]));
      if oks[0] {
        if i == h {
          EntryUndoes(es[h], volumes[h], s0, u, from, dir, to);
        } else {
          OtherName(names, h, i);
          EntryKeeps(es[h], volumes[h], u, base, dir, names[h], names[i]);
        }
      }
    }
  }

  /** Where the rollback of a move that stopped halfway leaves each file; the last may be where it was. */
  ghost predicate HalfUndid(s0: State, s: State, volumes: seq<Answer>, oks: seq<bool>, base: Path, dir: Path,
                            files: seq<string>)
  {
    && |oks| <= |files| && |oks| <= |volumes|
    && forall i :: 0 <= i < |oks| ==>
         var from := JoinWindows(base, files[i]);
         || Undid(s0, s, volumes[i], oks[i], from, JoinWindows(dir, files[i]))
         || (i == |oks| - 1 && s0.Present(from) && s.Holds(from, s0.files[CanonicalPath(from)]))
  }

  lemma DoubledStays(es: seq<Entry>, oks: seq<bool>, volumes: seq<Answer>, s0: State, s: State,
                     base: Path, dir: Path, names: seq<string>, i: nat)
    requires FileNames(names) && UndoesAll(es, volumes, base, dir, names)
    requires |oks| == |es| && Answers(es, oks, false, s) && i < |es|
    requires Doubled(s0, s, es[i], JoinWindows(base, names[i]), JoinWindows(dir, names[i]))
    ensures After(es, oks, s).Holds(JoinWindows(base, names[i]), s0.files[CanonicalPath(JoinWindows(base, names[i]))])
  {
    hide CanonicalPath, JoinWindows, EqualFold, PlainName, FileNames;
    var from, to := JoinWindows(base, names[i]), JoinWindows(dir, names[i]);
    var c := s0.files[CanonicalPath(from)];
    forall h, x: State | 0 <= h < |es| && x.Holds(from, c) && Enabled(x, es[h].call)
      ensures Effect(x, es[h].call).Holds(from, c)
    {
      assert Undoes(es[h], volumes[h], JoinWindows(base, names[h]), dir, JoinWindows(dir, names[h]));
      if h != i {
        OtherName(names, h, i);
        EntryKeeps(es[h], volumes[h], x, base, dir, names[h], names[i]);
      }
    }
    hide Effect, Enabled, Undoes;
    UnwindKeeps(es, oks, false, s, (x: State) => x.Holds(from, c));
  }

  lemma HaltedBack(es: seq<Entry>, oks: seq<bool>, volumes: seq<Answer>, s0: State, s: State, r: Registration,
                   dir: Path, files: seq<string>)
    requires HaltedAmong(s0, s, r, dir, files, es, volumes)
    requires |oks| == |es| && Answers(es, oks, false, s)
    ensures HalfUndid(s0, After(es, oks, s), volumes, oks, Base(r), dir, files)
    ensures FilesLeft(MoveFailed(oks), s0, After(es, oks, s), Base(r), dir, files, volumes)
  {
    hide CanonicalPath, JoinWindows, TrimPrefix, After, Answers, Undid, Went, FileNames, UndoesAll;
    var names, vs := files[..|es|], volumes[..|es|];
    forall i | 0 <= i < |oks|
      ensures var from := JoinWindows(Base(r), files[i]);
              || Undid(s0, After(es, oks, s), volumes[i], oks[i], from, JoinWindows(dir, files[i]))
              || (i == |oks| - 1 && s0.Present(from) && After(es, oks, s).Holds(from, s0.files[CanonicalPath(from)]))
    {
      assert names[i] == files[i] && vs[i] == volumes[i];
      if Went(s0, s, JoinWindows(Base(r), names[i]), JoinWindows(dir, names[i])) {
        Fate(es, oks, vs, s0, s, Base(r), dir, names, i);
      } else {
        DoubledStays(es, oks, vs, s0, s, Base(r), dir, names, i);
      }
    }
  }

  lemma OtherName(names: seq<string>, h: nat, i: nat)
    requires FileNames(names) && h < |names| && i < |names| && h != i
    ensures PlainName(names[h]) && PlainName(names[i]) && !EqualFold(names[h], names[i])
  {
    hide EqualFold, PlainName;
    if i < h {
      FoldSymmetric(names[h], names[i]);
    }
  }

  lemma FoldSymmetric(a: string, b: string)
    ensures EqualFold(a, b) == EqualFold(b, a)
  {
  }

  /* ---- the whole operation ---- */

  datatype TrashOutcome =
    | NotRead
    | NotFreed
    | MoveFailed(rolledBack: seq<bool>)
    | ManifestFailed(rolledBack: seq<bool>)
    | UnregisterFailed(rolledBack: seq<bool>, noteRemoved: bool)
    | Trashed(manifest: Manifest)

  predicate RollsBack(o: TrashOutcome) {
    o.MoveFailed? || o.ManifestFailed? || o.UnregisterFailed?
  }

  /** No other distribution answers to the name. */
  ghost predicate SoleName(s: State, r: Registration) {
    forall g :: Named(s, g, r.key.Name()) ==> g == r.guid
  }

  ghost predicate Describes(m: Manifest, s0: State, r: Registration) {
    && m.registration == r && m.vhdFile == r.key.VhdName()
    && m.wasDefault == (s0.default.Some? && EqualFold(s0.default.value, r.guid))
    && m.files != [] && m.files[0] == m.vhdFile
  }

  /** What every step leaves, and what unregistering finds. */
  ghost predicate TrashStep(step: Step, s0: State, r: Registration, p: Places, c: Content, crossed: bool) {
    && (Kept(step.after, p, c) || (crossed && (step.call == Remove(p.trash) || !Kept(step.before, p, c))))
    && (SameRegistry(s0, step.after) || (step.call.Unregister? && step.ok))
    && (step.call.Unregister? ==>
          && InTrash(step.before, p, c)
          && step.before.Present(p.note)
          && var note := step.before.files[CanonicalPath(p.note)];
             note.TrashNote? && Describes(note.manifest, s0, r))
  }

  /** Everything but the manifest is where it was. */
  ghost predicate BackButNote(s0: State, s: State, p: Places) {
    SameFilesBut(s0, s, {CanonicalPath(p.note)}) && SameRegistry(s0, s)
  }

  /** From step `b` on, where the stack is `es`: the manifest, the unregister, or a rollback of all there is
      to be undone, and after a refused unregister the removal of the manifest. */
  ghost predicate Ends(o: TrashOutcome, trace: seq<Step>, b: nat, es: seq<Entry>, s: State, note: Path) {
    match o
    case NotRead => true
    case NotFreed => true
    case MoveFailed(oks) => Unwound(trace, b, es, oks, false, s)
    case ManifestFailed(oks) =>
      && b < |trace| && WritesNote(trace[b], note) && !trace[b].ok
      && Unwound(trace, b + 1, es, oks, false, trace[b].after)
    case UnregisterFailed(oks, removed) =>
      && b + 2 < |trace| && WritesNote(trace[b], note) && trace[b].ok
      && trace[b + 1].call.Unregister? && !trace[b + 1].ok
      && Unwound(trace[..|trace| - 1], b + 2, es, oks, false, trace[b + 1].after)
      && trace[|trace| - 1].call == Remove(note) && trace[|trace| - 1].ok == removed
    case Trashed(m) =>
      && |trace| == b + 2 && trace[b].call == WriteFile(note, TrashNote(m)) && trace[b].ok
      && trace[b + 1].call.Unregister? && trace[b + 1].ok
  }

  predicate WritesNote(step: Step, note: Path) {
    step.call.WriteFile? && step.call.path == note
  }

  ghost predicate TrashLeaves(o: TrashOutcome, s0: State, s: State, r: Registration, p: Places, c: Content,
                              crossed: bool, exact: bool, clean: bool)
  {
    // The disk survives every outcome but one: copied, and then rolled back.
    && (Kept(s, p, c) <==> !(crossed && RollsBack(o) && o.rolledBack != [] && o.rolledBack[0]))
    && match o
       case NotRead => s == s0
       case NotFreed => s == s0
       case MoveFailed(oks) => exact && AllOk(oks) ==> s == s0
       case ManifestFailed(oks) => exact && clean && AllOk(oks) ==> BackButNote(s0, s, p)
       case UnregisterFailed(oks, gone) =>
         exact && clean && AllOk(oks) ==> BackButNote(s0, s, p) && (gone ==> !s.Present(p.note))
       case Trashed(m) =>
         && InTrash(s, p, c) && s.Holds(p.note, TrashNote(m)) && Describes(m, s0, r)
         && s.keys == s0.keys - {r.guid} && (s0.default != Some(r.guid) ==> s.default == s0.default)
  }

  /** All went, but one that is called like the manifest has been overwritten by it. */
  ghost predicate AllWent(s0: State, s: State, base: Path, dir: Path, names: seq<string>) {
    forall x | x in names ::
      if EqualFold(x, MANIFEST_NAME) then !s.Present(JoinWindows(base, x))
      else Went(s0, s, JoinWindows(base, x), JoinWindows(dir, x))
  }

  /** What a rollback has made of a file called like the manifest, which was written over it: if it is back
      it is what was written, the manifest if that worked. */
  predicate NamesakeUndid(s: State, volume: Answer, ok: bool, from: Path, to: Path, written: bool) {
    if ok && volume.AskedSameVolume? && volume.same
    then s.Present(from) && !s.Present(to) && (written ==> s.files[CanonicalPath(from)].TrashNote?)
    else !s.Present(from) && (ok ==> !s.Present(to))
  }

  ghost predicate AllUndid(s0: State, s: State, volumes: seq<Answer>, oks: seq<bool>, base: Path, dir: Path,
                           names: seq<string>, written: bool)
  {
    && |oks| == |names| == |volumes|
    && forall i :: 0 <= i < |names| ==>
         var from, to := JoinWindows(base, names[i]), JoinWindows(dir, names[i]);
         if EqualFold(names[i], MANIFEST_NAME) then NamesakeUndid(s, volumes[i], oks[i], from, to, written)
         else Undid(s0, s, volumes[i], oks[i], from, to)
  }

  /** What has become of every file that went into the trash. */
  ghost predicate FilesLeft(o: TrashOutcome, s0: State, s: State, base: Path, dir: Path, files: seq<string>,
                            volumes: seq<Answer>)
  {
    match o
    case Trashed(m) => m.files == files && AllWent(s0, s, base, dir, files)
    case ManifestFailed(oks) => AllUndid(s0, s, volumes, oks, base, dir, files, false)
    case UnregisterFailed(oks, _) => AllUndid(s0, s, volumes, oks, base, dir, files, true)
    case MoveFailed(oks) => HalfUndid(s0, s, volumes, oks, base, dir, files)
    case _ => true
  }

  /** What the manifest will say, all but the files. */
  method Describe(w: Machine, r: Registration) returns (ok: bool, man: Manifest)
    requires w.st.Registered(r)
    modifies w`refusals
    ensures w.refusals >= old(w.refusals) && (ok <==> w.refusals == old(w.refusals))
    ensures ok ==> Describes(man.(files := [man.vhdFile]), w.st, r)
  {
    hide EqualFold;
    var full;
    man := Manifest(false, r, [], r.key.VhdName());
    ok, full := ReadFullRegistration(w, r);
    if ok {
      var def;
      ok, def := w.DefaultDistribution();
      man := Manifest(def.Some? && EqualFold(def.value, r.guid), full, [], r.key.VhdName());
    }
  }

  /** More than the disk was to be moved. */
  predicate Gathers(o: TrashOutcome) {
    o.Trashed? || o.ManifestFailed? || o.UnregisterFailed? || (o.MoveFailed? && |o.rolledBack| > 1)
  }

  /** Up to step `b` files are moved; from there on the run ends as Ends says, with the entries for them. */
  ghost predicate Concludes(o: TrashOutcome, s0: State, trace: seq<Step>, n: nat, b: nat, es: seq<Entry>,
                            answers: seq<Answer>, m: nat, r: Registration, dir: Path)
    requires m <= |answers|
  {
    && n <= b <= |trace| && |es| == Moves(trace[n..b]) && EntriesFor(es, r, dir, answers, m)
    && Ends(o, trace, b, es, StateAt(s0, trace, n, b), PlacesOf(r, dir).note)
    && (o.MoveFailed? <==> !AllWorked(trace[..b], n))
  }

  ghost predicate RunEnds(o: TrashOutcome, s0: State, trace: seq<Step>, n: nat, answers: seq<Answer>, m: nat,
                          r: Registration, dir: Path)
    requires m <= |answers|
  {
    o.NotRead? || o.NotFreed? || exists b: nat, es :: Concludes(o, s0, trace, n, b, es, answers, m, r, dir)
  }

  /** A run from the n-th step and the m-th answer on: what each step did, what is left, and which
      answers decided it. */
  ghost predicate TrashRun(o: TrashOutcome, s0: State, s: State, trace: seq<Step>, n: nat,
                           answers: seq<Answer>, m: nat, r: Registration, dir: Path, c: Content)
    requires m <= |answers|
  {
    var p, crossed := PlacesOf(r, dir), Crossed(trace, n, PlacesOf(r, dir));
    && (forall i :: n <= i < |trace| ==> TrashStep(trace[i], s0, r, p, c, crossed))
    && TrashLeaves(o, s0, s, r, p, c, crossed, NoCopies(trace, n), !s0.Present(JoinWindows(Base(r), MANIFEST_NAME)))
    // A failure is rolled back, call by call; without one it succeeds.
    && RunEnds(o, s0, trace, n, answers, m, r, dir)
    && (o.Trashed? ==> AllWorked(trace, n)) && (AllWorked(trace, n) ==> o.Trashed? || o.NotRead? || o.NotFreed?)
    // On one volume nothing is copied, and the disk only if it was said to be on another.
    && (OneVolume(answers, m) ==> NoCopies(trace, n))
    && (crossed ==> |answers| > m && answers[m] == AskedSameVolume(p.source, dir, false))
    && (Gathers(o) ==>
          && |answers| > m + 1 && answers[m + 1].AskedList? && answers[m + 1].dir == Base(r)
          && FilesLeft(o, s0, s, Base(r), dir, FilesMoved(r, answers[m + 1]), Volumes(answers[m..])))
  }

  method Trash(w: Machine, r: Registration, trashRoot: Path, shutdown: bool, asked: int, ghost c: Content)
    returns (o: TrashOutcome)
    requires w.st.Registered(r) && OrdinaryDisk(r) && SoleName(w.st, r)
    requires w.st.Holds(r.key.VhdPath(), c)
    modifies w`st, w`trace, w`now, w`probes, w`answers, w`refusals, w`folders
    ensures old(w.trace) <= w.trace && old(w.answers) <= w.answers && old(w.probes) <= w.probes
    ensures TrashRun(o, old(w.st), w.st, w.trace, |old(w.trace)|, w.answers, |old(w.answers)|, r,
                     JoinWindows(trashRoot, r.guid), c)
    // If everything works and the disk is seen unlocked, it succeeds.
    ensures w.refusals >= old(w.refusals)
    ensures !o.Trashed? ==>
              || w.refusals > old(w.refusals) || !AllWorked(w.trace, |old(w.trace)|)
              || !SeenFree(w.probes[|old(w.probes)|..])
    // Nothing is touched until the distribution is stopped and its disk was seen unlocked.
    ensures |w.trace| == |old(w.trace)| ==> o.NotRead? && w.probes == old(w.probes)
    ensures |w.trace| > |old(w.trace)| ==>
              DiskAwaited(w.trace, |old(w.trace)|, w.probes[|old(w.probes)|..], r, true, shutdown, asked,
                          w.now - old(w.now))
    ensures !SeenFree(w.probes[|old(w.probes)|..]) ==>
              |w.trace| <= |old(w.trace)| + 1 && w.folders == old(w.folders)
    ensures SeenFree(w.probes[|old(w.probes)|..]) ==>
              exists made :: w.folders == old(w.folders) + [Folder(JoinWindows(trashRoot, r.guid), made)]
                             && (made <==> !o.NotFreed?)
    ensures o.NotFreed? ==> |w.trace| == |old(w.trace)| + 1
  {
    hide CanonicalPath, JoinWindows, OrdinaryDisk, Waits, SeenFree, Describes, TrashRun;
    var dir := JoinWindows(trashRoot, r.guid);
    ghost var s0 := w.st;
    var read, man := Describe(w, r);
    Unmoved(NotRead, w.trace, |w.trace|, w.answers, s0, r, dir, c);
    NothingSeen();
    assert w.probes[|old(w.probes)|..] == [];
    if !read {
      return NotRead;
    }
    var stopped := w.Do(if shutdown then Shutdown else Terminate(r.key.Name()));
    ghost var trace := w.trace;
    Unmoved(NotFreed, w.trace, |w.trace|, w.answers, s0, r, dir, c);
    SinceStopped(NotFreed, trace, trace, w.answers, |w.answers|, s0, s0, r, dir, c);
    if !stopped {
      return NotFreed;
    }
    var free := WaitForDisk(w, r.key.Name(), r.key.VhdPath(), shutdown, asked);
    ghost var wait, passed := w.probes[|old(w.probes)|..], w.now - old(w.now);
    WaitsOnce(wait, r.key.Name(), r.key.VhdPath(), |trace|, asked, passed, free.Free?);
    if free != Free {
      return NotFreed;
    }
    var made := w.MkdirAll(dir);
    if !made {
      return NotFreed;
    }
    o := Commit(w, r, dir, man, c);
    AwaitedOn(trace, w.trace, |trace| - 1, wait, r, true, shutdown, asked, passed, passed);
    SinceStopped(o, trace, w.trace, w.answers, |old(w.answers)|, s0, w.st, r, dir, c);
  }

  /** Stopping a distribution is no step of the move. */
  lemma SinceStopped(o: TrashOutcome, before: seq<Step>, after: seq<Step>, answers: seq<Answer>, m: nat,
                     s0: State, s: State, r: Registration, dir: Path, c: Content)
    requires before != [] && before <= after && m <= |answers|
    requires var stop := before[|before| - 1];
             (stop.call.Shutdown? || stop.call.Terminate?) && stop.after == s0 && s0.Holds(r.key.VhdPath(), c)
    requires before[|before| - 1].ok || o.NotRead? || o.NotFreed?
    requires TrashRun(o, s0, s, after, |before|, answers, m, r, dir, c)
    ensures TrashRun(o, s0, s, after, |before| - 1, answers, m, r, dir, c)
  {
    hide CanonicalPath, JoinWindows, TrashLeaves, FilesLeft, FilesMoved, Volumes, OneVolume, RunEnds;
    EndsSince(o, before, after, answers, m, s0, r, dir);
    ghost var n, p := |before| - 1, PlacesOf(r, dir);
    assert after[n] == before[n];
    assert forall crossed :: TrashStep(after[n], s0, r, p, c, crossed);
    StopCopiesNothing(after, n, p);
    hide TrashStep, NoCopies, Crossed;
  }

  lemma StopCopiesNothing(trace: seq<Step>, n: nat, p: Places)
    requires n < |trace| && (trace[n].call.Shutdown? || trace[n].call.Terminate?)
    ensures NoCopies(trace, n) <==> NoCopies(trace, n + 1)
    ensures Crossed(trace, n, p) <==> Crossed(trace, n + 1, p)
  {
    if Crossed(trace, n, p) {
      var i, j :| n <= i < j < |trace|
                  && trace[i].ok && trace[i].call == CopySparse(p.source, p.trash)
                  && trace[j].ok && trace[j].call == Remove(p.source);
      assert i != n;
    }
  }

  lemma EndsSince(o: TrashOutcome, before: seq<Step>, after: seq<Step>, answers: seq<Answer>, m: nat, s0: State,
                  r: Registration, dir: Path)
    requires before != [] && before <= after && m <= |answers|
    requires var stop := before[|before| - 1];
             (stop.call.Shutdown? || stop.call.Terminate?) && stop.after == s0
    requires after[|before| - 1].ok || o.NotRead? || o.NotFreed?
    requires RunEnds(o, s0, after, |before|, answers, m, r, dir)
    ensures RunEnds(o, s0, after, |before| - 1, answers, m, r, dir)
  {
    hide CanonicalPath, JoinWindows, Volumes, EntriesFor, Ends, Moves, Asked;
    var n := |before|;
    if !o.NotRead? && !o.NotFreed? {
      var b: nat, es :| Concludes(o, s0, after, n, b, es, answers, m, r, dir);
      var stop := after[n - 1];
      assert stop == before[n - 1];
      assert after[n - 1..b] == [stop] + after[n..b];
      MovesAppend([stop], after[n..b]);
      MovesOf(stop, stop);
      assert AllWorked(after[..b], n) <==> AllWorked(after[..b], n - 1);
      assert Concludes(o, s0, after, n - 1, b, es, answers, m, r, dir);
    }
  }

  lemma Unmoved(o: TrashOutcome, trace: seq<Step>, n: nat, answers: seq<Answer>, s: State, r: Registration, dir: Path,
                c: Content)
    requires s.Holds(r.key.VhdPath(), c) && n == |trace| && (o.NotRead? || o.NotFreed?)
    ensures TrashRun(o, s, s, trace, n, answers, |answers|, r, dir, c)
  {
    hide CanonicalPath, JoinWindows;
  }

  /** The disk is safe throughout unless it was said to be on another volume than the trash. */
  lemma SameVolumeKeeps(o: TrashOutcome, s0: State, s: State, trace: seq<Step>, n: nat, answers: seq<Answer>, m: nat,
                        r: Registration, dir: Path, c: Content)
    requires m <= |answers| && TrashRun(o, s0, s, trace, n, answers, m, r, dir, c)
    requires |answers| > m ==> answers[m] != AskedSameVolume(r.key.VhdPath(), dir, false)
    ensures Kept(s, PlacesOf(r, dir), c)
    ensures forall i :: n <= i < |trace| ==> Kept(trace[i].after, PlacesOf(r, dir), c)
  {
    hide CanonicalPath, JoinWindows, FilesLeft, FilesMoved, Volumes, OneVolume, NoCopies, Crossed;
    assert !Crossed(trace, n, PlacesOf(r, dir));
  }

  /** The part that changes things. */
  method Commit(w: Machine, r: Registration, dir: Path, man: Manifest, ghost c: Content)
    returns (o: TrashOutcome)
    requires w.st.Registered(r) && OrdinaryDisk(r) && SoleName(w.st, r)
    requires w.st.Holds(r.key.VhdPath(), c)
    requires Describes(man.(files := [man.vhdFile]), w.st, r)
    modifies w`st, w`trace, w`answers
    ensures old(w.trace) <= w.trace && old(w.answers) <= w.answers
    ensures TrashRun(o, old(w.st), w.st, w.trace, |old(w.trace)|, w.answers, |old(w.answers)|, r, dir, c)
    ensures !o.NotRead? && !o.NotFreed? && (o.Trashed? <==> AllWorked(w.trace, |old(w.trace)|))
  {
    hide CanonicalPath, JoinWindows, TrimPrefix, EqualFold, Effect, Enabled, Undone, Elsewhere, FilesLeft, Volumes,
      Gathered, OneVolume, NoCopies, Crossed, Underway, NotYet, OrdinaryDisk, HaltedAmong, HalfUndid, After, Answers,
      Steps, Advances, EntriesFor, Ends, Moves, RunEnds, TrashRun, TrashStep, FileStep;
    ghost var p, s0, n := PlacesOf(r, dir), w.st, |w.trace|;
    ghost var clean := !s0.Present(JoinWindows(Base(r), MANIFEST_NAME));
    var undo := new UndoStack();
    var ok, moved;
    ghost var crossed, exact;
    ok, moved, crossed, exact := MoveIntoTrash(w, r, dir, undo, c);
    ghost var trace, s1, es := w.trace, w.st, undo.entries;
    if !ok {
      NoteElsewhere(r, dir);
      var oks := RollBack(w, undo, r, p, c, s1, s0, crossed, exact, clean);
      MoveFailedEnds(oks, w.trace, |trace|, es, s1, p.note);
      if |es| > 1 {
        ghost var m := |old(w.answers)|;
        HaltedBack(es, oks, Volumes(w.answers[m..]), s0, s1, r, dir, FilesMoved(r, w.answers[m + 1]));
      }
      o := MoveFailed(oks);
    } else {
      o := WriteAndUnregister(w, r, dir, man.(files := moved), undo, c, s0, crossed, exact, clean,
                              Volumes(w.answers[|old(w.answers)|..]));
    }
    NoMoreTransfers(trace, w.trace, n, p);
    RunConcludes(o, s0, s1, old(w.trace), trace, w.trace, es, w.answers, |old(w.answers)|, r, dir, ok);
    Assembled(o, s0, w.st, trace, w.trace, n, w.answers, |old(w.answers)|, r, dir, c, crossed, exact);
  }

  lemma Assembled(o: TrashOutcome, s0: State, s: State, mid: seq<Step>, after: seq<Step>, n: nat, answers: seq<Answer>,
                  m: nat, r: Registration, dir: Path, c: Content, crossed: bool, exact: bool)
    requires m <= |answers| && n <= |mid| && mid <= after
    requires forall i :: n <= i < |mid| ==> FileStep(mid[i], s0, PlacesOf(r, dir), c)
    requires forall i :: |mid| <= i < |after| ==> TrashStep(after[i], s0, r, PlacesOf(r, dir), c, crossed)
    requires crossed == Crossed(after, n, PlacesOf(r, dir)) && (NoCopies(after, n) ==> exact)
    requires TrashLeaves(o, s0, s, r, PlacesOf(r, dir), c, crossed, exact,
                         !s0.Present(JoinWindows(Base(r), MANIFEST_NAME)))
    requires RunEnds(o, s0, after, n, answers, m, r, dir) && (o.Trashed? <==> AllWorked(after, n))
    requires OneVolume(answers, m) ==> NoCopies(after, n)
    requires crossed ==> |answers| > m && answers[m] == AskedSameVolume(PlacesOf(r, dir).source, dir, false)
    requires Gathers(o) ==>
               && |answers| > m + 1 && answers[m + 1].AskedList? && answers[m + 1].dir == Base(r)
               && FilesLeft(o, s0, s, Base(r), dir, FilesMoved(r, answers[m + 1]), Volumes(answers[m..]))
    ensures TrashRun(o, s0, s, after, n, answers, m, r, dir, c)
  {
    hide CanonicalPath, JoinWindows, TrimPrefix, FilesLeft, Volumes, FilesMoved, OneVolume, NoCopies, Crossed, RunEnds;
    var p := PlacesOf(r, dir);
    forall i | n <= i < |after| ensures TrashStep(after[i], s0, r, p, c, crossed) {
      assert i < |mid| ==> after[i] == mid[i];
    }
    hide TrashStep, FileStep, Kept;
  }

  lemma MoveFailedEnds(oks: seq<bool>, trace: seq<Step>, b: nat, es: seq<Entry>, s: State, note: Path)
    requires Unwound(trace, b, es, oks, false, s)
    ensures Ends(MoveFailed(oks), trace, b, es, s, note)
  {
  }

  lemma RunConcludes(o: TrashOutcome, s0: State, s: State, before: seq<Step>, mid: seq<Step>, after: seq<Step>,
                     es: seq<Entry>, answers: seq<Answer>, m: nat, r: Registration, dir: Path, ok: bool)
    requires m <= |answers| && mid <= after && !o.NotRead? && !o.NotFreed?
    requires Advances(before, mid, s0, s, 0, |es|, ok) && EntriesFor(es, r, dir, answers, m)
    requires Ends(o, after, |mid|, es, s, PlacesOf(r, dir).note) && (ok <==> !o.MoveFailed?)
    ensures RunEnds(o, s0, after, |before|, answers, m, r, dir)
    ensures AllWorked(after, |before|) <==> o.Trashed?
  {
    hide CanonicalPath, JoinWindows, EntriesFor, Moves, Steps, Answers, Asked, Volumes;
    var b := |mid|;
    assert after[|before|..b] == mid[|before|..] && after[..b] == mid;
    assert Concludes(o, s0, after, |before|, b, es, answers, m, r, dir);
    if !o.Trashed? {
      assert exists i :: |before| <= i < |after| && !after[i].ok by {
        if o.MoveFailed? {
          var i :| |before| <= i < |mid| && !mid[i].ok;
          assert after[i] == mid[i];
        } else {
          assert !after[b].ok || !after[b + 1].ok;
        }
      }
    } else {
      forall i | |before| <= i < |after| ensures after[i].ok {
        assert i < b ==> after[i] == mid[i];
      }
    }
  }

  lemma NoMoreTransfers(before: seq<Step>, after: seq<Step>, n: nat, p: Places)
    requires before <= after && n <= |before|
    requires forall i :: |before| <= i < |after| ==> !Transfers(after[i].call, p)
    ensures Crossed(after, n, p) <==> Crossed(before, n, p)
    ensures NoCopies(after, n) <==> NoCopies(before, n)
  {
    CrossedStays(before, after, n, p);
    StepsSplit(before, after, n, p);
  }

  /** The note is neither where the disk was nor where it is. */
  lemma NoteElsewhere(r: Registration, dir: Path)
    requires OrdinaryDisk(r)
    ensures var p := PlacesOf(r, dir); !SamePath(p.note, p.source) && !SamePath(p.note, p.trash)
  {
    hide CanonicalPath, JoinWindows, TrimPrefix, EqualFold;
    assert PlainName(MANIFEST_NAME);
    assert PlacesOf(r, dir).source == JoinWindows(Base(r), r.key.VhdName());
    DifferentNames(Base(r), r.key.VhdName(), dir, MANIFEST_NAME);
    DifferentNames(dir, r.key.VhdName(), dir, MANIFEST_NAME);
  }

  /** Rolling back with something written where the manifest goes. */
  lemma UnwindNoted(es: seq<Entry>, oks: seq<bool>, s: State, t: State, s0: State, p: Places, c: Content,
                    crossed: bool, exact: bool, clean: bool)
    requires Underway(es, s, s0, p, c, crossed, exact, clean)
    requires SameFilesBut(s, t, {CanonicalPath(p.note)}) && SameRegistry(s, t)
    requires !SamePath(p.note, p.source) && !SamePath(p.note, p.trash)
    requires |oks| == |es| && Answers(es, oks, false, t)
    ensures var u := After(es, oks, t);
            && SameRegistry(s0, u)
            && (if crossed && oks[0] then !u.Present(p.source) && !u.Present(p.trash) else Kept(u, p, c))
            && (exact && clean && AllOk(oks) ==> BackButNote(s0, u, p))
    ensures forall step | step in Steps(es, oks, false, t) :: BackStep(step, s0, p, c, crossed)
  {
    hide CanonicalPath, Steps, Answers, After, Undone, Elsewhere;
    assert Underway(es, t, s0, p, c, crossed, false, clean);
    UnwindTrash(es, oks, t, s0, p, c, crossed, false, clean);
    if exact && clean && AllOk(oks) {
      AllOkIsUndone(es, oks, t);
      UndoneElsewhere(es, s, t, CanonicalPath(p.note));
    }
  }

  /** A rollback, whatever has been done and whatever has been written where the manifest goes. */
  method RollBack(w: Machine, undo: UndoStack, ghost r: Registration, ghost p: Places, ghost c: Content,
                  ghost s: State, ghost s0: State, ghost crossed: bool, ghost exact: bool, ghost clean: bool)
    returns (oks: seq<bool>)
    requires AllAtomic(undo.entries)
    requires || Underway(undo.entries, s, s0, p, c, crossed, exact, clean)
             || (!crossed && w.st == s && NotYet(undo.entries, s, s0, p, c, exact))
    requires SameFilesBut(s, w.st, {CanonicalPath(p.note)}) && SameRegistry(s, w.st)
    requires !SamePath(p.note, p.source) && !SamePath(p.note, p.trash)
    modifies w`st, w`trace, undo
    ensures old(w.trace) <= w.trace
    ensures forall i :: |old(w.trace)| <= i < |w.trace| ==>
              TrashStep(w.trace[i], s0, r, p, c, crossed) && !Transfers(w.trace[i].call, p)
    ensures Kept(w.st, p, c) <==> !(crossed && oks != [] && oks[0])
    ensures SameRegistry(s0, w.st)
    ensures exact && AllOk(oks) && old(w.st) == s ==> w.st == s0
    ensures Unwound(w.trace, |old(w.trace)|, old(undo.entries), oks, false, old(w.st))
    ensures w.st == After(old(undo.entries), oks, old(w.st))
    ensures exact && clean && AllOk(oks) ==> BackButNote(s0, w.st, p)
  {
    hide CanonicalPath, Elsewhere;
    ghost var es, t := undo.entries, w.st;
    var oks' := undo.Unwind(w, false);
    assert w.trace[|old(w.trace)|..] == Steps(es, oks', false, t);
    if Underway(es, s, s0, p, c, crossed, exact, clean) {
      UnwindNoted(es, oks', s, t, s0, p, c, crossed, exact, clean);
      if t == s {
        UnwindTrash(es, oks', s, s0, p, c, crossed, exact, clean);
      }
    } else {
      UnwindNotYet(es, oks', s, s0, p, c, exact);
    }
    hide Steps, Answers, After, Undone, Underway, NotYet;
    forall i | |old(w.trace)| <= i < |w.trace|
      ensures TrashStep(w.trace[i], s0, r, p, c, crossed) && !Transfers(w.trace[i].call, p)
    {
      assert w.trace[i] in Steps(es, oks', false, t);
    }
    oks := oks';
  }

  /** What unregistering does once there is no disk at the registered path. */
  lemma Gone(s0: State, s: State, t: State, r: Registration, p: Places)
    requires s0.Registered(r) && SoleName(s0, r) && SameRegistry(s0, s)
    requires p.source == r.key.VhdPath() && !s.Present(p.source)
    requires exists g | g in s.keys :: Unregisters(s, g, r.key.Name(), t)
    ensures t.files == s.files
    ensures t.keys == s0.keys - {r.guid} && (s0.default != Some(r.guid) ==> t.default == s0.default)
  {
    hide CanonicalPath, EqualFold;
    var g :| g in s.keys && Unregisters(s, g, r.key.Name(), t);
    assert Named(s0, g, r.key.Name());
    assert g == r.guid;
    assert s.files - {CanonicalPath(p.source)} == s.files;
  }

  lemma Noting(es: seq<Entry>, s: State, s0: State, p: Places, c: Content,
               crossed: bool, exact: bool, clean: bool, note: Content)
    requires Underway(es, s, s0, p, c, crossed, exact, clean)
    requires !SamePath(p.note, p.source) && !SamePath(p.note, p.trash)
    ensures SameRegistry(s0, s)
    ensures forall t | SameFilesBut(s, t, {CanonicalPath(p.note)}) :: InTrash(t, p, c)
    ensures var t := Effect(s, WriteFile(p.note, note));
            SameFilesBut(s, t, {CanonicalPath(p.note)}) && SameRegistry(s, t) && t.Holds(p.note, note)
  {
    hide CanonicalPath, Undone, Elsewhere;
  }

  lemma Unnoting(s0: State, s: State, p: Places, c: Content)
    requires !SamePath(p.note, p.source) && !SamePath(p.note, p.trash)
    ensures var t := Effect(s, Remove(p.note));
            && (Kept(t, p, c) <==> Kept(s, p, c)) && SameRegistry(s, t) && !t.Present(p.note)
            && SameFilesBut(s, t, {CanonicalPath(p.note)})
            && (BackButNote(s0, s, p) ==> BackButNote(s0, t, p))
  {
    hide CanonicalPath;
  }

  lemma NoteStep(s0: State, s: State, ok: bool, r: Registration, p: Places, c: Content, crossed: bool)
    requires !SamePath(p.note, p.source) && !SamePath(p.note, p.trash)
    requires SameRegistry(s0, s) && (Kept(s, p, c) || crossed)
    ensures var step := Step(Remove(p.note), ok, s, if ok then Effect(s, Remove(p.note)) else s);
            TrashStep(step, s0, r, p, c, crossed) && !Transfers(step.call, p)
  {
    hide CanonicalPath, Effect;
    Unnoting(s0, s, p, c);
  }

  lemma UnregisterStep(s0: State, s: State, t: State, name: string, ok: bool, r: Registration, p: Places, c: Content,
                       crossed: bool, m: Manifest)
    requires if ok then t.files == s.files else t == s
    requires SameRegistry(s0, s) && InTrash(s, p, c) && s.Holds(p.note, TrashNote(m)) && Describes(m, s0, r)
    ensures var step := Step(Unregister(name), ok, s, t);
            TrashStep(step, s0, r, p, c, crossed) && !Transfers(step.call, p)
    ensures InTrash(t, p, c) && Kept(t, p, c) && t.Holds(p.note, TrashNote(m))
  {
    hide CanonicalPath, Describes;
  }

  lemma NoteKeeps(s0: State, s: State, t: State, base: Path, dir: Path, x: string)
    requires PlainName(x) && !EqualFold(x, MANIFEST_NAME)
    requires SameFilesBut(s, t, {CanonicalPath(JoinWindows(dir, MANIFEST_NAME))})
    ensures var from, to := JoinWindows(base, x), JoinWindows(dir, x);
            && (Went(s0, s, from, to) ==> Went(s0, t, from, to))
            && forall v, ok :: Undid(s0, s, v, ok, from, to) ==> Undid(s0, t, v, ok, from, to)
  {
    hide CanonicalPath, JoinWindows, EqualFold;
    assert PlainName(MANIFEST_NAME);
    DifferentNames(base, x, dir, MANIFEST_NAME);
    DifferentNames(dir, x, dir, MANIFEST_NAME);
  }

  lemma FilesNoted(s0: State, s: State, t: State, base: Path, dir: Path, names: seq<string>, es: seq<Entry>,
                   volumes: seq<Answer>)
    requires Gathered(s0, s, base, dir, names, es, volumes)
    requires SameFilesBut(s, t, {CanonicalPath(JoinWindows(dir, MANIFEST_NAME))})
    ensures AllWent(s0, t, base, dir, names)
  {
    forall x | x in names
      ensures if EqualFold(x, MANIFEST_NAME) then !t.Present(JoinWindows(base, x))
              else Went(s0, t, JoinWindows(base, x), JoinWindows(dir, x))
    {
      assert Went(s0, s, JoinWindows(base, x), JoinWindows(dir, x));
      if EqualFold(x, MANIFEST_NAME) {
        NamesakeGone(s0, s, t, base, dir, x);
      } else {
        NoteKeeps(s0, s, t, base, dir, x);
      }
    }
    hide CanonicalPath, JoinWindows, EqualFold, PlainName, SameFilesBut, Went;
  }

  /** Such a file is the manifest's once it has moved, and has left its place. */
  lemma NamesakeGone(s0: State, s: State, t: State, base: Path, dir: Path, x: string)
    requires PlainName(x) && EqualFold(x, MANIFEST_NAME)
    requires Went(s0, s, JoinWindows(base, x), JoinWindows(dir, x))
    requires SameFilesBut(s, t, {CanonicalPath(JoinWindows(dir, MANIFEST_NAME))})
    ensures SamePath(JoinWindows(dir, x), JoinWindows(dir, MANIFEST_NAME))
    ensures !SamePath(JoinWindows(base, x), JoinWindows(dir, x)) && !t.Present(JoinWindows(base, x))
  {
    hide CanonicalPath, JoinWindows, EqualFold;
    assert PlainName(MANIFEST_NAME);
    FoldedNameSameFile(dir, x, MANIFEST_NAME);
  }

  lemma {:induction false} AnswerAt(es: seq<Entry>, oks: seq<bool>, s: State, i: nat)
    requires |oks| <= |es| && Answers(es, oks, false, s) && i < |oks| && oks[i]
    ensures Answers(es, oks[i + 1..], false, s)
    ensures Enabled(After(es, oks[i + 1..], s), es[|es| - |oks| + i].call)
    decreases |oks|
  {
    hide Enabled, Effect;
    if i > 0 {
      AnswerAt(es, oks[1..], s, i - 1);
      assert oks[1..][i..] == oks[i + 1..];
    }
  }

  /** Without anything where it went, its own entry does nothing, and neither do the others. */
  lemma NamesakeStaysGone(es: seq<Entry>, oks: seq<bool>, volumes: seq<Answer>, t: State, base: Path, dir: Path,
                          names: seq<string>, i: nat)
    requires FileNames(names) && UndoesAll(es, volumes, base, dir, names) && i < |es|
    requires |oks| <= |es| && Answers(es, oks, false, t)
    requires !t.Present(JoinWindows(base, names[i])) && !t.Present(JoinWindows(dir, names[i]))
    ensures var u := After(es, oks, t);
            !u.Present(JoinWindows(base, names[i])) && !u.Present(JoinWindows(dir, names[i]))
  {
    hide CanonicalPath, JoinWindows, EqualFold, PlainName, FileNames;
    var from, to := JoinWindows(base, names[i]), JoinWindows(dir, names[i]);
    forall h, x: State | 0 <= h < |es| && !x.Present(from) && !x.Present(to) && Enabled(x, es[h].call)
      ensures !Effect(x, es[h].call).Present(from) && !Effect(x, es[h].call).Present(to)
    {
      assert Undoes(es[h], volumes[h], JoinWindows(base, names[h]), dir, JoinWindows(dir, names[h]));
      if h != i {
        OtherName(names, h, i);
        EntryKeeps(es[h], volumes[h], x, base, dir, names[h], names[i]);
      }
    }
    hide Effect, Enabled, Undoes;
    UnwindKeeps(es, oks, false, t, (x: State) => !x.Present(from) && !x.Present(to));
  }

  lemma NamesakeFate(es: seq<Entry>, oks: seq<bool>, volumes: seq<Answer>, s0: State, s: State, t: State,
                     base: Path, dir: Path, names: seq<string>, i: nat, written: bool)
    requires Gathered(s0, s, base, dir, names, es, volumes) && i < |es| && EqualFold(names[i], MANIFEST_NAME)
    requires SameFilesBut(s, t, {CanonicalPath(JoinWindows(dir, MANIFEST_NAME))})
    requires |oks| == |es| && Answers(es, oks, false, t)
    requires written ==> NoteThere(t, dir)
    ensures NamesakeUndid(After(es, oks, t), volumes[i], oks[i], JoinWindows(base, names[i]),
                          JoinWindows(dir, names[i]), written)
  {
    hide CanonicalPath, JoinWindows, EqualFold, PlainName, After, Answers, Undoes, OthersStay;
    var from, to := JoinWindows(base, names[i]), JoinWindows(dir, names[i]);
    assert names[i] in names;
    assert PlainName(names[i]) && Went(s0, s, from, to);
    NamesakeGone(s0, s, t, base, dir, names[i]);
    if t.Present(to) {
      var r0 := s0.(files := s0.files[CanonicalPath(from) := t.files[CanonicalPath(to)]]);
      Fate(es, oks, volumes, r0, t, base, dir, names, i);
    } else {
      NamesakeStaysGone(es, oks, volumes, t, base, dir, names, i);
      if oks[i] {
        AnswerAt(es, oks, t, i);
        NamesakeStaysGone(es, oks[i + 1..], volumes, t, base, dir, names, i);
        assert Undoes(es[i], volumes[i], from, dir, to);
        NotEnabled(es[i], volumes[i], After(es, oks[i + 1..], t), from, dir, to);
      }
    }
  }

  lemma NotEnabled(e: Entry, v: Answer, x: State, from: Path, dir: Path, to: Path)
    requires Undoes(e, v, from, dir, to) && Enabled(x, e.call)
    ensures x.Present(to)
  {
  }

  /** There is a manifest in the folder. */
  predicate NoteThere(s: State, dir: Path) {
    var note := JoinWindows(dir, MANIFEST_NAME);
    s.Present(note) && s.files[CanonicalPath(note)].TrashNote?
  }

  lemma FilesRolledBack(s0: State, s: State, t: State, base: Path, dir: Path, names: seq<string>, es: seq<Entry>,
                        volumes: seq<Answer>, oks: seq<bool>, written: bool)
    requires Gathered(s0, s, base, dir, names, es, volumes)
    requires SameFilesBut(s, t, {CanonicalPath(JoinWindows(dir, MANIFEST_NAME))})
    requires |oks| == |es| && Answers(es, oks, false, t)
    requires written ==> NoteThere(t, dir)
    ensures FileNames(names) && AllUndid(s0, After(es, oks, t), volumes, oks, base, dir, names, written)
    ensures forall x | x in names :: !SamePath(JoinWindows(base, x), JoinWindows(dir, MANIFEST_NAME))
  {
    hide CanonicalPath, JoinWindows, EqualFold, PlainName, SameFilesBut, Went, After, Answers, Undid, NamesakeUndid,
      NoteThere;
    FilesNoted(s0, s, t, base, dir, names, es, volumes);
    forall i | 0 <= i < |names|
      ensures var from, to := JoinWindows(base, names[i]), JoinWindows(dir, names[i]);
              && (if EqualFold(names[i], MANIFEST_NAME)
                  then NamesakeUndid(After(es, oks, t), volumes[i], oks[i], from, to, written)
                  else Undid(s0, After(es, oks, t), volumes[i], oks[i], from, to))
              && !SamePath(from, JoinWindows(dir, MANIFEST_NAME))
    {
      assert names[i] in names;
      if EqualFold(names[i], MANIFEST_NAME) {
        NamesakeFate(es, oks, volumes, s0, s, t, base, dir, names, i, written);
        NamesakeGone(s0, s, t, base, dir, names[i]);
      } else {
        Fate(es, oks, volumes, s0, t, base, dir, names, i);
        assert PlainName(MANIFEST_NAME) by { ManifestIsPlain(); }
        DifferentNames(base, names[i], dir, MANIFEST_NAME);
      }
    }
  }

  lemma ManifestIsPlain()
    ensures PlainName(MANIFEST_NAME)
  {
  }

  lemma RolledBackNoted(s0: State, s: State, t: State, base: Path, dir: Path, names: seq<string>,
                        volumes: seq<Answer>, oks: seq<bool>, written: bool)
    requires FileNames(names) && AllUndid(s0, s, volumes, oks, base, dir, names, written)
    requires forall x | x in names :: !SamePath(JoinWindows(base, x), JoinWindows(dir, MANIFEST_NAME))
    requires t == Effect(s, Remove(JoinWindows(dir, MANIFEST_NAME)))
    ensures AllUndid(s0, t, volumes, oks, base, dir, names, written)
  {
    hide JoinWindows, EqualFold, PlainName, CanonicalPath;
    forall i | 0 <= i < |names|
      ensures var from, to := JoinWindows(base, names[i]), JoinWindows(dir, names[i]);
              if EqualFold(names[i], MANIFEST_NAME) then NamesakeUndid(t, volumes[i], oks[i], from, to, written)
              else Undid(s0, t, volumes[i], oks[i], from, to)
    {
      assert names[i] in names;
      if EqualFold(names[i], MANIFEST_NAME) {
        assert NamesakeUndid(s, volumes[i], oks[i], JoinWindows(base, names[i]), JoinWindows(dir, names[i]), written);
      } else {
        NoteKeeps(s0, s, t, base, dir, names[i]);
      }
    }
  }

  method WriteAndUnregister(w: Machine, r: Registration, dir: Path, man: Manifest, undo: UndoStack, ghost c: Content,
                            ghost s0: State, ghost crossed: bool, ghost exact: bool, ghost clean: bool,
                            ghost volumes: seq<Answer>)
    returns (o: TrashOutcome)
    requires OrdinaryDisk(r) && SoleName(s0, r) && s0.Registered(r) && Describes(man, s0, r)
    requires Underway(undo.entries, w.st, s0, PlacesOf(r, dir), c, crossed, exact, clean)
    requires Gathered(s0, w.st, Base(r), dir, man.files, undo.entries, volumes)
    requires AllAtomic(undo.entries)
    modifies w`st, w`trace, undo
    ensures old(w.trace) <= w.trace
    ensures forall i :: |old(w.trace)| <= i < |w.trace| ==>
              && TrashStep(w.trace[i], s0, r, PlacesOf(r, dir), c, crossed)
              && !Transfers(w.trace[i].call, PlacesOf(r, dir))
    ensures TrashLeaves(o, s0, w.st, r, PlacesOf(r, dir), c, crossed, exact, clean)
    ensures FilesLeft(o, s0, w.st, Base(r), dir, man.files, volumes)
    ensures o.Trashed? || o.ManifestFailed? || o.UnregisterFailed?
    ensures Ends(o, w.trace, |old(w.trace)|, old(undo.entries), old(w.st), PlacesOf(r, dir).note)
  {
    hide CanonicalPath, JoinWindows, TrimPrefix, EqualFold, Undone, Elsewhere, Effect, Enabled, Underway, NotYet,
      Gathered, AllWent, AllUndid, After, Answers, Steps;
    ghost var p := PlacesOf(r, dir);
    ghost var s := w.st;
    NoteElsewhere(r, dir);
    Noting(undo.entries, s, s0, p, c, crossed, exact, clean, TrashNote(man));
    // The note comes first: as long as the key is there, a failure can be repaired from it.
    var written := w.Do(WriteFile(JoinWindows(dir, MANIFEST_NAME), TrashNote(man)));
    if !written {
      OnlyFileMeans(s, w.st, CanonicalPath(p.note));
      ghost var es, t := undo.entries, w.st;
      var oks := RollBack(w, undo, r, p, c, s, s0, crossed, exact, clean);
      FilesRolledBack(s0, s, t, Base(r), dir, man.files, es, volumes, oks, false);
      return ManifestFailed(oks);
    }
    o := UnregisterIt(w, r, dir, man, undo, c, s, s0, crossed, exact, clean, volumes);
  }

  /** The point of no return: from here only success or a complete rollback. */
  method UnregisterIt(w: Machine, r: Registration, dir: Path, man: Manifest, undo: UndoStack, ghost c: Content,
                      ghost s: State, ghost s0: State, ghost crossed: bool, ghost exact: bool, ghost clean: bool,
                      ghost volumes: seq<Answer>)
    returns (o: TrashOutcome)
    requires OrdinaryDisk(r) && SoleName(s0, r) && s0.Registered(r) && Describes(man, s0, r)
    requires Underway(undo.entries, s, s0, PlacesOf(r, dir), c, crossed, exact, clean)
    requires Gathered(s0, s, Base(r), dir, man.files, undo.entries, volumes)
    requires SameFilesBut(s, w.st, {CanonicalPath(PlacesOf(r, dir).note)}) && SameRegistry(s, w.st)
    requires InTrash(w.st, PlacesOf(r, dir), c) && w.st.Holds(PlacesOf(r, dir).note, TrashNote(man))
    requires SameRegistry(s0, w.st) && AllAtomic(undo.entries)
    requires w.trace != [] && var last := w.trace[|w.trace| - 1];
             last.call == WriteFile(PlacesOf(r, dir).note, TrashNote(man)) && last.ok
    modifies w`st, w`trace, undo
    ensures old(w.trace) <= w.trace
    ensures forall i :: |old(w.trace)| <= i < |w.trace| ==>
              && TrashStep(w.trace[i], s0, r, PlacesOf(r, dir), c, crossed)
              && !Transfers(w.trace[i].call, PlacesOf(r, dir))
    ensures TrashLeaves(o, s0, w.st, r, PlacesOf(r, dir), c, crossed, exact, clean)
    ensures FilesLeft(o, s0, w.st, Base(r), dir, man.files, volumes)
    ensures o.Trashed? || o.UnregisterFailed?
    ensures Ends(o, w.trace, |old(w.trace)| - 1, old(undo.entries), s, PlacesOf(r, dir).note)
  {
    hide CanonicalPath, JoinWindows, TrimPrefix, EqualFold, Undone, Elsewhere, Effect, Enabled, Underway, NotYet,
      Gathered, AllWent, AllUndid, After, Answers, Steps, TrashStep, Transfers, Describes, OrdinaryDisk, Kept,
      BackButNote;
    ghost var p := PlacesOf(r, dir);
    NoteElsewhere(r, dir);
    ghost var t := w.st;
    var gone := w.Do(Unregister(r.key.Name()));
    if gone {
      Gone(s0, t, w.st, r, p);
      UnregisterStep(s0, t, w.st, r.key.Name(), gone, r, p, c, crossed, man);
      FilesNoted(s0, s, w.st, Base(r), dir, man.files, undo.entries, volumes);
      o := Trashed(man);
    } else {
      UnregisterStep(s0, t, t, r.key.Name(), gone, r, p, c, crossed, man);
      var oks, removed := BackOut(w, r, dir, man, undo, c, s, s0, crossed, exact, clean, volumes);
      o := UnregisterFailed(oks, removed);
    }
  }

  /** After a refused unregister: the rollback, and then the manifest goes. */
  method BackOut(w: Machine, r: Registration, dir: Path, ghost man: Manifest, undo: UndoStack, ghost c: Content,
                 ghost s: State, ghost s0: State, ghost crossed: bool, ghost exact: bool, ghost clean: bool,
                 ghost volumes: seq<Answer>)
    returns (oks: seq<bool>, removed: bool)
    requires OrdinaryDisk(r)
    requires Underway(undo.entries, s, s0, PlacesOf(r, dir), c, crossed, exact, clean)
    requires Gathered(s0, s, Base(r), dir, man.files, undo.entries, volumes)
    requires SameFilesBut(s, w.st, {CanonicalPath(PlacesOf(r, dir).note)}) && SameRegistry(s, w.st)
    requires AllAtomic(undo.entries) && NoteThere(w.st, dir)
    modifies w`st, w`trace, undo
    ensures old(w.trace) < w.trace
    ensures forall i :: |old(w.trace)| <= i < |w.trace| ==>
              && TrashStep(w.trace[i], s0, r, PlacesOf(r, dir), c, crossed)
              && !Transfers(w.trace[i].call, PlacesOf(r, dir))
    ensures Unwound(w.trace[..|w.trace| - 1], |old(w.trace)|, old(undo.entries), oks, false, old(w.st))
    ensures w.trace[|w.trace| - 1].call == Remove(PlacesOf(r, dir).note) && w.trace[|w.trace| - 1].ok == removed
    ensures TrashLeaves(UnregisterFailed(oks, removed), s0, w.st, r, PlacesOf(r, dir), c, crossed, exact, clean)
    ensures FilesLeft(UnregisterFailed(oks, removed), s0, w.st, Base(r), dir, man.files, volumes)
  {
    hide CanonicalPath, JoinWindows, TrimPrefix, EqualFold, Undone, Elsewhere, Effect, Enabled, Underway, NotYet,
      Gathered, AllWent, AllUndid, After, Steps, Answers, TrashStep, Transfers, Describes, OrdinaryDisk, Kept,
      BackButNote;
    ghost var p := PlacesOf(r, dir);
    NoteElsewhere(r, dir);
    ghost var es, t := undo.entries, w.st;
    oks := RollBack(w, undo, r, p, c, s, s0, crossed, exact, clean);
    FilesRolledBack(s0, s, t, Base(r), dir, man.files, es, volumes, oks, true);
    Unnoting(s0, w.st, p, c);
    ghost var u, back := w.st, w.trace;
    removed := w.Do(Remove(JoinWindows(dir, MANIFEST_NAME)));
    assert w.trace[..|w.trace| - 1] == back;
    NoteStep(s0, u, removed, r, p, c, crossed);
    if removed {
      RolledBackNoted(s0, u, w.st, Base(r), dir, man.files, volumes, oks, true);
    }
  }

  /* ---- where it does not hold ---- */

  /** Copied, deleted, rolled back: the state every failure after a cross-volume copy leads to. */
  lemma CopiedThenRolledBackIsLost(s: State, p: Places, c: Content)
    requires s.Holds(p.source, c) && !s.Present(p.trash)
    ensures var t := Effect(Effect(s, CopySparse(p.source, p.trash)), Remove(p.source));
            var es := [Entry(Remove(p.trash), false)];
            && Underway(es, t, s, p, c, true, false, false)
            && Answers(es, [true], false, t)
            && !Kept(After(es, [true], t), p, c)
  {
    hide CanonicalPath;
    var mid := Effect(s, CopySparse(p.source, p.trash));
    var t := Effect(mid, Remove(p.source));
    var es := [Entry(Remove(p.trash), false)];
    assert Enabled(s, CopySparse(p.source, p.trash)) && InTrash(t, p, c);
    assert [true][1..] == [];
    assert After(es, [true], t) == Effect(t, Remove(p.trash));
  }

  /** Such a run: the disk is copied and its original deleted, the folder it was in cannot be listed, the
      manifest cannot be written, and the rollback deletes the copy. */
  function LostSteps(s: State, p: Places, note: Content): seq<Step>
  {
    var mid := Effect(s, CopySparse(p.source, p.trash));
    var t := Effect(mid, Remove(p.source));
    [Step(CopySparse(p.source, p.trash), true, s, mid), Step(Remove(p.source), true, mid, t),
     Step(WriteFile(p.note, note), false, t, t), Step(Remove(p.trash), true, t, Effect(t, Remove(p.trash)))]
  }

  lemma LostRun(s: State, r: Registration, dir: Path, c: Content, note: Content)
    requires s.Registered(r) && OrdinaryDisk(r) && s.Holds(r.key.VhdPath(), c)
    requires !s.Present(PlacesOf(r, dir).trash)
    ensures var p := PlacesOf(r, dir);
            var trace, t := LostSteps(s, p, note), LostSteps(s, p, note)[3].after;
            var answers := [AskedSameVolume(p.source, dir, false), AskedList(Base(r), false, [])];
            && (forall i :: 0 <= i < |trace| ==> Outcome(trace[i].before, trace[i].call, trace[i].ok, trace[i].after))
            && TrashRun(ManifestFailed([true]), s, t, trace, 0, answers, 0, r, dir, c)
            && !Kept(t, p, c)
  {
    var p := PlacesOf(r, dir);
    NoteElsewhere(r, dir);
    LostStates(s, r, p, c, note);
    LostEnds(s, r, dir, note);
    LostFiles(s, r, dir, c, note);
    hide CanonicalPath, JoinWindows, TrimPrefix, EqualFold, TrashStep, TrashLeaves, RunEnds, FilesLeft, LostSteps;
    hide OrdinaryDisk, Crossed, NoCopies, Kept, TrashRun, Outcome;
    LostIsARun(LostSteps(s, p, note), s, r, dir, c);
    LostIsNotKept(LostSteps(s, p, note)[3].after, p, c);
  }

  lemma LostIsARun(trace: seq<Step>, s: State, r: Registration, dir: Path, c: Content)
    requires |trace| == 4 && !trace[2].ok
    requires var p, t := PlacesOf(r, dir), trace[3].after;
             && (forall i :: 0 <= i < 4 ==> TrashStep(trace[i], s, r, p, c, true))
             && Crossed(trace, 0, p) && !NoCopies(trace, 0)
             && (forall clean :: TrashLeaves(ManifestFailed([true]), s, t, r, p, c, true, false, clean))
             && FilesLeft(ManifestFailed([true]), s, t, Base(r), dir, [r.key.VhdName()],
                          [AskedSameVolume(p.source, dir, false)])
    requires var answers := [AskedSameVolume(PlacesOf(r, dir).source, dir, false), AskedList(Base(r), false, [])];
             RunEnds(ManifestFailed([true]), s, trace, 0, answers, 0, r, dir)
    ensures var answers := [AskedSameVolume(PlacesOf(r, dir).source, dir, false), AskedList(Base(r), false, [])];
            TrashRun(ManifestFailed([true]), s, trace[3].after, trace, 0, answers, 0, r, dir, c)
  {
    hide CanonicalPath, JoinWindows, TrimPrefix, EqualFold, TrashStep, TrashLeaves, RunEnds, FilesLeft;
    hide OrdinaryDisk, Crossed, NoCopies, OneVolume, Volumes, FilesMoved;
    var answers := [AskedSameVolume(PlacesOf(r, dir).source, dir, false), AskedList(Base(r), false, [])];
    OneVolumeSaid(answers[0], answers[1], r);
    assert answers[0..] == answers;
    NotOneVolume(answers);
    Assembled(ManifestFailed([true]), s, trace[3].after, [], trace, 0, answers, 0, r, dir, c, true, false);
  }

  lemma LostIsNotKept(s: State, p: Places, c: Content)
    requires !s.Present(p.source) && !s.Present(p.trash)
    ensures !Kept(s, p, c)
  {
  }

  lemma NotOneVolume(answers: seq<Answer>)
    requires answers != [] && answers[0].AskedSameVolume? && !answers[0].same
    ensures !OneVolume(answers, 0)
  {
  }

  lemma OneVolumeSaid(a: Answer, b: Answer, r: Registration)
    requires a.AskedSameVolume? && b.AskedList? && !b.listed
    ensures Volumes([a, b]) == [a] && FilesMoved(r, b) == [r.key.VhdName()]
  {
    VolumesAppend([a], [b]);
    assert [a] + [b] == [a, b] && [a][..0] == [] && [b][..0] == [];
  }

  lemma LostStates(s: State, r: Registration, p: Places, c: Content, note: Content)
    requires s.Holds(p.source, c) && !s.Present(p.trash)
    requires !SamePath(p.note, p.source) && !SamePath(p.note, p.trash)
    ensures var trace := LostSteps(s, p, note);
            && |trace| == 4 && (forall i :: 0 <= i < 4 ==> (trace[i].ok <==> i != 2))
            && (forall i :: 0 <= i < 4 ==> Outcome(trace[i].before, trace[i].call, trace[i].ok, trace[i].after))
            && (forall i :: 0 <= i < 4 ==> TrashStep(trace[i], s, r, p, c, true))
            && Crossed(trace, 0, p) && !NoCopies(trace, 0) && trace[0].call == CopySparse(p.source, p.trash)
            && !trace[3].after.Present(p.source) && !trace[3].after.Present(p.trash)
            && (forall clean :: TrashLeaves(ManifestFailed([true]), s, trace[3].after, r, p, c, true, false, clean))
  {
    hide CanonicalPath;
    var trace := LostSteps(s, p, note);
    assert trace[0].call == CopySparse(p.source, p.trash) && trace[1].call == Remove(p.source);
  }

  lemma LostEnds(s: State, r: Registration, dir: Path, note: Content)
    requires OrdinaryDisk(r) && s.Present(r.key.VhdPath()) && !s.Present(PlacesOf(r, dir).trash)
    ensures var p := PlacesOf(r, dir);
            var answers := [AskedSameVolume(p.source, dir, false), AskedList(Base(r), false, [])];
            RunEnds(ManifestFailed([true]), s, LostSteps(s, p, note), 0, answers, 0, r, dir)
  {
    hide CanonicalPath, JoinWindows, TrimPrefix, EqualFold;
    var p := PlacesOf(r, dir);
    var trace, answers := LostSteps(s, p, note), [AskedSameVolume(p.source, dir, false), AskedList(Base(r), false, [])];
    var es, t := [Entry(Remove(p.trash), false)], trace[2].after;
    assert t.Present(p.trash) && trace[3] == Step(Remove(p.trash), true, t, Effect(t, Remove(p.trash)));
    OneStep(es[0], t);
    assert trace[3..] == [trace[3]];
    OneVolumeSaid(answers[0], answers[1], r);
    assert answers[0..] == answers;
    assert trace[0..2] == [trace[0], trace[1]] && trace[..2] == [trace[0], trace[1]];
    MovesOf(trace[0], trace[1]);
    assert p.source == JoinWindows(Base(r), r.key.VhdName());
    hide Effect, Enabled, Steps, Answers, LostSteps, Volumes, Moves;
    assert Concludes(ManifestFailed([true]), s, trace, 0, 2, es, answers, 0, r, dir);
  }

  lemma OneStep(e: Entry, t: State)
    requires Enabled(t, e.call) && !e.unlessHeld
    ensures Answers([e], [true], false, t)
    ensures Steps([e], [true], false, t) == [Step(e.call, true, t, Effect(t, e.call))]
  {
    hide Enabled, Effect;
    assert [true][1..] == [];
  }

  lemma LostFiles(s: State, r: Registration, dir: Path, c: Content, note: Content)
    requires OrdinaryDisk(r) && s.Holds(r.key.VhdPath(), c)
    requires var p, t := PlacesOf(r, dir), LostSteps(s, PlacesOf(r, dir), note)[3].after;
             !t.Present(p.source) && !t.Present(p.trash)
    ensures var p := PlacesOf(r, dir);
            FilesLeft(ManifestFailed([true]), s, LostSteps(s, p, note)[3].after, Base(r), dir, [r.key.VhdName()],
                      [AskedSameVolume(p.source, dir, false)])
  {
    hide CanonicalPath, JoinWindows, TrimPrefix, EqualFold, LostSteps;
    assert r.key.VhdPath() == JoinWindows(Base(r), r.key.VhdName());
  }

  /** A sibling called like the manifest is overwritten by it, and comes back as the manifest. */
  lemma SiblingNoteIsOverwritten(s: State, sibling: Path, note: Path, x: Content, m: Content)
    requires s.Holds(sibling, x) && !s.Present(note) && x != m
    ensures var t := Effect(Effect(s, Rename(sibling, note)), WriteFile(note, m));
            Undone([Entry(Rename(note, sibling), false)], t).Holds(sibling, m)
  {
    hide CanonicalPath;
    var es := [Entry(Rename(note, sibling), false)];
    var t := Effect(Effect(s, Rename(sibling, note)), WriteFile(note, m));
    assert es[..0] == [];
    assert Undone(es, t) == Undone([], Effect(t, Rename(note, sibling)));
  }
}
