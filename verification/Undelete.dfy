/** Bringing a trashed distribution back (Undelete in internal/disk/trash.go), and finding a
    registration by name (Resolve in internal/disk/disk.go). */
module Undelete {
  import opened Text
  import opened Paths
  import opened World
  import opened Wait
  import opened Trash

  datatype Resolution =
    | Found(registration: Registration)
    | NoDistros
    | NoDefault
    | NotFound
    | Ambiguous

  /** The exact name is found first; a name that differs in case is found if no other does. */
  ghost predicate Resolves(list: seq<Registration>, name: string, o: Resolution) {
    match o
    case Found(r) =>
      if name == "" then r in list && r.isDefault
      else if exists x :: x in list && x.key.Name() == name then r in list && r.key.Name() == name
      else exists i :: 0 <= i < |list| && list[i] == r
             && forall j :: 0 <= j < |list| ==> (EqualFold(list[j].key.Name(), name) <==> i == j)
    case NoDistros => list == []
    case NoDefault => list != [] && name == "" && forall x | x in list :: !x.isDefault
    case NotFound => list != [] && name != "" && forall x | x in list :: !EqualFold(x.key.Name(), name)
    case Ambiguous =>
      && name != "" && (forall x | x in list :: x.key.Name() != name)
      && exists i, j :: 0 <= i < j < |list|
                        && EqualFold(list[i].key.Name(), name) && EqualFold(list[j].key.Name(), name)
  }

  method Resolve(list: seq<Registration>, name: string) returns (o: Resolution)
    ensures Resolves(list, name, o)
  {
    if |list| == 0 {
      return NoDistros;
    }
    if name == "" {
      for i := 0 to |list|
        invariant forall k :: 0 <= k < i ==> !list[k].isDefault
      {
        if list[i].isDefault {
          return Found(list[i]);
        }
      }
      return NoDefault;
    }
    for i := 0 to |list|
      invariant forall k :: 0 <= k < i ==> list[k].key.Name() != name
    {
      if list[i].key.Name() == name {
        return Found(list[i]);
      }
    }
    hide EqualFold;
    var hits: seq<nat> := [];
    for i := 0 to |list|
      invariant forall a :: 0 <= a < |hits| ==> hits[a] < i && EqualFold(list[hits[a]].key.Name(), name)
      invariant forall k :: 0 <= k < i && EqualFold(list[k].key.Name(), name) ==> k in hits
      invariant forall a, b :: 0 <= a < b < |hits| ==> hits[a] < hits[b]
    {
      if EqualFold(list[i].key.Name(), name) {
        hits := hits + [i];
      }
    }
    if |hits| == 0 {
      return NotFound;
    }
    if |hits| == 1 {
      return Found(list[hits[0]]);
    }
    assert hits[0] < hits[1];
    o := Ambiguous;
  }

  /** A DWORD holds 32 bits. */
  const DWORD: int := 0x1_0000_0000

  function Stored(v: int): int {
    v % DWORD
  }

  const SETTINGS: seq<NumberValue> := [DefaultUid, Flags]

  /** Only the numbers of one key, and the default, may differ. */
  ghost predicate OnlyNumbers(s: State, t: State, g: Guid) {
    && t.files == s.files && g in s.keys && g in t.keys && t.keys - {g} == s.keys - {g}
    && t.keys[g].strings == s.keys[g].strings
    && forall n :: n !in SETTINGS ==>
         (n in t.keys[g].numbers <==> n in s.keys[g].numbers)
         && (n in t.keys[g].numbers ==> t.keys[g].numbers[n] == s.keys[g].numbers[n])
  }

  predicate PutBack(s: State, g: Guid, m: Manifest, n: NumberValue) {
    m.registration.key.Num(n) >= 0 ==>
      g in s.keys && n in s.keys[g].numbers && s.keys[g].numbers[n] == Stored(m.registration.key.Num(n))
  }

  /** The first `i` numbers, as far as the manifest has them. */
  function NumberCalls(g: Guid, m: Manifest, i: nat): seq<Call>
    requires i <= |SETTINGS|
  {
    if i == 0 then []
    else
      var v := m.registration.key.Num(SETTINGS[i - 1]);
      NumberCalls(g, m, i - 1) + if v >= 0 then [WriteDWORD(g, SETTINGS[i - 1], Stored(v))] else []
  }

  /** What there is to be put back. */
  function SettingCalls(g: Guid, m: Manifest): seq<Call> {
    var uid, flags := m.registration.key.Num(DefaultUid), m.registration.key.Num(Flags);
    (if uid >= 0 then [WriteDWORD(g, DefaultUid, Stored(uid))] else [])
    + (if flags >= 0 then [WriteDWORD(g, Flags, Stored(flags))] else [])
    + (if m.wasDefault then [SetDefault(g)] else [])
  }

  lemma NumbersAre(g: Guid, m: Manifest)
    ensures SettingCalls(g, m) == NumberCalls(g, m, |SETTINGS|) + if m.wasDefault then [SetDefault(g)] else []
  {
    assert SETTINGS[0] == DefaultUid && SETTINGS[1] == Flags;
    assert NumberCalls(g, m, 0) == [];
    assert NumberCalls(g, m, 2) == NumberCalls(g, m, 1) + (NumberCalls(g, m, 2)[|NumberCalls(g, m, 1)|..]);
  }

  /** The steps from `n` on are these calls. */
  predicate Made(trace: seq<Step>, n: nat, calls: seq<Call>) {
    |trace| == n + |calls| && forall i :: 0 <= i < |calls| ==> trace[n + i].call == calls[i]
  }

  /** Default user, flags and default mark, each of them tried. */
  method RestoreSettings(w: Machine, g: Guid, m: Manifest) returns (ok: bool)
    requires g in w.st.keys
    modifies w`st, w`trace
    ensures OnlyNumbers(old(w.st), w.st, g)
    ensures old(w.trace) <= w.trace
    // Every one of them is tried, whatever became of the others, and success is that of all.
    ensures Made(w.trace, |old(w.trace)|, SettingCalls(g, m))
    ensures ok <==> AllWorked(w.trace, |old(w.trace)|)
    ensures forall i :: |old(w.trace)| <= i < |w.trace| ==>
              w.trace[i].after.files == old(w.st).files && !w.trace[i].call.Unregister?
    ensures ok ==> PutBack(w.st, g, m, DefaultUid) && PutBack(w.st, g, m, Flags)
    ensures ok && m.wasDefault ==> w.st.default == Some(g)
    ensures !m.wasDefault ==> w.st.default == old(w.st).default
  {
    hide NumberCalls, SettingCalls, Stored, AllWorked;
    ghost var n0 := |w.trace|;
    assert AllWorked(w.trace, n0) by { NoneFailed(w.trace); }
    ok := true;
    NumbersAre(g, m);
    assert NumberCalls(g, m, 0) == [] by { NoNumbers(g, m); }
    for i := 0 to |SETTINGS|
      invariant Made(w.trace, |old(w.trace)|, NumberCalls(g, m, i)) && (ok <==> AllWorked(w.trace, |old(w.trace)|))
      invariant OnlyNumbers(old(w.st), w.st, g) && w.st.default == old(w.st).default
      invariant old(w.trace) <= w.trace
      invariant forall k :: |old(w.trace)| <= k < |w.trace| ==>
                  w.trace[k].after.files == old(w.st).files && !w.trace[k].call.Unregister?
      invariant ok ==> forall k :: 0 <= k < i ==> PutBack(w.st, g, m, SETTINGS[k])
    {
      var n := SETTINGS[i];
      NextNumber(g, m, i);
      if m.registration.key.Num(n) >= 0 {
        ghost var s, before := w.st, w.trace;
        var written := w.Do(WriteDWORD(g, n, Stored(m.registration.key.Num(n))));
        ok := ok && written;
        WorkedSnoc(before, w.trace, n0);
        Setting(old(w.st), s, w.st, g, m, i, written);
      }
    }
    assert SETTINGS[0] == DefaultUid && SETTINGS[1] == Flags;
    if m.wasDefault {
      ghost var before := w.trace;
      var made := w.Do(SetDefault(g));
      WorkedSnoc(before, w.trace, n0);
      ok := ok && made;
    }
  }

  lemma NoneFailed(trace: seq<Step>)
    ensures AllWorked(trace, |trace|)
  {
  }

  lemma NoNumbers(g: Guid, m: Manifest)
    ensures NumberCalls(g, m, 0) == []
  {
  }

  lemma NextNumber(g: Guid, m: Manifest, i: nat)
    requires i < |SETTINGS|
    ensures var v := m.registration.key.Num(SETTINGS[i]);
            NumberCalls(g, m, i + 1)
            == NumberCalls(g, m, i) + if v >= 0 then [WriteDWORD(g, SETTINGS[i], Stored(v))] else []
  {
  }

  lemma Setting(s0: State, s: State, t: State, g: Guid, m: Manifest, i: nat, written: bool)
    requires i < |SETTINGS| && OnlyNumbers(s0, s, g)
    requires Outcome(s, WriteDWORD(g, SETTINGS[i], Stored(m.registration.key.Num(SETTINGS[i]))), written, t)
    ensures OnlyNumbers(s0, t, g) && t.default == s.default
    ensures written ==> PutBack(t, g, m, SETTINGS[i])
    ensures forall n :: n != SETTINGS[i] && PutBack(s, g, m, n) ==> PutBack(t, g, m, n)
  {
    assert SETTINGS[i] in SETTINGS;
  }

  datatype UndeleteOutcome =
    | DiskMissing
    | NotImported
    | NotListed
    | SettingsLost(revived: Registration)
    | Undeleted(revived: Registration)

  /** No distribution answers to the name. */
  ghost predicate NameFree(s: State, name: string) {
    forall g :: !Named(s, g, name)
  }

  /** A new key of that name, for the disk where it lies. */
  ghost predicate Registers(s: State, t: State, g: Guid, name: string, vhd: Path) {
    && g !in s.keys && g in t.keys && t.keys - {g} == s.keys
    && t.keys[g].Name() == name && t.keys[g].VhdPath() != "" && SamePath(t.keys[g].VhdPath(), vhd)
  }

  /** The listing holds the key that the step made. */
  ghost predicate ListsNew(l: Listing, step: Step) {
    l.answered && exists x | x in l.list :: x.guid in step.after.keys && x.guid !in step.before.keys
  }

  /** Why an undelete ended as it did, by the import at step `n` and the listing after it. */
  ghost predicate UndeleteCause(o: UndeleteOutcome, trace: seq<Step>, n: nat, listings: seq<Listing>) {
    match o
    case DiskMissing => listings == []
    case NotImported => |trace| == n + 1 && !trace[n].ok && listings == []
    case NotListed => |trace| == n + 1 && trace[n].ok && |listings| == 1 && !ListsNew(listings[0], trace[n])
    case SettingsLost(_) => |trace| > n && |listings| == 1 && ListsNew(listings[0], trace[n]) && !AllWorked(trace, n)
    case Undeleted(_) => |trace| > n && |listings| == 1 && ListsNew(listings[0], trace[n]) && AllWorked(trace, n)
  }

  lemma NewIsFresh(step: Step, g: Guid, name: string, vhd: Path, l: Listing)
    requires Imports(step.before, g, name, vhd, step.after)
    ensures ListsNew(l, step) <==> l.answered && exists x | x in l.list :: x.guid == g
  {
    hide CanonicalPath;
  }

  /** A new key that is listed is found by its name. */
  lemma ListedIsFound(s0: State, s: State, g: Guid, name: string, vhd: Path, list: seq<Registration>, o: Resolution)
    requires name != "" && Imports(s0, g, name, vhd, s) && Resolves(list, name, o)
    requires forall x | x in list :: s.Registered(x)
    ensures (exists x | x in list :: x.guid == g) ==> o.Found?
    ensures NameFree(s0, name) && o.Found? ==> exists x | x in list :: x.guid == g
  {
    hide CanonicalPath;
    FoldsToItself(name);
    if o.Found? && NameFree(s0, name) {
      OnlyTheFresh(s0, s, g, name, vhd, list, o.registration);
    }
  }

  /** Registers the disk where it lies and puts its settings back. */
  method Undelete(w: Machine, dir: Path, man: Manifest) returns (o: UndeleteOutcome)
    requires man.registration.key.Name() != "" && NameFree(w.st, man.registration.key.Name())
    modifies w`st, w`trace, w`answers, w`refusals, w`listings
    // Every outcome has its cause: the disk was said not to be there, the import failed, the listing was
    // refused or left the new key out, or a setting could not be written.
    ensures old(w.listings) <= w.listings && w.refusals >= old(w.refusals)
    ensures UndeleteCause(o, w.trace, |old(w.trace)|, w.listings[|old(w.listings)|..])
    ensures var vhd := JoinWindows(dir, man.vhdFile);
            w.answers == old(w.answers) + [AskedExists(vhd, !o.DiskMissing?, old(w.st).Present(vhd), |old(w.trace)|)]
    ensures o.NotImported? || o.NotListed? ==>
              Made(w.trace, |old(w.trace)|, [ImportInPlace(man.registration.key.Name(), JoinWindows(dir, man.vhdFile))])
    ensures o.DiskMissing? ==> w.trace == old(w.trace) && !old(w.st).Present(JoinWindows(dir, man.vhdFile))
    ensures !o.DiskMissing? ==>
              && |w.trace| > |old(w.trace)|
              && w.trace[|old(w.trace)|].call
                 == ImportInPlace(man.registration.key.Name(), JoinWindows(dir, man.vhdFile))
    ensures o.Undeleted? || o.SettingsLost? ==>
              Made(w.trace, |old(w.trace)|, [ImportInPlace(man.registration.key.Name(), JoinWindows(dir, man.vhdFile))]
                                            + SettingCalls(o.revived.guid, man))
    ensures old(w.trace) <= w.trace && w.st.files == old(w.st).files
    ensures forall i :: |old(w.trace)| <= i < |w.trace| ==> w.trace[i].after.files == old(w.st).files
    ensures o.DiskMissing? || o.NotImported? ==> w.st == old(w.st)
    ensures o.Undeleted? || o.SettingsLost? ==>
              Registers(old(w.st), w.st, o.revived.guid, man.registration.key.Name(), JoinWindows(dir, man.vhdFile))
    ensures o.Undeleted? ==>
              && PutBack(w.st, o.revived.guid, man, DefaultUid) && PutBack(w.st, o.revived.guid, man, Flags)
              && (man.wasDefault ==> w.st.default == Some(o.revived.guid))
  {
    hide CanonicalPath, JoinWindows, EqualFold, AllWorked, Stored, SettingCalls, NumberCalls, PutBack, NameFree,
      OnlyNumbers, Registers, Imports, Resolves, ListsNew;
    ghost var n := |w.trace|;
    NoneFailed(w.trace);
    var name := man.registration.key.Name();
    var vhd := JoinWindows(dir, man.vhdFile);
    var there := w.Exists(vhd);
    if !there {
      return DiskMissing;
    }
    ghost var s0 := w.st;
    var imported := w.Do(ImportInPlace(name, vhd));
    WorkedSnoc(old(w.trace), w.trace, n);
    if !imported {
      return NotImported;
    }
    ghost var g: Guid :| g in w.st.keys && Imports(s0, g, name, vhd, w.st);
    var read, list := w.Distros();
    NewIsFresh(w.trace[n], g, name, vhd, Listing(read, list));
    if !read {
      return NotListed;
    }
    var found := Resolve(list, name);
    ListedIsFound(s0, w.st, g, name, vhd, list, found);
    if !found.Found? {
      return NotListed;
    }
    var revived := found.registration;
    OnlyTheFresh(s0, w.st, g, name, vhd, list, revived);
    ghost var s1, run := w.st, w.trace;
    var restored := RestoreSettings(w, revived.guid, man);
    WorkedOn(run, w.trace, n);
    Revived(s0, s1, w.st, g, name, vhd);
    assert w.trace[n] == run[n];
    MadeAfter(old(w.trace), run, w.trace, ImportInPlace(name, vhd), SettingCalls(revived.guid, man));
    o := if restored then Undeleted(revived) else SettingsLost(revived);
  }

  lemma MadeAfter(before: seq<Step>, mid: seq<Step>, after: seq<Step>, c: Call, calls: seq<Call>)
    requires |mid| == |before| + 1 && mid[|before|].call == c && mid <= after && Made(after, |mid|, calls)
    ensures Made(after, |before|, [c] + calls)
  {
    var all, n := [c] + calls, |before|;
    forall i | 0 <= i < |all| ensures after[n + i].call == all[i] {
      if i == 0 {
        assert after[n] == mid[n];
      } else {
        assert after[n + i] == after[|mid| + (i - 1)] && all[i] == calls[i - 1];
      }
    }
  }

  lemma MadeJoin(before: seq<Step>, mid: seq<Step>, after: seq<Step>, a: seq<Call>, b: seq<Call>)
    requires mid <= after && Made(mid, |before|, a) && Made(after, |mid|, b)
    ensures Made(after, |before|, a + b)
  {
    var all, n := a + b, |before|;
    forall i | 0 <= i < |all| ensures after[n + i].call == all[i] {
      if i < |a| {
        assert after[n + i] == mid[n + i];
      } else {
        assert after[n + i] == after[|mid| + (i - |a|)] && all[i] == b[i - |a|];
      }
    }
  }

  lemma MadeOne(before: seq<Step>, after: seq<Step>, c: Call)
    requires |after| == |before| + 1 && after[|before|].call == c
    ensures Made(after, |before|, [c])
  {
  }

  lemma Revived(s0: State, s: State, t: State, g: Guid, name: string, vhd: Path)
    requires Imports(s0, g, name, vhd, s) && OnlyNumbers(s, t, g)
    ensures Registers(s0, t, g, name, vhd) && t.files == s.files
  {
    hide CanonicalPath, JoinWindows;
    assert Version !in SETTINGS;
  }

  /** The name leads to the key the import made and to no other. */
  lemma OnlyTheFresh(s0: State, s: State, g: Guid, name: string, vhd: Path, list: seq<Registration>, r: Registration)
    requires name != "" && NameFree(s0, name) && Imports(s0, g, name, vhd, s)
    requires forall x | x in list :: s.Registered(x)
    requires Resolves(list, name, Found(r))
    ensures r.guid == g
  {
    hide CanonicalPath;
    if r in list && EqualFold(r.key.Name(), name) {
      assert Named(s, r.guid, name);
      assert r.guid != g ==> Named(s0, r.guid, name);
    }
  }

  /* ---- there and back ---- */

  /** A registry key whose numbers are DWORDs. */
  predicate HoldsDwords(k: Key) {
    forall n | n in k.numbers :: 0 <= k.numbers[n] < DWORD
  }

  /** After trashing, the import was tried, and what became of it has its cause. */
  ghost predicate UndeletedAfter(u: UndeleteOutcome, trace: seq<Step>, n: nat, listings: seq<Listing>) {
    exists m: nat :: n <= m < |trace| && trace[m].call.ImportInPlace? && UndeleteCause(u, trace, m, listings)
  }

  /** Trashing a distribution and undeleting it gives it back: same name, same disk, same default
      user and flags, and the default again if it was. */
  method TrashThenUndelete(w: Machine, r: Registration, trashRoot: Path, shutdown: bool, asked: int, ghost c: Content)
    returns (t: TrashOutcome, u: UndeleteOutcome)
    requires w.st.Registered(r) && OrdinaryDisk(r) && SoleName(w.st, r) && HoldsDwords(r.key)
    requires w.st.Holds(r.key.VhdPath(), c) && r.key.Name() != ""
    modifies w`st, w`trace, w`now, w`probes, w`answers, w`refusals, w`folders, w`listings
    // What was trashed is found again, unless a call fails or the listing leaves it out.
    ensures old(w.listings) <= w.listings && old(w.trace) <= w.trace
    ensures |w.trace| > |old(w.trace)| ==> w.trace[|old(w.trace)|].call == StopCall(r, shutdown)
    ensures !t.Trashed? ==> u.DiskMissing?
    ensures t.Trashed? ==> UndeletedAfter(u, w.trace, |old(w.trace)|, w.listings[|old(w.listings)|..])
    ensures t.Trashed? && u.Undeleted? ==>
              var g := u.revived.guid;
              && g in w.st.keys && w.st.Resolves(g, c)
              && w.st.keys[g].Name() == r.key.Name()
              && w.st.keys[g].Num(DefaultUid) == r.key.Num(DefaultUid)
              && w.st.keys[g].Num(Flags) == r.key.Num(Flags)
              && (old(w.st).default == Some(r.guid) ==> w.st.default == Some(g))
              && w.st.keys - {g} == old(w.st).keys - {r.guid}
  {
    hide CanonicalPath, JoinWindows, EqualFold;
    t := Trash.Trash(w, r, trashRoot, shutdown, asked, c);
    u := DiskMissing;
    if t.Trashed? {
      ghost var s := w.st;
      assert NameFree(s, r.key.Name()) by {
        forall g ensures !Named(s, g, r.key.Name()) {
          assert Named(s, g, r.key.Name()) ==> Named(old(w.st), g, r.key.Name());
        }
      }
      ghost var m := |w.trace|;
      u := Undelete(w, JoinWindows(trashRoot, r.guid), t.manifest);
      assert w.trace[m].call.ImportInPlace? && UndeleteCause(u, w.trace, m, w.listings[|old(w.listings)|..]);
      if u.Undeleted? {
        SettingsComeBack(w.st, u.revived.guid, t.manifest, DefaultUid);
        SettingsComeBack(w.st, u.revived.guid, t.manifest, Flags);
        FoldsToItself(r.guid);
      }
    }
  }

  lemma SettingsComeBack(s: State, g: Guid, m: Manifest, n: NumberValue)
    requires g in s.keys && PutBack(s, g, m, n) && HoldsDwords(m.registration.key)
    ensures s.keys[g].Num(n) == m.registration.key.Num(n)
  {
  }
}
