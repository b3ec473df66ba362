/** The machine a disk command works on: files, the Lxss registry and the WSL host, behind the
    ports of internal/disk/ports.go. A call may fail whenever it is made. */
module World {
  import opened Text
  import opened Paths

  type Guid = string

  /** Files are told apart by the canonical spelling of their path. */
  type FileId = Path

  datatype StringValue =
    | DistributionName | BasePath | VhdFileName | Flavor
    | OsVersion | ShortcutPath | TerminalProfilePath | PackageFamilyName
  datatype NumberValue = Version | LxssState | Flags | DefaultUid | RunOOBE | Modern

  /** One distribution key. A value that is not there reads as "" or 0, but a version as 2. */
  datatype Key = Key(strings: map<StringValue, string>, numbers: map<NumberValue, int>) {
    function Str(n: StringValue): string { if n in strings then strings[n] else "" }
    function Num(n: NumberValue): int {
      if n in numbers then numbers[n] else if n == Version then 2 else 0
    }
    function Name(): string { Str(DistributionName) }
    function VhdName(): string { VhdNameOf(Str(VhdFileName)) }
    function VhdPath(): Path {
      if Num(Version) != 2 then "" else DiskPath(Str(BasePath), Str(VhdFileName))
    }
  }

  /** Just a registration of WSL 2 with a base path names a disk; one without a version is of WSL 2. */
  lemma NamesDisk(k: Key)
    ensures k.VhdPath() != "" <==> k.Str(BasePath) != "" && (Version in k.numbers ==> k.numbers[Version] == 2)
  {
    hide TrimSeparators;
    assert k.VhdName() != "";
  }

  datatype Registration = Registration(guid: Guid, isDefault: bool, key: Key)

  datatype Manifest =
    Manifest(wasDefault: bool, registration: Registration, files: seq<string>, vhdFile: string)

  /** What a file holds. A disk and the archive made from it hold the same guest files, named by
      one token; a start writes to a disk without making it another disk. */
  datatype Content =
    | Disk(token: nat)
    | Archive(token: nat)
    | TrashNote(manifest: Manifest)
    | SnapshotNote(id: string, guid: Guid, vhdFile: string)
    | Other(bytes: nat)

  datatype State =
    State(files: map<FileId, Content>, keys: map<Guid, Key>, default: Option<Guid>)
  {
    predicate Holds(p: Path, c: Content) {
      CanonicalPath(p) in files && files[CanonicalPath(p)] == c
    }
    predicate Present(p: Path) { CanonicalPath(p) in files }
    /** The registration is the one the registry holds. */
    predicate Registered(r: Registration) { r.guid in keys && keys[r.guid] == r.key }
    /** The registration under this GUID names a disk with these contents. */
    predicate Resolves(g: Guid, c: Content) {
      g in keys && keys[g].VhdPath() != "" && Holds(keys[g].VhdPath(), c)
    }
  }

  datatype Call =
    | Rename(from: Path, to: Path)
    | CopySparse(from: Path, to: Path)
    | Remove(path: Path)
    | WriteFile(path: Path, content: Content)
    | WriteString(guid: Guid, strName: StringValue, str: string)
    | WriteDWORD(guid: Guid, numName: NumberValue, num: int)
    | SetDefault(guid: Guid)
    | Start(name: string)
    | Terminate(name: string)
    | Shutdown
    | Unregister(name: string)
    | ImportInPlace(name: string, vhd: Path)
    | Export(name: string, tar: Path)
    | ImportTar(name: string, dir: Path, tar: Path)

  datatype Step = Step(call: Call, ok: bool, before: State, after: State)

  /** The state after the steps up to `k`, of a run that began with step `n`. */
  function StateAt(s0: State, trace: seq<Step>, n: nat, k: nat): State
    requires n <= k <= |trace|
  {
    if k == n then s0 else trace[k - 1].after
  }

  /** Calls whose success has exactly one effect and whose failure has none. */
  predicate Atomic(c: Call) {
    c.Rename? || c.Remove? || c.WriteString? || c.WriteDWORD? || c.SetDefault?
  }

  predicate Enabled(s: State, c: Call) {
    match c
    case Rename(from, to) => s.Present(from) && !s.Present(to)
    case CopySparse(from, to) => s.Present(from) && !s.Present(to)
    case Remove(p) => s.Present(p)
    case WriteString(g, _, _) => g in s.keys
    case WriteDWORD(g, _, _) => g in s.keys
    case SetDefault(g) => g in s.keys
    case _ => true
  }

  /** The effect of a call that succeeds, for the calls that have just one. */
  function Effect(s: State, c: Call): State {
    match c
    case Rename(from, to) =>
      if Enabled(s, c) then
        var f, t := CanonicalPath(from), CanonicalPath(to);
        s.(files := (s.files - {f})[t := s.files[f]])
      else s
    case CopySparse(from, to) =>
      if Enabled(s, c) then s.(files := s.files[CanonicalPath(to) := s.files[CanonicalPath(from)]]) else s
    case Remove(p) => s.(files := s.files - {CanonicalPath(p)})
    case WriteFile(p, content) => s.(files := s.files[CanonicalPath(p) := content])
    case WriteString(g, n, v) =>
      if g in s.keys then s.(keys := s.keys[g := s.keys[g].(strings := s.keys[g].strings[n := v])]) else s
    case WriteDWORD(g, n, v) =>
      if g in s.keys then s.(keys := s.keys[g := s.keys[g].(numbers := s.keys[g].numbers[n := v])]) else s
    case SetDefault(g) => s.(default := Some(g))
    case _ => s
  }

  /** Nothing differs but, possibly, one file. */
  predicate OnlyFile(s: State, t: State, f: FileId) {
    && t.keys == s.keys && t.default == s.default
    && t.files - {f} == s.files - {f}
  }

  /** No file outside `fs` differs. */
  ghost predicate SameFilesBut(s: State, t: State, fs: set<FileId>) {
    forall f :: f !in fs ==> (f in s.files <==> f in t.files) && (f in s.files ==> s.files[f] == t.files[f])
  }

  lemma OnlyFileMeans(s: State, t: State, f: FileId)
    requires OnlyFile(s, t, f)
    ensures SameFilesBut(s, t, {f})
  {
    forall g | g !in {f}
      ensures (g in s.files <==> g in t.files) && (g in s.files ==> s.files[g] == t.files[g])
    {
      assert g in s.files <==> g in s.files - {f};
      assert g in t.files <==> g in t.files - {f};
    }
  }

  /** Nothing that was there has gone or changed. */
  predicate Grows(s: State, t: State) {
    && (forall f | f in s.files :: f in t.files && t.files[f] == s.files[f])
    && (forall g | g in s.keys :: g in t.keys && t.keys[g] == s.keys[g])
    && t.default == s.default
  }

  predicate Named(s: State, g: Guid, name: string) {
    g in s.keys && EqualFold(s.keys[g].Name(), name)
  }

  /** Unregistering deletes the disk at the registered path along with the key. */
  predicate Unregisters(s: State, g: Guid, name: string, t: State) {
    && Named(s, g, name)
    && t.keys == s.keys - {g}
    && t.files == s.files - {CanonicalPath(s.keys[g].VhdPath())}
    && (s.default != Some(g) ==> t.default == s.default)
  }

  /** A fresh key appears, naming the given disk. */
  predicate Imports(s: State, g: Guid, name: string, vhd: Path, t: State) {
    && g !in s.keys && g in t.keys && t.keys == s.keys[g := t.keys[g]]
    && t.keys[g].Name() == name && t.keys[g].Num(Version) == 2
    && t.keys[g].VhdPath() != "" && SamePath(t.keys[g].VhdPath(), vhd)
    && (t.default == s.default || t.default == Some(g))
  }

  /** What a call may do, by whether it answered success. */
  predicate Outcome(s: State, c: Call, ok: bool, t: State) {
    match c
    case CopySparse(from, to) =>
      if ok then Enabled(s, c) && t == Effect(s, c)
      else t == s || (!s.Present(to) && OnlyFile(s, t, CanonicalPath(to)))
    case WriteFile(p, _) =>
      if ok then t == Effect(s, c) else OnlyFile(s, t, CanonicalPath(p))
    case Unregister(name) =>
      if ok then exists g | g in s.keys :: Unregisters(s, g, name, t) else t == s
    case ImportInPlace(name, vhd) =>
      if ok then s.Present(vhd) && t.files == s.files && exists g | g in t.keys :: Imports(s, g, name, vhd, t)
      else t == s
    case Export(name, tar) =>
      if ok then t == s || (exists g | g in s.keys :: Exports(s, g, name, tar, t))
      else OnlyFile(s, t, CanonicalPath(tar))
    case ImportTar(name, dir, tar) =>
      if ok then exists g | g in t.keys :: ImportsTar(s, g, name, tar, t)
      else Grows(s, t)
    case Start(_) => t == s
    case Terminate(_) => t == s
    case Shutdown => t == s
    case _ => if ok then Enabled(s, c) && t == Effect(s, c) else t == s
  }

  predicate Exports(s: State, g: Guid, name: string, tar: Path, t: State) {
    && Named(s, g, name)
    && s.Present(s.keys[g].VhdPath()) && s.files[CanonicalPath(s.keys[g].VhdPath())].Disk?
    && t == s.(files := s.files[CanonicalPath(tar) := Archive(s.files[CanonicalPath(s.keys[g].VhdPath())].token)])
  }

  /** A new disk, with the archive's contents, at a path nothing was at. */
  predicate ImportsTar(s: State, g: Guid, name: string, tar: Path, t: State) {
    && s.Present(tar) && s.files[CanonicalPath(tar)].Archive?
    && g in t.keys
    && Imports(s, g, name, t.keys[g].VhdPath(), t)
    && !s.Present(t.keys[g].VhdPath())
    && t.files == s.files[CanonicalPath(t.keys[g].VhdPath()) := Disk(s.files[CanonicalPath(tar)].token)]
  }

  predicate Listed(s: State, dir: Path, e: Path) {
    s.Present(e) && PlainName(BaseOf(e)) && e == JoinWindows(dir, BaseOf(e))
  }

  /** The questions are recorded with the number of calls before them. */
  datatype Probe =
    | AskedRunning(answered: bool, names: seq<string>, at: nat)
    | AskedLocked(path: Path, answered: bool, locked: bool, at: nat)
    | Slept(ms: nat)

  /** A folder that was to be made. */
  datatype Folder = Folder(path: Path, made: bool)

  /** A listing of the distributions, where it was not refused. */
  datatype Listing = Listing(answered: bool, list: seq<Registration>)

  /** What a question about the files was answered, and what was true when it was asked. */
  datatype Answer =
    | AskedExists(path: Path, there: bool, present: bool, at: nat)  // after `at` calls
    | AskedSameVolume(from: Path, to: Path, same: bool)
    | AskedList(dir: Path, listed: bool, entries: seq<Path>)

  /** A file is in a folder if a name in that folder leads to it. */
  predicate InFolder(f: FileId, dir: Path) {
    exists i | 0 <= i <= |f| :: f == CanonicalPath(JoinWindows(dir, f[i..]))
  }

  /** A folder with a file in it. */
  predicate FolderHasFile(s: State, dir: Path) {
    exists f | f in s.files :: InFolder(f, dir)
  }

  lemma LowerIsPlain(name: string)
    requires PlainName(name)
    ensures PlainName(Lower(name)) && EqualFold(Lower(name), name)
  {
    assert forall k :: 0 <= k < |name| ==> IsSeparator(Lower(name)[k]) == IsSeparator(name[k]);
  }

  lemma FileInItsFolder(s: State, dir: Path, name: string)
    requires PlainName(name) && s.Present(JoinWindows(dir, name))
    ensures FolderHasFile(s, dir)
  {
    hide CanonicalPath, JoinWindows, Lower, EqualFold, PlainName, LastSeparator;
    var f := CanonicalPath(JoinWindows(dir, name));
    JoinedName(dir, name);
    LowerIsPlain(name);
    FoldedNameSameFile(dir, Lower(name), name);
    assert f[LastSeparator(f) + 1..] == Lower(name);
    assert InFolder(f, dir);
  }

  ghost predicate AllWorked(trace: seq<Step>, n: nat) {
    forall i :: n <= i < |trace| ==> trace[i].ok
  }

  lemma WorkedSnoc(before: seq<Step>, after: seq<Step>, n: nat)
    requires n <= |before| && |after| == |before| + 1 && before <= after
    ensures AllWorked(after, n) <==> AllWorked(before, n) && after[|before|].ok
  {
    forall i | n <= i < |before| ensures after[i] == before[i] {
    }
  }

  lemma WorkedOn(before: seq<Step>, after: seq<Step>, n: nat)
    requires n <= |before| && before <= after
    ensures AllWorked(after, n) <==> AllWorked(before, n) && AllWorked(after, |before|)
  {
    forall i | n <= i < |before| ensures after[i] == before[i] {
    }
  }

  class Machine {
    var st: State
    /** Every call that may change something, with the state either side of it. */
    ghost var trace: seq<Step>
    var now: int
    /** The questions of the waiting loop, which change nothing. */
    ghost var probes: seq<Probe>
    ghost var answers: seq<Answer>
    /** How many folders could not be made and registry values could not be read. */
    ghost var refusals: nat
    ghost var folders: seq<Folder>
    ghost var listings: seq<Listing>

    method Do(c: Call) returns (ok: bool)
      modifies this`st, this`trace
      ensures Outcome(old(st), c, ok, st)
      ensures trace == old(trace) + [Step(c, ok, old(st), st)]
    {
      var next: State := *;
      var answer: bool := *;
      if !Outcome(st, c, answer, next) {
        answer, next := false, st;
      }
      trace := trace + [Step(c, answer, st, next)];
      st, ok := next, answer;
    }

    /** A question the file system does not answer is taken for a yes. */
    method Exists(p: Path) returns (there: bool)
      modifies this`answers
      ensures st.Present(p) ==> there
      ensures answers == old(answers) + [AskedExists(p, there, st.Present(p), |trace|)]
    {
      there := *;
      there := there || st.Present(p);
      answers := answers + [AskedExists(p, there, st.Present(p), |trace|)];
    }

    /** The same question of a folder, which is there if there is any file in it. */
    method FolderExists(dir: Path) returns (there: bool)
      modifies this`answers
      ensures FolderHasFile(st, dir) ==> there
      ensures answers == old(answers) + [AskedExists(dir, there, FolderHasFile(st, dir), |trace|)]
    {
      there := *;
      there := there || FolderHasFile(st, dir);
      answers := answers + [AskedExists(dir, there, FolderHasFile(st, dir), |trace|)];
    }

    /** An error counts as "no". */
    method SameVolume(a: Path, b: Path) returns (same: bool)
      modifies this`answers
      ensures answers == old(answers) + [AskedSameVolume(a, b, same)]
    {
      same := *;
      answers := answers + [AskedSameVolume(a, b, same)];
    }

    /** Directories are not part of the state, but creating one can fail. */
    method MkdirAll(dir: Path) returns (ok: bool)
      modifies this`refusals, this`folders
      ensures refusals == old(refusals) + if ok then 0 else 1
      ensures folders == old(folders) + [Folder(dir, ok)]
    {
      ok := *;
      refusals := refusals + if ok then 0 else 1;
      folders := folders + [Folder(dir, ok)];
    }

    method ReadString(g: Guid, n: StringValue) returns (ok: bool, v: Option<string>)
      modifies this`refusals
      ensures refusals == old(refusals) + if ok then 0 else 1
      ensures ok ==> g in st.keys && v == if n in st.keys[g].strings then Some(st.keys[g].strings[n]) else None
    {
      ok := *;
      ok := ok && g in st.keys;
      v := if ok && n in st.keys[g].strings then Some(st.keys[g].strings[n]) else None;
      refusals := refusals + if ok then 0 else 1;
    }

    method ReadDWORD(g: Guid, n: NumberValue) returns (ok: bool, v: Option<int>)
      modifies this`refusals
      ensures refusals == old(refusals) + if ok then 0 else 1
      ensures ok ==> g in st.keys && v == if n in st.keys[g].numbers then Some(st.keys[g].numbers[n]) else None
    {
      ok := *;
      ok := ok && g in st.keys;
      v := if ok && n in st.keys[g].numbers then Some(st.keys[g].numbers[n]) else None;
      refusals := refusals + if ok then 0 else 1;
    }

    method DefaultDistribution() returns (ok: bool, g: Option<Guid>)
      modifies this`refusals
      ensures refusals == old(refusals) + if ok then 0 else 1
      ensures ok ==> g == st.default
    {
      ok := *;
      g := st.default;
      refusals := refusals + if ok then 0 else 1;
    }

    /** A listing may leave keys out. */
    method Distros() returns (ok: bool, list: seq<Registration>)
      modifies this`refusals, this`listings
      ensures refusals == old(refusals) + if ok then 0 else 1
      ensures listings == old(listings) + [Listing(ok, list)]
      ensures ok ==> forall r | r in list :: st.Registered(r) && r.isDefault == (st.default == Some(r.guid))
      ensures ok ==> forall i, j :: 0 <= i < j < |list| ==> list[i].guid != list[j].guid
    {
      ok := *;
      list := *;
      if exists i, j :: 0 <= i < j < |list| && list[i].guid == list[j].guid {
        list := [];
      }
      if exists r | r in list :: !(st.Registered(r) && r.isDefault == (st.default == Some(r.guid))) {
        list := [];
      }
      refusals := refusals + if ok then 0 else 1;
      listings := listings + [Listing(ok, list)];
    }

    /** The files, not the directories, of a listing. */
    method List(dir: Path) returns (ok: bool, entries: seq<Path>)
      modifies this`answers
      ensures ok ==> forall e | e in entries :: Listed(st, dir, e)
      ensures answers == old(answers) + [AskedList(dir, ok, entries)]
    {
      ok := *;
      entries := *;
      if exists e | e in entries :: !Listed(st, dir, e) {
        entries := [];
      }
      answers := answers + [AskedList(dir, ok, entries)];
    }

    method Running() returns (ok: bool, names: seq<string>)
      modifies this`probes
      ensures probes == old(probes) + [AskedRunning(ok, names, |trace|)]
    {
      ok := *;
      names := *;
      probes := probes + [AskedRunning(ok, names, |trace|)];
    }

    method Locked(p: Path) returns (ok: bool, locked: bool)
      modifies this`probes
      ensures probes == old(probes) + [AskedLocked(p, ok, locked, |trace|)]
    {
      ok := *;
      locked := *;
      probes := probes + [AskedLocked(p, ok, locked, |trace|)];
    }

    /** Time passes on its own too. */
    method Now() returns (t: int)
      modifies this`now
      ensures t == now >= old(now)
    {
      var passed: int := *;
      if passed > 0 {
        now := now + passed;
      }
      t := now;
    }

    method Sleep(ms: nat)
      modifies this`now, this`probes
      ensures now >= old(now) + ms
      ensures probes == old(probes) + [Slept(ms)]
    {
      var extra: int := *;
      now := now + ms + if extra > 0 then extra else 0;
      probes := probes + [Slept(ms)];
    }
  }
}
