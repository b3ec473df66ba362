/** What is written is read back, and nothing else can be: the settings file of internal/disk/config.go. */
module SettingsRoundTrip {
  import opened Text
  import opened Decimal
  import opened Toml
  import opened Settings

  /** Reading these lines, wherever they stand, takes one document to the other. */
  ghost predicate Reads(d: Doc, lines: seq<string>, e: Doc) {
    forall n: nat :: ReadLines(d, lines, n) == At(e)
  }

  lemma {:induction false} ReadAppend(d: Doc, a: seq<string>, b: seq<string>, n: nat)
    ensures ReadLines(d, a + b, n)
            == var o := ReadLines(d, a, n); if o.At? then ReadLines(o.doc, b, n + |a|) else o
    decreases a
  {
    hide LineStep, Classify;
    if a == [] {
      assert a + b == b;
    } else {
      assert (a + b)[1..] == a[1..] + b;
      var next := LineStep(d, Classify(a[0]), n);
      if next.At? {
        ReadAppend(next.doc, a[1..], b, n + 1);
      }
    }
  }

  lemma ReadsBoth(d: Doc, a: seq<string>, e: Doc, b: seq<string>, f: Doc)
    requires Reads(d, a, e) && Reads(e, b, f)
    ensures Reads(d, a + b, f)
  {
    hide ReadLines;
    forall n: nat ensures ReadLines(d, a + b, n) == At(f) {
      ReadAppend(d, a, b, n);
    }
  }

  lemma ReadsOne(d: Doc, l: string, e: Doc)
    requires forall n: nat :: LineStep(d, Classify(l), n) == At(e)
    ensures Reads(d, [l], e)
  {
    hide LineStep, Classify;
    forall n: nat ensures ReadLines(d, [l], n) == At(e) {
      assert [l][1..] == [];
    }
  }

  /* ---- single lines ---- */

  predicate IsComment(l: string) {
    l == "" || l[0] == '#'
  }

  lemma CommentClassified(l: string)
    requires IsComment(l)
    ensures Classify(l) == Nothing
  {
    if l != "" {
      assert TrimLeft(l) == l;
      var j := TrimRightIs(l);
      FirstStays(l);
    }
  }

  lemma CommentReads(d: Doc, l: string)
    requires IsComment(l)
    ensures Reads(d, [l], d)
  {
    CommentClassified(l);
    hide Classify;
    ReadsOne(d, l, d);
  }

  lemma {:induction false} CommentsRead(d: Doc, ls: seq<string>)
    requires forall i :: 0 <= i < |ls| ==> IsComment(ls[i])
    ensures Reads(d, ls, d)
  {
    hide ReadLines;
    if ls == [] {
      NoneReads(d);
    } else {
      CommentReads(d, ls[0]);
      CommentsRead(d, ls[1..]);
      assert [ls[0]] + ls[1..] == ls;
      ReadsBoth(d, [ls[0]], d, ls[1..], d);
    }
  }

  lemma NoneReads(d: Doc)
    ensures Reads(d, [], d)
  {
  }

  lemma HeaderReads(d: Doc, name: string)
    requires name != "" && Trimmed(name) && name[0] != '['
    ensures Reads(d, ["[" + name + "]"], d.(section := name))
  {
    var l := "[" + name + "]";
    TrimmedStays(l);
    TrimmedStays(name);
    assert l[1..|l| - 1] == name && l[1] == name[0];
    assert Classify(l) == Header(name);
    ReadsOne(d, l, d.(section := name));
  }

  lemma ArrayHeaderClassified()
    ensures Classify(ARRAY_OF_DISKS) == ArrayHeader(ARRAY_OF_DISKS)
  {
    var l := ARRAY_OF_DISKS;
    TrimmedStays(l);
    TrimmedStays("automount");
    assert l[2..|l| - 2] == "automount";
    hide TrimSpace;
  }

  lemma ArrayHeaderReads(d: Doc)
    ensures Reads(d, [ARRAY_OF_DISKS], Doc(d.config.(automount := d.config.automount + [EMPTY]), ARRAY_OF_DISKS))
  {
    ArrayHeaderClassified();
    hide Classify;
    ReadsOne(d, ARRAY_OF_DISKS, Doc(d.config.(automount := d.config.automount + [EMPTY]), ARRAY_OF_DISKS));
  }

  /** What RenderConfig calls a setting. */
  predicate IsName(name: string) {
    name != "" && Trimmed(name) && name[0] != '#' && name[0] != '[' && '=' !in name
  }

  lemma EntryShape(name: string, value: string)
    requires IsName(name) && value != "" && Trimmed(value)
    ensures var l := Entry(name, value);
            && Trimmed(l) && l != "" && l[0] == name[0] && IndexOf(l, '=') == Some(|name| + 1)
            && l[..|name| + 1] == name + " " && l[|name| + 2..] == " " + value
  {
    var l := Entry(name, value);
    assert l == (name + " ") + ['='] + (" " + value);
    IndexIs(name + " ", '=', " " + value);
  }

  lemma EntryClassified(name: string, value: string)
    requires IsName(name) && value != "" && Trimmed(value)
    ensures Classify(Entry(name, value)) == Setting(name, value)
  {
    EntryShape(name, value);
    TrimmedStays(Entry(name, value));
    SpacesGo(name);
    SpacesGo(value);
    hide TrimSpace, IndexOf, Entry, Trimmed;
  }

  lemma SettingKnown(c: Config, key: string, value: string)
    ensures WithValue(c, key, value).Some? ==> IsSetting(key)
  {
  }

  lemma SettingReads(d: Doc, name: string, value: string, text: string, c: Config)
    requires IsName(name) && value != "" && Trimmed(value)
    requires d.section != ARRAY_OF_DISKS
    requires TomlValue(value) == Some(text) && WithValue(d.config, KeyOf(d.section, name), text) == Some(c)
    ensures Reads(d, [Entry(name, value)], d.(config := c))
  {
    EntryClassified(name, value);
    SettingKnown(d.config, KeyOf(d.section, name), text);
    hide Classify, TomlValue, WithValue, IsSetting, KeyOf, Entry;
    ReadsOne(d, Entry(name, value), d.(config := c));
  }

  function WithLast(c: Config, a: Automount): Config
    requires c.automount != []
  {
    c.(automount := c.automount[|c.automount| - 1 := a])
  }

  lemma FieldReads(c: Config, name: string, value: string, text: string, a: Automount)
    requires IsName(name) && value != "" && Trimmed(value) && c.automount != []
    requires TomlValue(value) == Some(text)
    requires WithField(c.automount[|c.automount| - 1], name, text) == Some(a)
    ensures Reads(Doc(c, ARRAY_OF_DISKS), [Entry(name, value)], Doc(WithLast(c, a), ARRAY_OF_DISKS))
  {
    EntryClassified(name, value);
    hide Classify, TomlValue, WithField, Entry;
    ReadsOne(Doc(c, ARRAY_OF_DISKS), Entry(name, value), Doc(WithLast(c, a), ARRAY_OF_DISKS));
  }

  /* ---- an attached disk ---- */

  /** Any entry, given one by one, replaces the last. */
  lemma LastTwice(c: Config, a: Automount, b: Automount)
    requires c.automount != []
    ensures WithLast(WithLast(c, a), b) == WithLast(c, b)
    ensures WithLast(c, a).automount != [] && WithLast(c, a).automount[|c.automount| - 1] == a
  {
  }

  /** The value of a quoted string. */
  lemma QuotedValue(s: string)
    ensures TomlValue(Quoted(s)) == Some(s) && Quoted(s) != "" && Trimmed(Quoted(s))
  {
    QuoteUndone(s);
    QuotedTrimmed(s);
  }

  lemma TextFieldReads(c: Config, name: string, value: string, a: Automount, b: Automount)
    requires IsName(name) && c.automount != []
    requires if value == "" then b == a else WithField(a, name, value) == Some(b)
    ensures Reads(Doc(WithLast(c, a), ARRAY_OF_DISKS), TextField(name, value), Doc(WithLast(c, b), ARRAY_OF_DISKS))
  {
    hide WithField, TomlValue, Quoted, ReadLines, WithLast;
    if value == "" {
      NoneReads(Doc(WithLast(c, a), ARRAY_OF_DISKS));
    } else {
      QuotedValue(value);
      LastTwice(c, a, b);
      LengthKept(c, a);
      FieldReads(WithLast(c, a), name, Quoted(value), value, b);
    }
  }

  lemma LengthKept(c: Config, a: Automount)
    requires c.automount != []
    ensures |WithLast(c, a).automount| == |c.automount|
  {
  }

  lemma PlainValue(v: string)
    requires v != "" && v[0] != '[' && v[0] != '"'
    ensures TomlValue(v) == Some(v)
  {
  }

  lemma BareReads(c: Config, a: Automount, bare: bool)
    requires c.automount != [] && !a.bare
    ensures Reads(Doc(WithLast(c, a), ARRAY_OF_DISKS), if bare then [Entry("bare", "true")] else [],
                  Doc(WithLast(c, a.(bare := bare)), ARRAY_OF_DISKS))
  {
    var b := a.(bare := bare);
    BoolReadsBack(true);
    PlainValue("true");
    assert IsName("bare") && Trimmed("true");
    assert bare ==> WithField(a, "bare", "true") == Some(b);
    hide WithField, TomlValue, ReadLines, WithLast, Entry;
    if bare {
      LastTwice(c, a, b);
      LengthKept(c, a);
      FieldReads(WithLast(c, a), "bare", "true", "true", b);
    } else {
      NoneReads(Doc(WithLast(c, a), ARRAY_OF_DISKS));
    }
  }

  lemma FormatPlain(n: nat)
    ensures Trimmed(Format(n)) && TrimSpace(Format(n)) == Format(n) && TomlValue(Format(n)) == Some(Format(n))
  {
    FormatValue(n);
    FormatParses(n, n);
    TrimmedStays(Format(n));
    assert IsDigit(Format(n)[0]);
    PlainValue(Format(n));
  }

  lemma PartitionReads(c: Config, a: Automount, partition: int)
    requires c.automount != [] && a.partition == 0 && 0 <= partition <= MAX_INT
    ensures Reads(Doc(WithLast(c, a), ARRAY_OF_DISKS),
                  if partition > 0 then [Entry("partition", Format(partition))] else [],
                  Doc(WithLast(c, a.(partition := partition)), ARRAY_OF_DISKS))
  {
    var b := a.(partition := partition);
    FormatParses(partition, MAX_INT);
    FormatPlain(partition);
    assert IsName("partition");
    assert WithField(a, "partition", Format(partition)) == Some(b);
    hide WithField, TomlValue, ReadLines, WithLast, Entry, Format;
    if partition > 0 {
      LastTwice(c, a, b);
      LengthKept(c, a);
      FieldReads(WithLast(c, a), "partition", Format(partition), Format(partition), b);
    } else {
      NoneReads(Doc(WithLast(c, a), ARRAY_OF_DISKS));
    }
  }

  lemma NewDiskReads(c: Config, section: string, path: string)
    ensures Reads(Doc(c, section), DISK_HEADER + [Entry("path", Quoted(path))],
                  Doc(WithLast(c.(automount := c.automount + [EMPTY]), EMPTY.(path := path)), ARRAY_OF_DISKS))
  {
    var d := Doc(c, section);
    var c1 := c.(automount := c.automount + [EMPTY]);
    var e := Doc(c1, ARRAY_OF_DISKS);
    CommentReads(d, "");
    ArrayHeaderReads(d);
    QuotedValue(path);
    assert IsName("path") && c1.automount[|c1.automount| - 1] == EMPTY;
    hide Reads, TomlValue, Quoted, Entry;
    ReadsBoth(d, [""], d, [ARRAY_OF_DISKS], e);
    assert [""] + [ARRAY_OF_DISKS] == DISK_HEADER;
    FieldReads(c1, "path", Quoted(path), path, EMPTY.(path := path));
    ReadsBoth(d, DISK_HEADER, e, [Entry("path", Quoted(path))],
              Doc(WithLast(c1, EMPTY.(path := path)), ARRAY_OF_DISKS));
  }

  /** The name of an entry, and whether it is bare. */
  lemma NameAndBareRead(c: Config, a: Automount, name: string, bare: bool)
    requires c.automount != [] && a.name == "" && !a.bare
    ensures Reads(Doc(WithLast(c, a), ARRAY_OF_DISKS),
                  TextField("name", name) + if bare then [Entry("bare", "true")] else [],
                  Doc(WithLast(c, a.(name := name, bare := bare)), ARRAY_OF_DISKS))
  {
    var a1 := a.(name := name);
    TextFieldReads(c, "name", name, a, a1);
    BareReads(c, a1, bare);
    hide Reads, TextField, Entry, WithLast;
    ReadsBoth(Doc(WithLast(c, a), ARRAY_OF_DISKS), TextField("name", name), Doc(WithLast(c, a1), ARRAY_OF_DISKS),
              if bare then [Entry("bare", "true")] else [], Doc(WithLast(c, a1.(bare := bare)), ARRAY_OF_DISKS));
  }

  lemma TypeAndOptionsRead(c: Config, a: Automount, fsType: string, options: string)
    requires c.automount != [] && a.fsType == "" && a.options == ""
    ensures Reads(Doc(WithLast(c, a), ARRAY_OF_DISKS), TextField("type", fsType) + TextField("options", options),
                  Doc(WithLast(c, a.(fsType := fsType, options := options)), ARRAY_OF_DISKS))
  {
    var a1 := a.(fsType := fsType);
    TextFieldReads(c, "type", fsType, a, a1);
    TextFieldReads(c, "options", options, a1, a1.(options := options));
    hide Reads, TextField, WithLast;
    ReadsBoth(Doc(WithLast(c, a), ARRAY_OF_DISKS), TextField("type", fsType), Doc(WithLast(c, a1), ARRAY_OF_DISKS),
              TextField("options", options), Doc(WithLast(c, a1.(options := options)), ARRAY_OF_DISKS));
  }

  lemma DiskReads(c: Config, section: string, a: Automount)
    requires ValidAutomount(a)
    ensures Reads(Doc(c, section), DiskBlock(a), Doc(c.(automount := c.automount + [a]), ARRAY_OF_DISKS))
  {
    var c1 := c.(automount := c.automount + [EMPTY]);
    var a1 := EMPTY.(path := a.path);
    var a2 := a1.(name := a.name, bare := a.bare);
    var a3 := a2.(fsType := a.fsType, options := a.options);
    assert a3.(partition := a.partition) == a;
    assert WithLast(c1, a) == c.(automount := c.automount + [a]);
    var p1 := DISK_HEADER + [Entry("path", Quoted(a.path))];
    var p2 := TextField("name", a.name) + if a.bare then [Entry("bare", "true")] else [];
    var p3 := TextField("type", a.fsType) + TextField("options", a.options);
    var p4 := if a.partition > 0 then [Entry("partition", Format(a.partition))] else [];
    hide Reads, TextField, Entry, Quoted, Format, WithLast;
    NewDiskReads(c, section, a.path);
    NameAndBareRead(c1, a1, a.name, a.bare);
    TypeAndOptionsRead(c1, a2, a.fsType, a.options);
    PartitionReads(c1, a3, a.partition);
    var d, s := Doc(c, section), ARRAY_OF_DISKS;
    ReadsBoth(d, p1, Doc(WithLast(c1, a1), s), p2, Doc(WithLast(c1, a2), s));
    ReadsBoth(d, p1 + p2, Doc(WithLast(c1, a2), s), p3, Doc(WithLast(c1, a3), s));
    ReadsBoth(d, p1 + p2 + p3, Doc(WithLast(c1, a3), s), p4, Doc(WithLast(c1, a), s));
  }

  lemma {:induction false} DisksRead(c: Config, section: string, ds: seq<Automount>)
    requires forall a | a in ds :: ValidAutomount(a)
    ensures Reads(Doc(c, section), DiskBlocks(ds),
                  Doc(c.(automount := c.automount + ds), if ds == [] then section else ARRAY_OF_DISKS))
  {
    hide Reads, DiskBlock, ValidAutomount;
    if ds == [] {
      assert c.automount + ds == c.automount;
      NoneReads(Doc(c, section));
    } else {
      var before, last := ds[..|ds| - 1], ds[|ds| - 1];
      var c1 := c.(automount := c.automount + before);
      var s1 := if before == [] then section else ARRAY_OF_DISKS;
      DisksRead(c, section, before);
      DiskReads(c1, s1, last);
      assert c1.automount + [last] == c.automount + ds;
      ReadsBoth(Doc(c, section), DiskBlocks(before), Doc(c1, s1), DiskBlock(last),
                Doc(c.(automount := c.automount + ds), ARRAY_OF_DISKS));
    }
  }

  /* ---- the whole file ---- */

  lemma NotesRead(d: Doc, notes: seq<string>)
    requires AreComments(notes)
    ensures Reads(d, notes, d)
  {
    hide IsLine;
    CommentsRead(d, notes);
  }

  /** A blank line, a section header and what is said about the section. */
  lemma SectionReads(d: Doc, name: string, notes: seq<string>)
    requires name != "" && Trimmed(name) && name[0] != '[' && AreComments(notes)
    ensures Reads(d, ["", "[" + name + "]"] + notes, d.(section := name))
  {
    var e := d.(section := name);
    CommentReads(d, "");
    HeaderReads(d, name);
    NotesRead(e, notes);
    hide Reads, AreComments;
    ReadsBoth(d, [""], d, ["[" + name + "]"], e);
    assert [""] + ["[" + name + "]"] == ["", "[" + name + "]"];
    ReadsBoth(d, ["", "[" + name + "]"], e, notes, e);
  }

  lemma SectionsRead(notes: Comments, c1: Config, c2: Config)
    requires notes.Valid()
    ensures Reads(START, BeforeDirs(notes), Doc(DEFAULTS, "scan"))
    ensures Reads(Doc(c1, "scan"), BeforeTrim(notes), Doc(c1, "compact"))
    ensures Reads(Doc(c2, "compact"), BeforeUnlock(notes), Doc(c2, "wsl"))
  {
    assert "[" + "scan" + "]" == "[scan]" && "[" + "compact" + "]" == "[compact]" && "[" + "wsl" + "]" == "[wsl]";
    NotesRead(START, notes.intro);
    SectionReads(START, "scan", notes.scan);
    SectionReads(Doc(c1, "scan"), "compact", notes.trim);
    SectionReads(Doc(c2, "compact"), "wsl", notes.unlock);
    hide Reads;
    ReadsBoth(START, notes.intro, START, ["", "[scan]"] + notes.scan, Doc(DEFAULTS, "scan"));
    assert notes.intro + (["", "[scan]"] + notes.scan) == BeforeDirs(notes);
  }

  lemma Keys()
    ensures KeyOf("scan", "dirs") == SCAN_DIRS && KeyOf("wsl", "unlock_timeout_seconds") == UNLOCK
    ensures KeyOf("compact", "trim") == TRIM && KeyOf("compact", "restart") == RESTART
  {
  }

  lemma Names()
    ensures IsName("dirs") && IsName("trim") && IsName("restart") && IsName("unlock_timeout_seconds")
  {
  }

  lemma DirsValue(c: Config, ds: seq<string>)
    requires forall d | d in ds :: ValidDir(d)
    ensures WithValue(c, SCAN_DIRS, Join(ds, ';')) == Some(c.(scanDirs := ds))
  {
    hide ValidDir;
    JoinedDirs(ds);
  }

  lemma DirsRead(c: Config, ds: seq<string>)
    requires forall d | d in ds :: ValidDir(d)
    ensures Reads(Doc(c, "scan"), [Entry("dirs", "[" + Listed(ds) + "]")], Doc(c.(scanDirs := ds), "scan"))
  {
    DirsValue(c, ds);
    ListReadsBack(ds);
    Keys();
    Names();
    var value := "[" + Listed(ds) + "]";
    assert Trimmed(value) && value != "";
    assert ARRAY_OF_DISKS != "scan";
    hide WithValue, KeyOf, Entry, TomlValue, IsName, Reads, Trimmed, ValidDir, Join, Listed;
    SettingReads(Doc(c, "scan"), "dirs", value, Join(ds, ';'), c.(scanDirs := ds));
  }

  lemma BoolValue(c: Config, b: bool)
    ensures WithValue(c, TRIM, FormatBool(b)) == Some(c.(trim := b))
    ensures WithValue(c, RESTART, FormatBool(b)) == Some(c.(restart := b))
    ensures TomlValue(FormatBool(b)) == Some(FormatBool(b)) && Trimmed(FormatBool(b)) && FormatBool(b) != ""
  {
    BoolReadsBack(b);
    PlainValue(FormatBool(b));
    hide StrictBool;
  }

  lemma BoolsRead(c: Config, b: bool)
    ensures Reads(Doc(c, "compact"), [Entry("trim", FormatBool(b))], Doc(c.(trim := b), "compact"))
    ensures Reads(Doc(c, "compact"), [Entry("restart", FormatBool(b))], Doc(c.(restart := b), "compact"))
  {
    BoolValue(c, b);
    Keys();
    Names();
    assert ARRAY_OF_DISKS != "compact";
    hide WithValue, FormatBool, KeyOf, Entry, TomlValue, IsName, Reads, Trimmed;
    SettingReads(Doc(c, "compact"), "trim", FormatBool(b), FormatBool(b), c.(trim := b));
    SettingReads(Doc(c, "compact"), "restart", FormatBool(b), FormatBool(b), c.(restart := b));
  }

  lemma UnlockValue(c: Config, n: nat)
    requires n <= MAX_UNLOCK_SECONDS
    ensures WithValue(c, UNLOCK, Format(n)) == Some(c.(unlockSeconds := n))
  {
    FormatParses(n, MAX_UINT32);
    FormatPlain(n);
    hide Format, TrimSpace, ParseUint;
  }

  lemma UnlockReads(c: Config, n: nat)
    requires n <= MAX_UNLOCK_SECONDS
    ensures Reads(Doc(c, "wsl"), [Entry("unlock_timeout_seconds", Format(n))], Doc(c.(unlockSeconds := n), "wsl"))
  {
    UnlockValue(c, n);
    FormatPlain(n);
    Keys();
    Names();
    assert ARRAY_OF_DISKS != "wsl";
    hide WithValue, Format, KeyOf, Entry, TomlValue, IsName, Reads, Trimmed;
    SettingReads(Doc(c, "wsl"), "unlock_timeout_seconds", Format(n), Format(n), c.(unlockSeconds := n));
  }

  /** The settings proper, up to the table of disks. */
  function SettingLines(c: Config, notes: Comments): seq<string> {
    BeforeDirs(notes) + [Entry("dirs", "[" + Listed(c.scanDirs) + "]")]
    + BeforeTrim(notes) + [Entry("trim", FormatBool(c.trim))]
    + notes.restart + [Entry("restart", FormatBool(c.restart))]
    + BeforeUnlock(notes) + [Entry("unlock_timeout_seconds", Format(c.unlockSeconds))]
  }

  lemma SettingsRead(c: Config, notes: Comments)
    requires Valid(c) && notes.Valid()
    ensures Reads(START, SettingLines(c, notes), Doc(c.(automount := []), "wsl"))
  {
    var c1 := DEFAULTS.(scanDirs := c.scanDirs);
    var c2 := c1.(trim := c.trim);
    var c3 := c2.(restart := c.restart);
    assert c3.(unlockSeconds := c.unlockSeconds) == c.(automount := []);
    var l1 := [Entry("dirs", "[" + Listed(c.scanDirs) + "]")];
    var l2, l3 := [Entry("trim", FormatBool(c.trim))], [Entry("restart", FormatBool(c.restart))];
    var l4 := [Entry("unlock_timeout_seconds", Format(c.unlockSeconds))];
    SectionsRead(notes, c1, c3);
    DirsRead(DEFAULTS, c.scanDirs);
    BoolsRead(c1, c.trim);
    NotesRead(Doc(c2, "compact"), notes.restart);
    BoolsRead(c2, c.restart);
    UnlockReads(c3, c.unlockSeconds);
    hide Reads, Entry, Format, FormatBool, Listed, Valid, BeforeDirs, BeforeTrim, BeforeUnlock;
    ReadsBoth(START, BeforeDirs(notes), Doc(DEFAULTS, "scan"), l1, Doc(c1, "scan"));
    var m1 := BeforeDirs(notes) + l1;
    ReadsBoth(START, m1, Doc(c1, "scan"), BeforeTrim(notes), Doc(c1, "compact"));
    var m2 := m1 + BeforeTrim(notes);
    ReadsBoth(START, m2, Doc(c1, "compact"), l2, Doc(c2, "compact"));
    ReadsBoth(START, m2 + l2, Doc(c2, "compact"), notes.restart, Doc(c2, "compact"));
    var m3 := m2 + l2 + notes.restart;
    ReadsBoth(START, m3, Doc(c2, "compact"), l3, Doc(c3, "compact"));
    ReadsBoth(START, m3 + l3, Doc(c3, "compact"), BeforeUnlock(notes), Doc(c3, "wsl"));
    ReadsBoth(START, m3 + l3 + BeforeUnlock(notes), Doc(c3, "wsl"), l4, Doc(c.(automount := []), "wsl"));
  }

  function DiskNotes(c: Config, notes: Comments): seq<string> {
    if c.automount == [] then [] else [""] + notes.disks
  }

  lemma DiskNotesRead(d: Doc, c: Config, notes: Comments)
    requires notes.Valid()
    ensures Reads(d, DiskNotes(c, notes), d)
  {
    NoneReads(d);
    CommentReads(d, "");
    NotesRead(d, notes.disks);
    hide Reads;
    ReadsBoth(d, [""], d, notes.disks, d);
  }

  lemma RenderingReads(c: Config, notes: Comments) returns (section: string)
    requires Valid(c) && notes.Valid()
    ensures Reads(START, Rendering(c, notes), Doc(c, section))
  {
    var d := Doc(c.(automount := []), "wsl");
    section := if c.automount == [] then "wsl" else ARRAY_OF_DISKS;
    SettingsRead(c, notes);
    DiskNotesRead(d, c, notes);
    DisksRead(d.config, "wsl", c.automount);
    assert [] + c.automount == c.automount;
    assert Rendering(c, notes) == SettingLines(c, notes) + DiskNotes(c, notes) + DiskBlocks(c.automount);
    hide Reads, SettingLines, DiskNotes, DiskBlocks, Rendering;
    ReadsBoth(START, SettingLines(c, notes), d, DiskNotes(c, notes), d);
    ReadsBoth(START, SettingLines(c, notes) + DiskNotes(c, notes), d, DiskBlocks(c.automount), Doc(c, section));
  }

  /* ---- what is read is valid ---- */

  lemma TrimKeepsOut(s: string, c: char)
    requires c !in s
    ensures c !in TrimSpace(s)
  {
    var i, j := TrimSpaceIs(s);
  }

  lemma {:induction false} UnescapedNoBreak(b: string)
    requires NoBreak(b)
    ensures NoBreak(Unescaped(b))
  {
    if b != "" {
      if b[0] == '\\' && |b| > 1 {
        UnescapedNoBreak(b[2..]);
      } else {
        UnescapedNoBreak(b[1..]);
      }
    }
  }

  lemma {:induction false} ItemsNoBreak(s: string, inQuote: bool, escaped: bool, cur: string)
    requires NoBreak(s) && NoBreak(cur)
    ensures forall i | i in Items(s, inQuote, escaped, cur) :: NoBreak(i)
    decreases s
  {
    if s != "" {
      var r, rest := s[0], s[1..];
      assert r in s;
      if escaped {
        ItemsNoBreak(rest, inQuote, false, cur + [r]);
      } else if r == '\\' && inQuote {
        ItemsNoBreak(rest, inQuote, true, cur + [r]);
      } else if r == '"' {
        ItemsNoBreak(rest, !inQuote, false, cur + [r]);
      } else if r == ',' && !inQuote {
        ItemsNoBreak(rest, inQuote, false, "");
      } else {
        ItemsNoBreak(rest, inQuote, false, cur + [r]);
      }
    }
  }

  lemma UnquotedNoBreak(s: string)
    requires NoBreak(s)
    ensures Unquoted(s).Some? ==> NoBreak(Unquoted(s).value)
  {
    if Unquoted(s).Some? {
      UnescapedNoBreak(s[1..|s| - 1]);
    }
  }

  lemma {:induction false} UnquotedAllNoBreak(parts: seq<string>, items: seq<string>)
    requires (forall p | p in parts :: NoBreak(p)) && (forall i | i in items :: NoBreak(i))
    ensures var all := UnquotedAll(parts, items); all.Some? ==> forall p | p in all.value :: NoBreak(p)
    decreases items
  {
    hide Unquoted;
    if items != [] {
      var item := TrimSpace(items[0]);
      assert NoBreak(items[0]);
      TrimKeepsOut(items[0], '\n');
      UnquotedNoBreak(item);
      hide TrimSpace;
      var s := Unquoted(item);
      if s.Some? {
        UnquotedAllNoBreak(parts + [s.value], items[1..]);
      }
    }
  }

  lemma TomlValueNoBreak(v: string)
    requires NoBreak(v)
    ensures TomlValue(v).Some? ==> NoBreak(TomlValue(v).value)
  {
    hide TrimSpace, Unquoted, UnquotedAll, Items, Join;
    UnquotedNoBreak(v);
    if StartsWith(v, '[') && EndsWith(v, ']') {
      var inner := TrimSpace(v[1..|v| - 1]);
      TrimKeepsOut(v[1..|v| - 1], '\n');
      ItemsNoBreak(inner, false, false, "");
      UnquotedAllNoBreak([], Items(inner, false, false, ""));
      var parts := UnquotedAll([], Items(inner, false, false, ""));
      if parts.Some? {
        JoinParts(parts.value, ';', '\n');
      }
    }
  }

  lemma {:induction false} DirsValid(parts: seq<string>)
    requires forall p | p in parts :: ';' !in p && NoBreak(p)
    ensures forall d | d in Dirs(parts) :: ValidDir(d)
  {
    if parts != [] {
      DirsValid(parts[1..]);
      TrimKeepsOut(parts[0], ';');
      TrimKeepsOut(parts[0], '\n');
      var i, j := TrimSpaceIs(parts[0]);
      hide TrimSpace;
    }
  }

  lemma WithValueValid(c: Config, key: string, value: string)
    requires Valid(c) && NoBreak(value)
    ensures WithValue(c, key, value).Some? ==> Valid(WithValue(c, key, value).value)
  {
    SplitParts(value, ';', ';');
    SplitParts(value, ';', '\n');
    DirsValid(SplitOn(value, ';'));
    hide ValidDir, ValidAutomount, StrictBool, ParseUint, Dirs, SplitOn, TrimSpace;
  }

  lemma WithFieldValid(a: Automount, key: string, value: string)
    requires ValidAutomount(a) && NoBreak(value)
    ensures WithField(a, key, value).Some? ==> ValidAutomount(WithField(a, key, value).value)
  {
    hide StrictBool, TrimSpace;
  }

  lemma ClassifiedNoBreak(raw: string)
    requires NoBreak(raw)
    ensures Classify(raw).Setting? ==> NoBreak(Classify(raw).value)
  {
    TrimKeepsOut(raw, '\n');
    var s := TrimSpace(raw);
    var eq := IndexOf(s, '=');
    if eq.Some? {
      TrimKeepsOut(s[eq.value + 1..], '\n');
    }
    hide TrimSpace, IndexOf;
  }

  lemma LineValid(d: Doc, l: Line, n: nat)
    requires Valid(d.config) && (l.Setting? ==> NoBreak(l.value))
    ensures LineStep(d, l, n).At? ==> Valid(LineStep(d, l, n).doc.config)
  {
    assert ValidAutomount(EMPTY);
    hide TomlValue, WithValue, WithField, ValidDir, KeyOf, IsSetting, NoBreak;
    if l.Setting? {
      TomlValueNoBreak(l.value);
      var parsed := TomlValue(l.value);
      if parsed.Some? {
        WithValueValid(d.config, KeyOf(d.section, l.name), parsed.value);
        if d.config.automount != [] {
          WithFieldValid(d.config.automount[|d.config.automount| - 1], l.name, parsed.value);
        }
      }
    }
  }

  lemma {:induction false} ReadValid(d: Doc, lines: seq<string>, n: nat)
    requires Valid(d.config) && forall l | l in lines :: NoBreak(l)
    ensures ReadLines(d, lines, n).At? ==> Valid(ReadLines(d, lines, n).doc.config)
    decreases lines
  {
    hide LineStep, Classify, Valid, NoBreak;
    if lines != [] {
      ClassifiedNoBreak(lines[0]);
      LineValid(d, Classify(lines[0]), n);
      var next := LineStep(d, Classify(lines[0]), n);
      if next.At? {
        ReadValid(next.doc, lines[1..], n + 1);
      }
    }
  }

  /** Whatever file is read, the configuration it gives can be written and read again. */
  lemma ParsedIsValid(text: string)
    ensures Parsed(text).At? ==> Valid(Parsed(text).doc.config)
  {
    SplitParts(CrLfToLf(text), '\n', '\n');
    hide CrLfToLf, SplitOn;
    ReadValid(START, Lines(text), 1);
  }

  /* ---- the lines written are lines ---- */

  lemma {:induction false} EscapedNoBreak(s: string)
    requires NoBreak(s)
    ensures NoBreak(Escaped(s))
  {
    if s != "" {
      EscapedNoBreak(s[1..]);
    }
  }

  lemma QuotedNoBreak(s: string)
    requires NoBreak(s)
    ensures NoBreak(Quoted(s))
  {
    EscapedNoBreak(s);
  }

  lemma {:induction false} ListedNoBreak(ds: seq<string>)
    requires forall d | d in ds :: NoBreak(d)
    ensures NoBreak(Listed(ds))
  {
    hide Quoted;
    if ds != [] {
      QuotedNoBreak(ds[0]);
      ListedNoBreak(ds[1..]);
    }
  }

  lemma FormatNoBreak(n: nat)
    ensures NoBreak(Format(n)) && Trimmed(Format(n))
  {
    FormatValue(n);
    FormatPlain(n);
  }

  lemma NamesNoBreak()
    ensures NoBreak("dirs") && NoBreak("trim") && NoBreak("restart") && NoBreak("unlock_timeout_seconds")
    ensures NoBreak("path") && NoBreak("name") && NoBreak("type") && NoBreak("options") && NoBreak("bare")
    ensures NoBreak("partition") && NoBreak("true") && NoBreak("false")
  {
  }

  lemma EntryIsLine(name: string, value: string)
    requires NoBreak(name) && NoBreak(value) && value != "" && Trimmed(value)
    ensures IsLine(Entry(name, value))
  {
    var l := Entry(name, value);
    assert l[|l| - 1] == value[|value| - 1];
  }

  ghost predicate AllLines(ls: seq<string>) {
    forall l | l in ls :: IsLine(l)
  }

  lemma TextFieldLines(name: string, value: string)
    requires NoBreak(name) && NoBreak(value)
    ensures AllLines(TextField(name, value)) && IsLine(Entry(name, Quoted(value)))
  {
    QuotedNoBreak(value);
    QuotedTrimmed(value);
    EntryIsLine(name, Quoted(value));
    hide Entry, Quoted;
  }

  lemma DiskLines(a: Automount)
    requires ValidAutomount(a)
    ensures AllLines(DiskBlock(a))
  {
    NamesNoBreak();
    assert AllLines(DISK_HEADER);
    assert Trimmed("true");
    hide NoBreak, Entry, Quoted, Format, TextField, IsLine;
    TextFieldLines("path", a.path);
    TextFieldLines("name", a.name);
    TextFieldLines("type", a.fsType);
    TextFieldLines("options", a.options);
    EntryIsLine("bare", "true");
    if a.partition > 0 {
      FormatNoBreak(a.partition);
      EntryIsLine("partition", Format(a.partition));
    }
  }

  lemma {:induction false} DisksLines(ds: seq<Automount>)
    requires forall a | a in ds :: ValidAutomount(a)
    ensures AllLines(DiskBlocks(ds))
  {
    hide DiskBlock, IsLine, ValidAutomount;
    if ds != [] {
      DisksLines(ds[..|ds| - 1]);
      DiskLines(ds[|ds| - 1]);
    }
  }

  lemma NotesAreLines(notes: Comments)
    requires notes.Valid()
    ensures AllLines(BeforeDirs(notes)) && AllLines(BeforeTrim(notes)) && AllLines(notes.restart)
    ensures AllLines(BeforeUnlock(notes)) && AllLines([""] + notes.disks)
  {
    assert IsLine("") && IsLine("[scan]") && IsLine("[compact]") && IsLine("[wsl]");
    hide IsLine;
  }

  lemma DirsAreLine(ds: seq<string>)
    requires forall d | d in ds :: NoBreak(d)
    ensures IsLine(Entry("dirs", "[" + Listed(ds) + "]"))
  {
    NamesNoBreak();
    ListedNoBreak(ds);
    var value := "[" + Listed(ds) + "]";
    assert NoBreak(value) && Trimmed(value) && value != "";
    hide NoBreak, Entry, IsLine, Listed;
    EntryIsLine("dirs", value);
  }

  lemma BoolsAreLines(b: bool)
    ensures IsLine(Entry("trim", FormatBool(b))) && IsLine(Entry("restart", FormatBool(b)))
  {
    NamesNoBreak();
    hide NoBreak, Entry, IsLine;
    EntryIsLine("trim", FormatBool(b));
    EntryIsLine("restart", FormatBool(b));
  }

  lemma EntriesAreLines(c: Config)
    requires Valid(c)
    ensures IsLine(Entry("dirs", "[" + Listed(c.scanDirs) + "]"))
    ensures IsLine(Entry("trim", FormatBool(c.trim))) && IsLine(Entry("restart", FormatBool(c.restart)))
    ensures IsLine(Entry("unlock_timeout_seconds", Format(c.unlockSeconds)))
  {
    assert forall d | d in c.scanDirs :: ValidDir(d) && NoBreak(d);
    NamesNoBreak();
    FormatNoBreak(c.unlockSeconds);
    hide NoBreak, Listed, Format, Entry, IsLine, Valid, Trimmed;
    DirsAreLine(c.scanDirs);
    BoolsAreLines(c.trim);
    BoolsAreLines(c.restart);
    EntryIsLine("unlock_timeout_seconds", Format(c.unlockSeconds));
  }

  lemma RenderingLines(c: Config, notes: Comments)
    requires Valid(c) && notes.Valid()
    ensures AllLines(Rendering(c, notes))
  {
    NotesAreLines(notes);
    EntriesAreLines(c);
    DisksLines(c.automount);
    hide Entry, Listed, Format, FormatBool, IsLine, DiskBlocks, Valid, BeforeDirs, BeforeTrim, BeforeUnlock;
  }

  /* ---- the main results ---- */

  predicate ReadsAs(o: Outcome, c: Config) {
    o.At? && o.doc.config == c
  }

  /** Writing a configuration and reading the file gives it back, if and only if it is valid. */
  lemma RoundTrip(c: Config, notes: Comments)
    requires notes.Valid()
    ensures ReadsAs(Parsed(Unlines(Rendering(c, notes))), c) <==> Valid(c)
  {
    var text := Unlines(Rendering(c, notes));
    ParsedIsValid(text);
    if Valid(c) {
      RenderingLines(c, notes);
      LinesOfUnlines(Rendering(c, notes));
      var section := RenderingReads(c, notes);
      var e := Doc(c, section);
      CommentReads(e, "");
      hide ReadLines, Lines, Unlines, Rendering, Valid;
      ReadsBoth(START, Rendering(c, notes), e, [""], e);
    }
  }

  /** Rewriting a file that can be read, whoever wrote it, does not change what it says. */
  lemma RewriteKeeps(text: string, notes: Comments)
    requires notes.Valid()
    ensures Parsed(text).At? ==>
              var c := Parsed(text).doc.config; ReadsAs(Parsed(Unlines(Rendering(c, notes))), c)
  {
    ParsedIsValid(text);
    if Parsed(text).At? {
      RoundTrip(Parsed(text).doc.config, notes);
    }
  }

  /* ---- a header that reads as the table of disks ---- */

  /** A section whose name, spaced out, is that of the table of disks: the code takes it for the
      table without making an entry. */
  const SPACED_HEADER := "[ " + ARRAY_OF_DISKS + " ]"

  lemma SpacedHeaderClassified()
    ensures Classify(SPACED_HEADER) == Header(ARRAY_OF_DISKS)
  {
    var l := SPACED_HEADER;
    TrimmedStays(l);
    var inner := " " + ARRAY_OF_DISKS + " ";
    assert l[1..|l| - 1] == inner && l[1] == ' ';
    TrimmedStays(ARRAY_OF_DISKS);
    SpacesGo(ARRAY_OF_DISKS);
    assert inner[1..] == ARRAY_OF_DISKS + " ";
    assert TrimLeft(inner) == ARRAY_OF_DISKS + " ";
    assert TrimLeft(ARRAY_OF_DISKS + " ") == ARRAY_OF_DISKS + " ";
    assert TrimSpace(inner) == ARRAY_OF_DISKS;
    hide TrimSpace;
  }

  /** Such a header and any setting that can be read after it make ParseConfig panic, if and only if
      the file had no entry in the table of disks before. */
  lemma SpacedHeaderPanics(d: Doc, name: string, value: string, line: nat)
    requires IsName(name) && value != "" && Trimmed(value) && TomlValue(value).Some?
    ensures ReadLines(d, [SPACED_HEADER, Entry(name, value)], line).Panicked? <==> d.config.automount == []
  {
    SpacedHeaderClassified();
    EntryClassified(name, value);
    var lines := [SPACED_HEADER, Entry(name, value)];
    var rest := lines[1..];
    assert rest[0] == Entry(name, value) && rest[1..] == [];
    hide Classify, TomlValue, WithField, Entry;
    var e := d.(section := ARRAY_OF_DISKS);
    assert LineStep(d, Classify(lines[0]), line) == At(e);
    assert ReadLines(d, lines, line) == ReadLines(e, rest, line + 1);
    var next := LineStep(e, Classify(rest[0]), line + 1);
    assert next.Panicked? <==> d.config.automount == [];
    hide LineStep;
    assert ReadLines(e, rest, line + 1) == if next.At? then ReadLines(next.doc, rest[1..], line + 2) else next;
  }

  /** A setting whose value can be read. */
  predicate IsReadable(l: Line) {
    l.Setting? && TomlValue(l.value).Some?
  }

  /** Nothing but blank lines and comments before line `j`, a readable setting on it. */
  predicate SettingNext(ls: seq<Line>, j: nat) {
    && j < |ls| && IsReadable(ls[j])
    && forall k :: 0 <= k < j ==> ls[k].Nothing?
  }

  /** Line `i` calls the table of disks a section, a setting of it is on line `j`, and the table has no
      entry by then. */
  predicate EmptyTable(ls: seq<Line>, i: nat, j: nat) {
    && i < j < |ls| && ls[i] == Header(ARRAY_OF_DISKS) && IsReadable(ls[j])
    && (forall k :: i < k < j ==> ls[k].Nothing?)
    && (forall k :: 0 <= k < j ==> ls[k] != ArrayHeader(ARRAY_OF_DISKS))
  }

  function AllClassified(lines: seq<string>): (ls: seq<Line>)
    ensures |ls| == |lines| && forall k :: 0 <= k < |lines| ==> ls[k] == Classify(lines[k])
  {
    seq(|lines|, k requires 0 <= k < |lines| => Classify(lines[k]))
  }

  lemma SettingKeepsDisks(d: Doc, n: nat)
    ensures forall name, value :: var o := SettingStep(d, name, value, n);
              !o.Panicked? && (o.At? ==> o.doc.section == d.section && o.doc.config.automount == d.config.automount)
  {
    hide TomlValue;
  }

  /** One line that is read: the table stays empty unless the line makes an entry. */
  lemma StepKeepsEmpty(d: Doc, l: Line, n: nat)
    requires LineStep(d, l, n).At?
    ensures var e := LineStep(d, l, n).doc;
            && (e.config.automount == [] <==> d.config.automount == [] && l != ArrayHeader(ARRAY_OF_DISKS))
            && (e.section == ARRAY_OF_DISKS && e.config.automount == [] ==>
                  l == Header(ARRAY_OF_DISKS) || (l.Nothing? && d.section == ARRAY_OF_DISKS))
  {
    hide TomlValue, WithField, WithValue;
    SettingKeepsDisks(d, n);
  }

  /** In the table of disks, with no entry in it, the next setting is where it ends. */
  lemma {:induction false} SettingPanics(d: Doc, lines: seq<string>, n: nat, j: nat)
    requires d.section == ARRAY_OF_DISKS && d.config.automount == [] && SettingNext(AllClassified(lines), j)
    ensures ReadLines(d, lines, n).Panicked?
    decreases j
  {
    hide Classify, TomlValue;
    var ls := AllClassified(lines);
    assert ls[0] == Classify(lines[0]);
    if j > 0 {
      assert AllClassified(lines[1..]) == ls[1..];
      SettingPanics(d, lines[1..], n + 1, j - 1);
    }
  }

  lemma {:induction false} EmptyTablePanics(d: Doc, lines: seq<string>, n: nat, i: nat, j: nat)
    requires d.config.automount == [] && EmptyTable(AllClassified(lines), i, j)
    requires ReadLines(d, lines[..i], n).At?
    ensures ReadLines(d, lines, n).Panicked?
    decreases i
  {
    hide Classify, TomlValue, LineStep;
    var ls := AllClassified(lines);
    assert ls[0] == Classify(lines[0]);
    assert AllClassified(lines[1..]) == ls[1..];
    var next := LineStep(d, ls[0], n);
    if i == 0 {
      assert next == At(d.(section := ARRAY_OF_DISKS)) by { HeaderStep(d, n); }
      SettingPanics(next.doc, lines[1..], n + 1, j - 1);
    } else {
      assert lines[..i][1..] == lines[1..][..i - 1];
      StepKeepsEmpty(d, ls[0], n);
      EmptyTablePanics(next.doc, lines[1..], n + 1, i - 1, j - 1);
    }
  }

  lemma HeaderStep(d: Doc, n: nat)
    ensures LineStep(d, Header(ARRAY_OF_DISKS), n) == At(d.(section := ARRAY_OF_DISKS))
  {
  }

  /** Where a panic comes from: the line `j` it happens on, and the header before it, on line `i` or
      already read. */
  lemma {:induction false} PanicHasCause(d: Doc, lines: seq<string>, n: nat) returns (i: int, j: nat)
    requires ReadLines(d, lines, n).Panicked?
    ensures d.config.automount == [] && j < |lines| && -1 <= i
    ensures i == -1 ==> d.section == ARRAY_OF_DISKS && SettingNext(AllClassified(lines), j)
    ensures i >= 0 ==> EmptyTable(AllClassified(lines), i, j) && ReadLines(d, lines[..i], n).At?
    decreases lines
  {
    hide Classify, TomlValue, LineStep;
    var ls := AllClassified(lines);
    assert ls[0] == Classify(lines[0]);
    var next := LineStep(d, ls[0], n);
    if next.At? {
      var rest := AllClassified(lines[1..]);
      assert rest == ls[1..];
      StepKeepsEmpty(d, ls[0], n);
      var i', j' := PanicHasCause(next.doc, lines[1..], n + 1);
      j := j' + 1;
      i := if i' >= 0 then i' + 1 else if ls[0].Nothing? then -1 else 0;
      ShiftedCause(ls, i', j', i);
      if i' >= 0 {
        assert lines[..i][1..] == lines[1..][..i'];
      }
      if ls[0].Nothing? {
        NothingStep(d, n);
      }
    } else {
      PanicStep(d, ls[0], n);
      i, j := -1, 0;
    }
  }

  lemma NothingStep(d: Doc, n: nat)
    ensures LineStep(d, Nothing, n) == At(d)
  {
  }

  lemma PanicStep(d: Doc, l: Line, n: nat)
    requires LineStep(d, l, n).Panicked?
    ensures d.section == ARRAY_OF_DISKS && d.config.automount == [] && IsReadable(l)
  {
    hide TomlValue, WithField, WithValue;
    SettingKeepsDisks(d, n);
  }

  /** The same cause, seen from one line earlier. */
  lemma ShiftedCause(ls: seq<Line>, i': int, j': nat, i: int)
    requires ls != [] && ls[0] != ArrayHeader(ARRAY_OF_DISKS)
    requires i' >= 0 ==> EmptyTable(ls[1..], i', j') && i == i' + 1
    requires i' < 0 ==> SettingNext(ls[1..], j') && (ls[0].Nothing? || ls[0] == Header(ARRAY_OF_DISKS))
    requires i' < 0 ==> i == if ls[0].Nothing? then -1 else 0
    ensures i >= 0 ==> EmptyTable(ls, i, j' + 1)
    ensures i < 0 ==> SettingNext(ls, j' + 1)
  {
    hide IsReadable;
    var rest := ls[1..];
    assert forall k :: 1 <= k < |ls| ==> ls[k] == rest[k - 1];
  }

  /** ParseConfig panics for exactly the files in which the table of disks is called a section before
      any entry of it, and the next line that says anything is a setting that can be read. */
  lemma PanicsExactly(text: string)
    ensures Parsed(text).Panicked? <==>
              exists i: nat, j: nat :: EmptyTable(AllClassified(Lines(text)), i, j)
                                       && ReadLines(START, Lines(text)[..i], 1).At?
  {
    hide Lines, SettingNext, ReadLines, IsReadable;
    var lines := Lines(text);
    if Parsed(text).Panicked? {
      var i, j := PanicHasCause(START, lines, 1);
      assert i >= 0;
    }
    if i: nat, j: nat :| EmptyTable(AllClassified(lines), i, j) && ReadLines(START, lines[..i], 1).At? {
      EmptyTablePanics(START, lines, 1, i, j);
    }
  }
}
