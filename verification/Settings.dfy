/** The settings file of `wslkit disk` (internal/disk/config.go): what RenderConfig writes and
    ParseConfig reads. */
module Settings {
  import opened Text
  import opened Decimal
  import opened Toml

  const MAX_UNLOCK_SECONDS: nat := 3600
  const DEFAULT_UNLOCK_SECONDS: nat := 90
  const MAX_UINT32: nat := 0xFFFF_FFFF
  const MAX_INT: nat := 0x7FFF_FFFF_FFFF_FFFF

  datatype Automount =
    Automount(path: string, name: string, bare: bool, fsType: string, options: string, partition: int)

  datatype Config =
    Config(scanDirs: seq<string>, trim: bool, restart: bool, unlockSeconds: nat, automount: seq<Automount>)

  const DEFAULTS := Config([], true, false, DEFAULT_UNLOCK_SECONDS, [])
  const EMPTY := Automount("", "", false, "", "", 0)

  const SCAN_DIRS := "scan" + "." + "dirs"
  const TRIM := "compact" + "." + "trim"
  const RESTART := "compact" + "." + "restart"
  const UNLOCK := "wsl" + "." + "unlock_timeout_seconds"

  predicate IsSetting(key: string) {
    key == SCAN_DIRS || key == TRIM || key == RESTART || key == UNLOCK
  }

  /* ---- one setting ---- */

  function FormatBool(b: bool): string {
    if b then "true" else "false"
  }

  function StrictBool(s: string): Option<bool> {
    var t := TrimSpace(s);
    if t == "true" then Some(true) else if t == "false" then Some(false) else None
  }

  /** ConfigValue. */
  function ValueOf(c: Config, key: string): Option<string> {
    if key == SCAN_DIRS then Some(Join(c.scanDirs, ';'))
    else if key == TRIM then Some(FormatBool(c.trim))
    else if key == RESTART then Some(FormatBool(c.restart))
    else if key == UNLOCK then Some(Format(c.unlockSeconds))
    else None
  }

  /** The trimmed parts that are not blank. */
  function Dirs(parts: seq<string>): seq<string> {
    if parts == [] then []
    else (if TrimSpace(parts[0]) != "" then [TrimSpace(parts[0])] else []) + Dirs(parts[1..])
  }

  /** SetConfigValue. */
  function WithValue(c: Config, key: string, value: string): Option<Config> {
    if key == SCAN_DIRS then Some(c.(scanDirs := Dirs(SplitOn(value, ';'))))
    else if key == TRIM || key == RESTART then
      var b := StrictBool(value);
      if b.None? then None
      else if key == TRIM then Some(c.(trim := b.value)) else Some(c.(restart := b.value))
    else if key == UNLOCK then
      var n := ParseUint(TrimSpace(value), MAX_UINT32);
      if n.None? || n.value > MAX_UNLOCK_SECONDS then None else Some(c.(unlockSeconds := n.value))
    else None
  }

  lemma DirsNext(parts: seq<string>, i: nat)
    requires i < |parts|
    ensures Dirs(parts[i..])
            == (if TrimSpace(parts[i]) != "" then [TrimSpace(parts[i])] else []) + Dirs(parts[i + 1..])
  {
    assert parts[i..][1..] == parts[i + 1..];
  }

  /** The folders of a list are its parts without the space around them, and a blank part is none. */
  lemma {:induction false} DirsAre(parts: seq<string>, d: string)
    ensures d in Dirs(parts) <==> d != "" && exists i :: 0 <= i < |parts| && TrimSpace(parts[i]) == d
  {
    hide TrimSpace;
    if parts != [] {
      var rest := parts[1..];
      DirsAre(rest, d);
      if exists i :: 0 <= i < |rest| && TrimSpace(rest[i]) == d {
        var i :| 0 <= i < |rest| && TrimSpace(rest[i]) == d;
        assert TrimSpace(parts[i + 1]) == d;
      }
      if exists i :: 0 < i < |parts| && TrimSpace(parts[i]) == d {
        var i :| 0 < i < |parts| && TrimSpace(parts[i]) == d;
        assert TrimSpace(rest[i - 1]) == d;
      }
    }
  }

  method SplitDirs(value: string) returns (dirs: seq<string>)
    ensures dirs == Dirs(SplitOn(value, ';'))
  {
    hide TrimSpace, SplitOn;
    assert Dirs([]) == [];
    hide Dirs;
    dirs := [];
    var parts := SplitOn(value, ';');
    for i := 0 to |parts|
      invariant Dirs(parts) == dirs + Dirs(parts[i..])
    {
      DirsNext(parts, i);
      var p := TrimSpace(parts[i]);
      if p != "" {
        dirs := dirs + [p];
      }
    }
  }

  method SetConfigValue(c: Config, key: string, value: string) returns (r: Option<Config>)
    ensures r == WithValue(c, key, value)
  {
    if key == SCAN_DIRS {
      var dirs := SplitDirs(value);
      r := Some(c.(scanDirs := dirs));
    } else if key == TRIM || key == RESTART {
      var b := StrictBool(value);
      if b.None? {
        return None;
      }
      if key == TRIM {
        r := Some(c.(trim := b.value));
      } else {
        r := Some(c.(restart := b.value));
      }
    } else if key == UNLOCK {
      var n := ParseUint(TrimSpace(value), MAX_UINT32);
      if n.None? || n.value > MAX_UNLOCK_SECONDS {
        return None;
      }
      r := Some(c.(unlockSeconds := n.value));
    } else {
      r := None;
    }
  }

  /** setAutomountField. */
  function WithField(a: Automount, key: string, value: string): Option<Automount> {
    if key == "path" then Some(a.(path := value))
    else if key == "name" then Some(a.(name := value))
    else if key == "type" then Some(a.(fsType := value))
    else if key == "options" then Some(a.(options := value))
    else if key == "bare" then
      var b := StrictBool(value);
      if b.Some? then Some(a.(bare := b.value)) else None
    else if key == "partition" then
      var n := Atoi(TrimSpace(value), MAX_INT);
      if n.Some? && n.value >= 0 then Some(a.(partition := n.value)) else None
    else Some(a)
  }

  /* ---- what can be stored ---- */

  predicate NoBreak(s: string) {
    '\n' !in s
  }

  predicate ValidDir(d: string) {
    d != "" && Trimmed(d) && ';' !in d && NoBreak(d)
  }

  predicate ValidAutomount(a: Automount) {
    && NoBreak(a.path) && NoBreak(a.name) && NoBreak(a.fsType) && NoBreak(a.options)
    && 0 <= a.partition <= MAX_INT
  }

  predicate Valid(c: Config) {
    && (forall d | d in c.scanDirs :: ValidDir(d))
    && c.unlockSeconds <= MAX_UNLOCK_SECONDS
    && (forall a | a in c.automount :: ValidAutomount(a))
  }

  lemma {:induction false} DirsKeep(ds: seq<string>)
    requires forall d | d in ds :: ValidDir(d)
    ensures Dirs(ds) == ds
  {
    if ds != [] {
      assert ds[0] in ds;
      TrimmedStays(ds[0]);
      DirsKeep(ds[1..]);
      assert [ds[0]] + ds[1..] == ds;
    }
  }

  lemma JoinedDirs(ds: seq<string>)
    requires forall d | d in ds :: ValidDir(d)
    ensures Dirs(SplitOn(Join(ds, ';'), ';')) == ds
  {
    if ds == [] {
      assert Dirs([""]) == Dirs([]) by { TrimmedStays(""); }
    } else {
      SplitJoin(ds, ';');
      DirsKeep(ds);
    }
  }

  /** Just the two words are read, with space around them or not. */
  lemma BoolIsItsWord(s: string, b: bool)
    ensures StrictBool(s) == Some(b) <==> TrimSpace(s) == if b then "true" else "false"
  {
    hide TrimSpace;
    assert "true"[0] != "false"[0];
  }

  lemma BoolReadsBack(b: bool)
    ensures StrictBool(FormatBool(b)) == Some(b)
  {
    TrimmedStays(FormatBool(b));
  }

  /** `config set` with what `config get` printed for any setting of any valid configuration stores it,
      whatever configuration it is stored in. */
  lemma SetWhatGetPrints(c: Config, d: Config, key: string)
    requires Valid(c) && IsSetting(key)
    ensures ValueOf(c, key).Some? && WithValue(d, key, ValueOf(c, key).value).Some?
    ensures ValueOf(WithValue(d, key, ValueOf(c, key).value).value, key) == ValueOf(c, key)
  {
    JoinedDirs(c.scanDirs);
    BoolReadsBack(c.trim);
    BoolReadsBack(c.restart);
    FormatParses(c.unlockSeconds, MAX_UINT32);
    TrimmedStays(Format(c.unlockSeconds));
  }

  /* ---- reading the file ---- */

  const ARRAY_OF_DISKS := "[[" + "automount" + "]]"

  datatype Line =
    | Nothing
    | Malformed
    | ArrayHeader(name: string)
    | Header(name: string)
    | Setting(name: string, value: string)

  /** What a line of the file is. */
  function Classify(raw: string): Line {
    var s := TrimSpace(raw);
    if s == "" || s[0] == '#' then Nothing
    else if "[[" <= s then
      if EndsWith(s, ']') && EndsWith(s[..|s| - 1], ']')
      then ArrayHeader("[[" + TrimSpace(s[2..|s| - 2]) + "]]")
      else Malformed
    else if s[0] == '[' then
      if EndsWith(s, ']') then Header(TrimSpace(s[1..|s| - 1])) else Malformed
    else
      var eq := IndexOf(s, '=');
      if eq.None? then Malformed else Setting(TrimSpace(s[..eq.value]), TrimSpace(s[eq.value + 1..]))
  }

  /** The configuration and the section the reader is in. */
  datatype Doc = Doc(config: Config, section: string)

  /** Reading stops at the first line that is refused, or that makes the program panic. */
  datatype Outcome =
    | At(doc: Doc)
    | Refused(line: nat)
    | Panicked(line: nat)

  function KeyOf(section: string, name: string): string {
    if section == "" then name else section + "." + name
  }

  /** A setting in the last entry of the table of disks; an empty table has no last entry. */
  function DiskStep(d: Doc, name: string, value: string, line: nat): Outcome {
    var parsed := TomlValue(value);
    if parsed.None? then Refused(line)
    else if d.config.automount == [] then Panicked(line)
    else
      var last := |d.config.automount| - 1;
      var a := WithField(d.config.automount[last], name, parsed.value);
      if a.None? then Refused(line)
      else At(d.(config := d.config.(automount := d.config.automount[last := a.value])))
  }

  function SettingStep(d: Doc, name: string, value: string, line: nat): Outcome {
    var key := KeyOf(d.section, name);
    if !IsSetting(key) then At(d)
    else
      var parsed := TomlValue(value);
      if parsed.None? then Refused(line)
      else
        var c := WithValue(d.config, key, parsed.value);
        if c.None? then Refused(line) else At(d.(config := c.value))
  }

  function LineStep(d: Doc, l: Line, line: nat): Outcome {
    match l
    case Nothing => At(d)
    case Malformed => Refused(line)
    case ArrayHeader(name) =>
      var c := d.config;
      At(Doc(if name == ARRAY_OF_DISKS then c.(automount := c.automount + [EMPTY]) else c, name))
    case Header(name) => At(d.(section := name))
    case Setting(name, value) =>
      if d.section == ARRAY_OF_DISKS then DiskStep(d, name, value, line) else SettingStep(d, name, value, line)
  }

  /** Reading lines, the first of which has number `line`. */
  function ReadLines(d: Doc, lines: seq<string>, line: nat): Outcome
    decreases lines
  {
    if lines == [] then At(d)
    else
      var next := LineStep(d, Classify(lines[0]), line);
      if next.At? then ReadLines(next.doc, lines[1..], line + 1) else next
  }

  const START := Doc(DEFAULTS, "")

  /* ---- what is not in the file ---- */

  function Under(section: string, l: Line): string {
    match l
    case ArrayHeader(name) => name
    case Header(name) => name
    case _ => section
  }

  predicate Sets(section: string, l: Line, key: string) {
    l.Setting? && section != ARRAY_OF_DISKS && KeyOf(section, l.name) == key
  }

  /** What the last line that is about a setting gives it. */
  function LastSet(lines: seq<string>, section: string, key: string): Option<string>
    decreases lines
  {
    if lines == [] then None
    else
      var l := Classify(lines[0]);
      var later := LastSet(lines[1..], Under(section, l), key);
      if later.Some? then later else if Sets(section, l, key) then Some(l.value) else None
  }

  /** What a setting is after it was given a value, whatever the others are. */
  function Given(key: string, value: string): Option<string> {
    var parsed := TomlValue(value);
    if parsed.None? then None
    else
      var c := WithValue(DEFAULTS, key, parsed.value);
      if c.None? then None else ValueOf(c.value, key)
  }

  lemma OneStep(d: Doc, l: Line, line: nat, key: string)
    requires IsSetting(key) && LineStep(d, l, line).At?
    ensures var e := LineStep(d, l, line).doc;
            && e.section == Under(d.section, l)
            && ValueOf(e.config, key) == if Sets(d.section, l, key) then Given(key, l.value) else ValueOf(d.config, key)
  {
    hide TomlValue, ParseUint, StrictBool, Dirs, WithField, Format;
  }

  /** A setting is what the last line about it says; one that no line is about is as it was before, so in
      a file that is read from the start it has its default. */
  lemma {:induction false} LastLineCounts(d: Doc, lines: seq<string>, line: nat, key: string)
    requires IsSetting(key) && ReadLines(d, lines, line).At?
    ensures var last := LastSet(lines, d.section, key);
            ValueOf(ReadLines(d, lines, line).doc.config, key)
            == if last.Some? then Given(key, last.value) else ValueOf(d.config, key)
    decreases lines
  {
    hide Classify, LineStep, Given, ValueOf, Sets, Under;
    if lines != [] {
      var l := Classify(lines[0]);
      OneStep(d, l, line, key);
      LastLineCounts(LineStep(d, l, line).doc, lines[1..], line + 1, key);
    }
  }

  /** Where reading gets does not depend on how the lines are numbered. */
  lemma {:induction false} Renumbered(d: Doc, lines: seq<string>, line: nat, other: nat)
    ensures ReadLines(d, lines, line).At? <==> ReadLines(d, lines, other).At?
    ensures ReadLines(d, lines, line).At? ==> ReadLines(d, lines, line) == ReadLines(d, lines, other)
    decreases lines
  {
    if lines != [] {
      var l := Classify(lines[0]);
      StepRenumbered(d, l, line, other);
      hide Classify, LineStep;
      if LineStep(d, l, line).At? {
        Renumbered(LineStep(d, l, line).doc, lines[1..], line + 1, other + 1);
      }
    }
  }

  lemma StepRenumbered(d: Doc, l: Line, line: nat, other: nat)
    ensures LineStep(d, l, line).At? <==> LineStep(d, l, other).At?
    ensures LineStep(d, l, line).At? ==> LineStep(d, l, line) == LineStep(d, l, other)
  {
    hide TomlValue, WithValue, WithField;
  }

  lemma {:induction false} ReadsOn(d: Doc, a: seq<string>, b: seq<string>, line: nat)
    requires ReadLines(d, a, line).At?
    ensures ReadLines(d, a + b, line) == ReadLines(ReadLines(d, a, line).doc, b, line + |a|)
    decreases a
  {
    hide Classify, LineStep;
    if a == [] {
      assert a + b == b;
    } else {
      assert (a + b)[1..] == a[1..] + b;
      ReadsOn(LineStep(d, Classify(a[0]), line).doc, a[1..], b, line + 1);
    }
  }

  lemma UnknownFirst(d: Doc, x: string, b: seq<string>, line: nat)
    requires Classify(x).Setting? && d.section != ARRAY_OF_DISKS && !IsSetting(KeyOf(d.section, Classify(x).name))
    ensures ReadLines(d, [x] + b, line).At? <==> ReadLines(d, b, line).At?
    ensures ReadLines(d, b, line).At? ==> ReadLines(d, [x] + b, line) == ReadLines(d, b, line)
  {
    hide Classify, IsSetting, KeyOf, TomlValue;
    assert LineStep(d, Classify(x), line) == At(d);
    hide LineStep;
    assert ([x] + b)[1..] == b;
    Renumbered(d, b, line, line + 1);
  }

  /** A line with a key that is not known might as well not be there, wherever it stands. */
  lemma UnknownIsSkipped(d: Doc, a: seq<string>, x: string, b: seq<string>, line: nat)
    requires ReadLines(d, a, line).At? && Classify(x).Setting?
    requires var section := ReadLines(d, a, line).doc.section;
             section != ARRAY_OF_DISKS && !IsSetting(KeyOf(section, Classify(x).name))
    ensures var with, without := ReadLines(d, a + [x] + b, line), ReadLines(d, a + b, line);
            (with.At? <==> without.At?) && (with.At? ==> with == without)
  {
    hide *;
    var e := ReadLines(d, a, line).doc;
    ReadsOn(d, a, [x] + b, line);
    ReadsOn(d, a, b, line);
    UnknownFirst(e, x, b, line + |a|);
    assert a + ([x] + b) == a + [x] + b;
  }

  /** ParseConfig. */
  function Parsed(text: string): Outcome {
    ReadLines(START, Lines(text), 1)
  }

  method SetAutomountField(a: Automount, key: string, value: string) returns (r: Option<Automount>)
    ensures r == WithField(a, key, value)
  {
    r := Some(a);
    match key {
      case "path" => r := Some(a.(path := value));
      case "name" => r := Some(a.(name := value));
      case "type" => r := Some(a.(fsType := value));
      case "options" => r := Some(a.(options := value));
      case "bare" =>
        var b := StrictBool(value);
        r := if b.None? then None else Some(a.(bare := b.value));
      case "partition" =>
        var n := Atoi(TrimSpace(value), MAX_INT);
        r := if n.None? || n.value < 0 then None else Some(a.(partition := n.value));
      case _ =>
    }
  }

  method ReadSetting(d: Doc, name: string, value: string, line: nat) returns (o: Outcome)
    ensures o == LineStep(d, Setting(name, value), line)
  {
    hide TomlValue, WithField, WithValue;
    if d.section == ARRAY_OF_DISKS {
      var parsed := ParseTOMLValue(value);
      if parsed.None? {
        return Refused(line);
      }
      if |d.config.automount| == 0 {
        return Panicked(line);
      }
      var last := |d.config.automount| - 1;
      var a := SetAutomountField(d.config.automount[last], name, parsed.value);
      if a.None? {
        return Refused(line);
      }
      return At(d.(config := d.config.(automount := d.config.automount[last := a.value])));
    }
    var key := name;
    if d.section != "" {
      key := d.section + "." + name;
    }
    var known := ValueOf(d.config, key);
    if known.None? {
      return At(d);
    }
    var parsed := ParseTOMLValue(value);
    if parsed.None? {
      return Refused(line);
    }
    var c := SetConfigValue(d.config, key, parsed.value);
    if c.None? {
      return Refused(line);
    }
    o := At(d.(config := c.value));
  }

  method ReadLine(d: Doc, raw: string, line: nat) returns (o: Outcome)
    ensures o == LineStep(d, Classify(raw), line)
  {
    hide DiskStep, SettingStep;
    var s := TrimSpace(raw);
    if s == "" || StartsWith(s, '#') {
      return At(d);
    }
    if "[[" <= s {
      if !EndsWith(s, ']') || !EndsWith(s[..|s| - 1], ']') {
        return Refused(line);
      }
      var section := "[[" + TrimSpace(s[2..|s| - 2]) + "]]";
      var c := d.config;
      if section == ARRAY_OF_DISKS {
        c := c.(automount := c.automount + [EMPTY]);
      }
      return At(Doc(c, section));
    }
    if StartsWith(s, '[') {
      if !EndsWith(s, ']') {
        return Refused(line);
      }
      return At(d.(section := TrimSpace(s[1..|s| - 1])));
    }
    var eq := IndexOf(s, '=');
    if eq.None? {
      return Refused(line);
    }
    o := ReadSetting(d, TrimSpace(s[..eq.value]), TrimSpace(s[eq.value + 1..]), line);
  }

  method ParseConfig(text: string) returns (o: Outcome)
    ensures o == Parsed(text)
  {
    hide LineStep, Classify, Lines;
    var lines := Lines(text);
    o := At(START);
    for i := 0 to |lines|
      invariant o.At? && ReadLines(START, lines, 1) == ReadLines(o.doc, lines[i..], i + 1)
    {
      assert lines[i..][1..] == lines[i + 1..];
      o := ReadLine(o.doc, lines[i], i + 1);
      if !o.At? {
        return;
      }
    }
  }

  /* ---- writing the file ---- */

  /** The comments of the file, whatever they say: single lines that start with '#'. */
  datatype Comments = Comments(
    intro: seq<string>, scan: seq<string>, trim: seq<string>, restart: seq<string>, unlock: seq<string>,
    disks: seq<string>)
  {
    ghost predicate Valid() {
      && AreComments(intro) && AreComments(scan) && AreComments(trim) && AreComments(restart)
      && AreComments(unlock) && AreComments(disks)
    }
  }

  ghost predicate AreComments(ls: seq<string>) {
    forall i :: 0 <= i < |ls| ==> StartsWith(ls[i], '#') && IsLine(ls[i])
  }

  const DISK_HEADER := ["", ARRAY_OF_DISKS]

  function Entry(name: string, value: string): string {
    name + " = " + value
  }

  function TextField(name: string, value: string): seq<string> {
    if value == "" then [] else [Entry(name, Quoted(value))]
  }

  function DiskBlock(a: Automount): seq<string> {
    (DISK_HEADER + [Entry("path", Quoted(a.path))])
    + (TextField("name", a.name) + (if a.bare then [Entry("bare", "true")] else []))
    + (TextField("type", a.fsType) + TextField("options", a.options))
    + (if a.partition > 0 then [Entry("partition", Format(a.partition))] else [])
  }

  function DiskBlocks(ds: seq<Automount>): seq<string> {
    if ds == [] then [] else DiskBlocks(ds[..|ds| - 1]) + DiskBlock(ds[|ds| - 1])
  }

  /* The parts of the file between one setting and the next. */
  function BeforeDirs(notes: Comments): seq<string> { notes.intro + ["", "[scan]"] + notes.scan }
  function BeforeTrim(notes: Comments): seq<string> { ["", "[compact]"] + notes.trim }
  function BeforeUnlock(notes: Comments): seq<string> { ["", "[wsl]"] + notes.unlock }

  /** The lines of the file RenderConfig writes. */
  function Rendering(c: Config, notes: Comments): seq<string> {
    BeforeDirs(notes) + [Entry("dirs", "[" + Listed(c.scanDirs) + "]")]
    + BeforeTrim(notes) + [Entry("trim", FormatBool(c.trim))]
    + notes.restart + [Entry("restart", FormatBool(c.restart))]
    + BeforeUnlock(notes) + [Entry("unlock_timeout_seconds", Format(c.unlockSeconds))]
    + (if c.automount == [] then [] else [""] + notes.disks)
    + DiskBlocks(c.automount)
  }

  lemma {:induction false} ListedSnoc(ds: seq<string>, d: string)
    ensures Listed(ds + [d]) == Listed(ds) + (if ds == [] then "" else ", ") + Quoted(d)
  {
    var all := ds + [d];
    if |ds| > 0 {
      assert all[1..] == ds[1..] + [d];
      ListedSnoc(ds[1..], d);
    }
  }

  method RenderDirs(ds: seq<string>) returns (b: string)
    ensures b == Listed(ds)
  {
    assert Listed([]) == "";
    hide Listed, Quoted;
    b := "";
    for i := 0 to |ds|
      invariant b == Listed(ds[..i])
    {
      assert ds[..i + 1] == ds[..i] + [ds[i]];
      ListedSnoc(ds[..i], ds[i]);
      if i > 0 {
        b := b + ", ";
      }
      var q := Quote(ds[i]);
      b := b + q;
    }
    assert ds[..|ds|] == ds;
  }

  /** One more line. */
  lemma LineAdded(lines: seq<string>, l: string)
    ensures Unlines(lines + [l]) == Unlines(lines) + l + "\n"
  {
    UnlinesAppend(lines, [l]);
    assert Unlines([l]) == l + "\n" + Unlines([]);
  }

  /** Writes `lines` and one more. */
  method WriteLine(b: string, ghost lines: seq<string>, l: string) returns (out: string)
    requires b == Unlines(lines)
    ensures out == Unlines(lines + [l])
  {
    LineAdded(lines, l);
    out := b + l + "\n";
  }

  method WriteText(b: string, ghost lines: seq<string>, name: string, value: string) returns (out: string)
    requires b == Unlines(lines)
    ensures out == Unlines(lines + TextField(name, value))
  {
    out := b;
    if value != "" {
      var q := Quote(value);
      out := WriteLine(b, lines, Entry(name, q));
    } else {
      assert lines + TextField(name, value) == lines;
    }
  }

  method RenderDisk(a: Automount) returns (b: string)
    ensures b == Unlines(DiskBlock(a))
  {
    hide Unlines, Quoted, Format, Entry, TextField;
    b := Unlines(DISK_HEADER);
    ghost var lines := DISK_HEADER;
    var q := Quote(a.path);
    b := WriteLine(b, lines, Entry("path", q));
    lines := lines + [Entry("path", q)];
    b := WriteText(b, lines, "name", a.name);
    lines := lines + TextField("name", a.name);
    ghost var bare := if a.bare then [Entry("bare", "true")] else [];
    if a.bare {
      b := WriteLine(b, lines, Entry("bare", "true"));
    }
    assert lines + [] == lines;
    lines := lines + bare;
    b := WriteText(b, lines, "type", a.fsType);
    lines := lines + TextField("type", a.fsType);
    b := WriteText(b, lines, "options", a.options);
    lines := lines + TextField("options", a.options);
    ghost var partition := if a.partition > 0 then [Entry("partition", Format(a.partition))] else [];
    if a.partition > 0 {
      b := WriteLine(b, lines, Entry("partition", Format(a.partition)));
    }
    assert lines + [] == lines;
    assert lines + partition == DiskBlock(a);
  }

  method RenderConfig(c: Config, notes: Comments) returns (text: string)
    ensures text == Unlines(Rendering(c, notes))
  {
    hide Unlines, Listed, Format, Entry, DiskBlock, BeforeDirs, BeforeTrim, BeforeUnlock;
    var dirs := RenderDirs(c.scanDirs);
    ghost var lines := BeforeDirs(notes);
    var l := Entry("dirs", "[" + dirs + "]");
    text := WriteLine(Unlines(BeforeDirs(notes)), lines, l);
    lines := lines + [l];

    UnlinesAppend(lines, BeforeTrim(notes));
    text, lines := text + Unlines(BeforeTrim(notes)), lines + BeforeTrim(notes);
    l := Entry("trim", FormatBool(c.trim));
    text := WriteLine(text, lines, l);
    lines := lines + [l];

    UnlinesAppend(lines, notes.restart);
    text, lines := text + Unlines(notes.restart), lines + notes.restart;
    l := Entry("restart", FormatBool(c.restart));
    text := WriteLine(text, lines, l);
    lines := lines + [l];

    UnlinesAppend(lines, BeforeUnlock(notes));
    text, lines := text + Unlines(BeforeUnlock(notes)), lines + BeforeUnlock(notes);
    l := Entry("unlock_timeout_seconds", Format(c.unlockSeconds));
    text := WriteLine(text, lines, l);
    lines := lines + [l];

    if |c.automount| > 0 {
      UnlinesAppend(lines, [""] + notes.disks);
      text, lines := text + Unlines([""] + notes.disks), lines + ([""] + notes.disks);
    }
    ghost var before := lines;
    for i := 0 to |c.automount|
      invariant text == Unlines(lines) && lines == before + DiskBlocks(c.automount[..i])
    {
      assert c.automount[..i + 1][..i] == c.automount[..i];
      var b := RenderDisk(c.automount[i]);
      UnlinesAppend(lines, DiskBlock(c.automount[i]));
      text, lines := text + b, lines + DiskBlock(c.automount[i]);
    }
    assert c.automount[..|c.automount|] == c.automount;
    assert lines == Rendering(c, notes);
  }
}
