/** Reading .wslconfig and disabling lines of it (internal/wslconfig/wslconfig.go, lint.go). */
module WslConfig {
  import opened Text

  datatype Entry = Entry(section: string, key: string, value: string, line: nat, raw: string)
  datatype Problem = Problem(line: nat, raw: string, unterminated: bool)
  datatype Config = Config(entries: seq<Entry>, sections: seq<string>, lines: seq<string>, problems: seq<Problem>)

  /* ---- one line ---- */

  datatype Line =
    | Nothing
    | Header(section: string)
    | Unterminated
    | KeyValue(key: string, value: string)
    | Stray

  function TrimQuotesLeft(s: string): string {
    if StartsWith(s, '"') then TrimQuotesLeft(s[1..]) else s
  }

  function TrimQuotesRight(s: string): string {
    if EndsWith(s, '"') then TrimQuotesRight(s[..|s| - 1]) else s
  }

  /** A value without an inline comment and without quotes. */
  function ValueOf(text: string): string {
    var val := TrimSpace(text);
    var i := Find(val, " #");
    TrimQuotesRight(TrimQuotesLeft(if i.Some? then TrimSpace(val[..i.value]) else val))
  }

  function Classify(raw: string): Line {
    var line := TrimSpace(raw);
    if line == "" || line[0] == '#' || line[0] == ';' then Nothing
    else if line[0] == '[' then
      var end := IndexOf(line, ']');
      if end.None? then Unterminated else Header(Lower(TrimSpace(line[1..end.value])))
    else
      var eq := IndexOf(line, '=');
      if eq.None? then Stray else KeyValue(TrimSpace(line[..eq.value]), ValueOf(line[eq.value + 1..]))
  }

  /* ---- what a value is ---- */

  /** No inline comment starts in it. */
  predicate NoMark(s: string) {
    forall i :: 0 <= i < |s| - 1 ==> !(s[i] == ' ' && s[i + 1] == '#')
  }

  lemma {:induction false} FindMark(a: string, rest: string)
    requires NoMark(a)
    ensures Find(a, " #").None?
    ensures Find(a + " #" + rest, " #") == Some(|a|)
  {
    var s := a + " #" + rest;
    if a == "" {
      assert s[..2] == " #";
    } else {
      assert s[0] == a[0] && s[1..] == a[1..] + " #" + rest;
      var b := a[1..];
      forall i | 0 <= i < |b| - 1 ensures !(b[i] == ' ' && b[i + 1] == '#') {
        assert b[i] == a[i + 1] && b[i + 1] == a[i + 2];
      }
      FindMark(a[1..], rest);
      assert s[1] == if |a| > 1 then a[1] else ' ';
    }
  }

  lemma {:induction false} TrimRightAppend(a: string, b: string)
    requires a != "" && !IsSpace(a[|a| - 1])
    ensures TrimRight(a + b) == a + TrimRight(b)
    decreases |b|
  {
    if b == "" {
      assert a + b == a;
    } else if IsSpace(b[|b| - 1]) {
      assert (a + b)[..|a + b| - 1] == a + b[..|b| - 1];
      TrimRightAppend(a, b[..|b| - 1]);
    }
  }

  function Unquoted(s: string): string {
    TrimQuotesRight(TrimQuotesLeft(s))
  }

  /** Quotes are taken off. */
  lemma QuotesTaken(v: string)
    requires v == "" || (v[0] != '"' && v[|v| - 1] != '"')
    ensures Unquoted(v) == v && Unquoted("\"" + v + "\"") == v
  {
    var q := "\"" + v + "\"";
    assert q[1..] == v + "\"";
    if v == "" {
      var one := "\"";
      assert q[1..] == one && one[1..] == "" && TrimQuotesLeft(one) == "";
    } else {
      assert TrimQuotesLeft(q) == v + "\"";
      assert (v + "\"")[..|v|] == v;
    }
  }

  /** An inline comment is taken off; a text without one is all value. */
  lemma CommentTaken(v: string, comment: string)
    requires v != "" && Trimmed(v) && NoMark(v)
    ensures ValueOf(v) == Unquoted(v) && ValueOf(v + " #" + comment) == Unquoted(v)
  {
    var text, marked := v + " #" + comment, v + " #";
    TrimmedStays(v);
    FindMark(v, "");
    assert text[0] == v[0] && TrimLeft(text) == text;
    TrimRightAppend(marked, comment);
    var val := marked + TrimRight(comment);
    assert TrimSpace(text) == val;
    FindMark(v, TrimRight(comment));
    assert val == v + " #" + TrimRight(comment) && val[..|v|] == v;
    hide Find, TrimSpace, TrimQuotesLeft, TrimQuotesRight;
  }

  lemma {:induction false} TrimRightTwice(s: string)
    ensures TrimRight(TrimRight(s)) == TrimRight(s)
  {
    if s != "" && IsSpace(s[|s| - 1]) {
      TrimRightTwice(s[..|s| - 1]);
    }
  }

  /** A line with a key and a text is an entry with that key and the text's value. */
  lemma EntryRead(key: string, text: string)
    requires key != "" && Trimmed(key) && '=' !in key && key[0] !in "#;["
    requires text != "" && !IsSpace(text[0])
    ensures Classify(key + "=" + text) == KeyValue(key, ValueOf(text))
  {
    var raw, front := key + "=" + text, key + "=";
    assert raw[0] == key[0] && TrimLeft(raw) == raw;
    assert front[|front| - 1] == '=';
    TrimRightAppend(front, text);
    var t := TrimRight(text);
    assert TrimSpace(raw) == front + t == key + ['='] + t;
    IndexIs(key, '=', t);
    TrimmedStays(key);
    FirstStays(text);
    TrimRightTwice(text);
    RightKeepsFirst(text);
    assert TrimSpace(t) == TrimSpace(text);
    var line := key + ['='] + t;
    assert line[..|key|] == key && line[|key| + 1..] == t && line[0] == key[0];
    hide TrimSpace, IndexOf, TrimQuotesLeft, TrimQuotesRight, Find;
  }

  /** A line in brackets starts the section of that name, in lower case, whatever follows. */
  lemma HeaderRead(name: string, rest: string)
    requires ']' !in name
    ensures Classify("[" + name + "]" + rest) == Header(Lower(TrimSpace(name)))
  {
    var raw, front := "[" + name + "]" + rest, "[" + name + "]";
    assert raw[0] == '[' && TrimLeft(raw) == raw;
    TrimRightAppend(front, rest);
    var line := front + TrimRight(rest);
    assert TrimSpace(raw) == line == ("[" + name) + [']'] + TrimRight(rest);
    IndexIs("[" + name, ']', TrimRight(rest));
    assert line[0] == '[' && line[1..|name| + 1] == name;
    hide TrimSpace, IndexOf;
  }

  lemma {:induction false} RightKeepsFirst(s: string)
    ensures TrimRight(s) <= s
  {
    if s != "" && IsSpace(s[|s| - 1]) {
      RightKeepsFirst(s[..|s| - 1]);
    }
  }

  /** The same setting with a comment behind it, or in quotes, or both, has the same value. */
  lemma SameValue(key: string, v: string, comment: string)
    requires key != "" && Trimmed(key) && '=' !in key && key[0] !in "#;["
    requires v != "" && Trimmed(v) && NoMark(v) && v[0] != '"' && v[|v| - 1] != '"'
    ensures var q := "\"" + v + "\"";
            && Classify(key + "=" + v) == Classify(key + "=" + (v + " #" + comment)) == KeyValue(key, v)
            && Classify(key + "=" + q) == Classify(key + "=" + (q + " #" + comment)) == KeyValue(key, v)
  {
    var q := "\"" + v + "\"";
    assert NoMark(q) && Trimmed(q);
    QuotesTaken(v);
    hide Classify, ValueOf, Unquoted, NoMark;
    CommentTaken(v, comment);
    CommentTaken(q, comment);
    EntryRead(key, v);
    EntryRead(key, v + " #" + comment);
    EntryRead(key, q);
    EntryRead(key, q + " #" + comment);
  }

  /* ---- what a file says ---- */

  function Under(section: string, l: Line): string {
    if l.Header? then l.section else section
  }

  function EntryHere(l: Line, section: string, n: nat, raw: string): seq<Entry> {
    if l.KeyValue? then [Entry(section, l.key, l.value, n, raw)] else []
  }

  function ProblemHere(l: Line, n: nat, raw: string): seq<Problem> {
    if l.Unterminated? || l.Stray? then [Problem(n, raw, l.Unterminated?)] else []
  }

  /** The entries of lines that begin with line `n`, in a section. */
  function EntriesOf(lines: seq<string>, n: nat, section: string): seq<Entry>
    decreases lines
  {
    if lines == [] then []
    else
      var l := Classify(lines[0]);
      EntryHere(l, section, n, lines[0]) + EntriesOf(lines[1..], n + 1, Under(section, l))
  }

  function ProblemsOf(lines: seq<string>, n: nat): seq<Problem>
    decreases lines
  {
    if lines == [] then []
    else ProblemHere(Classify(lines[0]), n, lines[0]) + ProblemsOf(lines[1..], n + 1)
  }

  function SeenAfter(l: Line, seen: seq<string>): seq<string> {
    if l.Header? && l.section !in seen then seen + [l.section] else seen
  }

  /** The sections in order of first appearance, after some that were seen before. */
  function SectionsOf(lines: seq<string>, seen: seq<string>): seq<string>
    decreases lines
  {
    if lines == [] then seen else SectionsOf(lines[1..], SeenAfter(Classify(lines[0]), seen))
  }

  function Parsed(lines: seq<string>): Config {
    Config(EntriesOf(lines, 1, ""), SectionsOf(lines, []), lines, ProblemsOf(lines, 1))
  }

  /** One more line. */
  lemma NextLine(lines: seq<string>, i: nat, section: string, seen: seq<string>)
    requires i < |lines|
    ensures var l := Classify(lines[i]);
            && EntriesOf(lines[i..], i + 1, section)
               == EntryHere(l, section, i + 1, lines[i]) + EntriesOf(lines[i + 1..], i + 2, Under(section, l))
            && ProblemsOf(lines[i..], i + 1) == ProblemHere(l, i + 1, lines[i]) + ProblemsOf(lines[i + 1..], i + 2)
            && SectionsOf(lines[i..], seen) == SectionsOf(lines[i + 1..], SeenAfter(l, seen))
  {
    hide Classify, EntryHere, ProblemHere, SeenAfter;
    assert lines[i..][1..] == lines[i + 1..];
  }

  method ParseLine(raw: string) returns (l: Line)
    ensures l == Classify(raw)
  {
    hide TrimSpace, ValueOf, Lower;
    l := Nothing;
    var line := TrimSpace(raw);
    if line == "" || StartsWith(line, '#') || StartsWith(line, ';') {
      return;
    }
    if StartsWith(line, '[') {
      var end := IndexOf(line, ']');
      if end.None? {
        return Unterminated;
      }
      return Header(Lower(TrimSpace(line[1..end.value])));
    }
    var eq := IndexOf(line, '=');
    if eq.None? {
      return Stray;
    }
    l := KeyValue(TrimSpace(line[..eq.value]), ValueOf(line[eq.value + 1..]));
  }

  lemma NoLines(n: nat, section: string, seen: seq<string>)
    ensures EntriesOf([], n, section) == [] && ProblemsOf([], n) == [] && SectionsOf([], seen) == seen
  {
  }

  /** Never fails: a line that is nothing else is a problem. */
  method ParseLines(lines: seq<string>) returns (c: Config)
    ensures c == Parsed(lines)
  {
    hide Classify, EntriesOf, ProblemsOf, SectionsOf;
    var entries, sections, problems := [], [], [];
    var section := "";
    var seen := {};
    assert lines[0..] == lines && lines[|lines|..] == [];
    for i := 0 to |lines|
      invariant EntriesOf(lines, 1, "") == entries + EntriesOf(lines[i..], i + 1, section)
      invariant ProblemsOf(lines, 1) == problems + ProblemsOf(lines[i..], i + 1)
      invariant SectionsOf(lines, []) == SectionsOf(lines[i..], sections)
      invariant seen == set s | s in sections
    {
      NextLine(lines, i, section, sections);
      var l := ParseLine(lines[i]);
      match l {
        case Nothing =>
        case Unterminated => problems := problems + [Problem(i + 1, lines[i], true)];
        case Stray => problems := problems + [Problem(i + 1, lines[i], false)];
        case Header(name) =>
          section := name;
          if name !in seen {
            seen := seen + {name};
            sections := sections + [name];
          }
        case KeyValue(key, value) => entries := entries + [Entry(section, key, value, i + 1, lines[i])];
      }
    }
    NoLines(|lines| + 1, section, sections);
    c := Config(entries, sections, lines, problems);
  }

  /** The last value of a key, as WSL reads it. */
  function LastValue(es: seq<Entry>, section: string, key: string): Option<string> {
    if es == [] then None
    else
      var e := es[|es| - 1];
      if EqualFold(e.section, section) && EqualFold(e.key, key) then Some(e.value)
      else LastValue(es[..|es| - 1], section, key)
  }

  method Get(c: Config, section: string, key: string) returns (out: Option<string>)
    ensures out == LastValue(c.entries, section, key)
  {
    out := None;
    for i := 0 to |c.entries|
      invariant out == LastValue(c.entries[..i], section, key)
    {
      assert c.entries[..i + 1][..i] == c.entries[..i];
      var e := c.entries[i];
      if EqualFold(e.section, section) && EqualFold(e.key, key) {
        out := Some(e.value);
      }
    }
    assert c.entries[..|c.entries|] == c.entries;
  }

  /* ---- disabling lines ---- */

  datatype Finding = Finding(line: nat, message: string, commentOut: bool)

  predicate Asks(f: Finding, n: nat) {
    f.commentOut && f.line == n
  }

  /** The message of the first finding that disables line `n`. */
  function ReasonFor(fs: seq<Finding>, n: nat): Option<string> {
    if fs == [] then None
    else if Asks(fs[0], n) then Some(fs[0].message)
    else ReasonFor(fs[1..], n)
  }

  /** The lines from line `n` on, with those disabled that a finding asks for. */
  function Disabled(lines: seq<string>, n: nat, fs: seq<Finding>): seq<string>
    decreases lines
  {
    if lines == [] then []
    else
      var reason := ReasonFor(fs, n);
      (if reason.None? || StartsWith(TrimSpace(lines[0]), '#') then [lines[0]]
       else ["# wslkit:" + reason.value, "# " + lines[0]])
      + Disabled(lines[1..], n + 1, fs)
  }

  lemma {:induction false} ReasonSnoc(fs: seq<Finding>, f: Finding, n: nat)
    ensures ReasonFor(fs + [f], n) == if ReasonFor(fs, n).Some? then ReasonFor(fs, n)
                                      else if Asks(f, n) then Some(f.message) else None
  {
    if fs == [] {
      assert (fs + [f])[1..] == [];
    } else {
      assert (fs + [f])[1..] == fs[1..] + [f];
      ReasonSnoc(fs[1..], f, n);
    }
  }

  method Reasons(fs: seq<Finding>, count: nat) returns (reasons: map<nat, string>)
    ensures forall n: nat :: n in reasons <==> 1 <= n <= count && ReasonFor(fs, n).Some?
    ensures forall n | n in reasons :: reasons[n] == ReasonFor(fs, n).value
  {
    reasons := map[];
    for i := 0 to |fs|
      invariant forall n: nat :: n in reasons <==> 1 <= n <= count && ReasonFor(fs[..i], n).Some?
      invariant forall n | n in reasons :: reasons[n] == ReasonFor(fs[..i], n).value
    {
      assert fs[..i + 1] == fs[..i] + [fs[i]];
      forall n: nat
        ensures ReasonFor(fs[..i + 1], n) == if ReasonFor(fs[..i], n).Some? then ReasonFor(fs[..i], n)
                                             else if Asks(fs[i], n) then Some(fs[i].message) else None
      {
        ReasonSnoc(fs[..i], fs[i], n);
      }
      var f := fs[i];
      if f.commentOut && 1 <= f.line <= count {
        if f.line !in reasons {
          reasons := reasons[f.line := f.message];
        }
      }
    }
    assert fs[..|fs|] == fs;
  }

  method CommentOut(c: Config, fs: seq<Finding>) returns (out: seq<string>)
    ensures out == Disabled(c.lines, 1, fs)
  {
    hide TrimSpace, ReasonFor, Disabled, StartsWith;
    assert c.lines[0..] == c.lines && c.lines[|c.lines|..] == [];
    var reasons := Reasons(fs, |c.lines|);
    out := [];
    for i := 0 to |c.lines|
      invariant Disabled(c.lines, 1, fs) == out + Disabled(c.lines[i..], i + 1, fs)
    {
      DisabledFrom(c.lines, i, fs);
      var l := c.lines[i];
      if i + 1 !in reasons || StartsWith(TrimSpace(l), '#') {
        out := out + [l];
        continue;
      }
      out := out + ["# wslkit:" + reasons[i + 1], "# " + l];
    }
    NoneDisabled(|c.lines| + 1, fs, 1, "");
  }

  lemma DisabledFrom(lines: seq<string>, i: nat, fs: seq<Finding>)
    requires i < |lines|
    ensures Disabled(lines[i..], i + 1, fs)
            == OneDisabled(lines[i], i + 1, fs) + Disabled(lines[i + 1..], i + 2, fs)
  {
    hide TrimSpace, ReasonFor, StartsWith;
    assert lines[i..][1..] == lines[i + 1..];
  }

  /* ---- what disabling keeps ---- */

  /** No finding disables a line that starts a section. */
  predicate SparesHeaders(lines: seq<string>, n: nat, fs: seq<Finding>) {
    forall i :: 0 <= i < |lines| && ReasonFor(fs, n + i).Some? ==> !Classify(lines[i]).Header?
  }

  /** An entry but for its line number. */
  datatype Meaning = Meaning(section: string, key: string, value: string, raw: string)

  function MeaningOf(e: Entry): Meaning {
    Meaning(e.section, e.key, e.value, e.raw)
  }

  /** The meanings of the entries on lines that no finding disables. */
  function Kept(es: seq<Entry>, fs: seq<Finding>): seq<Meaning> {
    if es == [] then []
    else (if ReasonFor(fs, es[0].line).None? then [MeaningOf(es[0])] else []) + Kept(es[1..], fs)
  }

  function Meanings(es: seq<Entry>): seq<Meaning> {
    if es == [] then [] else [MeaningOf(es[0])] + Meanings(es[1..])
  }

  lemma CommentIsNothing(s: string)
    requires StartsWith(s, '#')
    ensures Classify(s) == Nothing
  {
    assert TrimLeft(s) == s;
    FirstStays(s);
    var j := TrimRightIs(s);
  }

  lemma {:induction false} MeaningsAppend(a: seq<Entry>, b: seq<Entry>)
    ensures Meanings(a + b) == Meanings(a) + Meanings(b)
  {
    if a == [] {
      assert a + b == b;
    } else {
      assert (a + b)[1..] == a[1..] + b;
      MeaningsAppend(a[1..], b);
    }
  }

  lemma {:induction false} KeptAppend(a: seq<Entry>, b: seq<Entry>, fs: seq<Finding>)
    ensures Kept(a + b, fs) == Kept(a, fs) + Kept(b, fs)
  {
    if a == [] {
      assert a + b == b;
    } else {
      assert (a + b)[1..] == a[1..] + b;
      KeptAppend(a[1..], b, fs);
    }
  }

  /** What one line becomes. */
  function OneDisabled(l: string, n: nat, fs: seq<Finding>): seq<string> {
    var reason := ReasonFor(fs, n);
    if reason.None? || StartsWith(TrimSpace(l), '#') then [l] else ["# wslkit:" + reason.value, "# " + l]
  }

  lemma FirstLine(l: string, rest: seq<string>, m: nat, section: string)
    ensures EntriesOf([l] + rest, m, section)
            == EntryHere(Classify(l), section, m, l) + EntriesOf(rest, m + 1, Under(section, Classify(l)))
    ensures ProblemsOf([l] + rest, m) == ProblemHere(Classify(l), m, l) + ProblemsOf(rest, m + 1)
    ensures forall seen :: SectionsOf([l] + rest, seen) == SectionsOf(rest, SeenAfter(Classify(l), seen))
  {
    hide Classify, EntryHere, ProblemHere, SeenAfter;
    assert ([l] + rest)[1..] == rest;
  }

  /** Reading two comments is reading nothing. */
  lemma CommentsFirst(a: string, b: string, rest: seq<string>, m: nat, section: string, seen: seq<string>)
    requires StartsWith(a, '#') && StartsWith(b, '#')
    ensures EntriesOf([a, b] + rest, m, section) == EntriesOf(rest, m + 2, section)
    ensures ProblemsOf([a, b] + rest, m) == ProblemsOf(rest, m + 2)
    ensures SectionsOf([a, b] + rest, seen) == SectionsOf(rest, seen)
  {
    CommentIsNothing(a);
    CommentIsNothing(b);
    assert [a, b] + rest == [a] + ([b] + rest);
    hide Classify, EntriesOf, ProblemsOf, SectionsOf;
    FirstLine(a, [b] + rest, m, section);
    FirstLine(b, rest, m + 1, section);
  }

  lemma {:induction false} SparedRest(lines: seq<string>, n: nat, fs: seq<Finding>)
    requires lines != [] && SparesHeaders(lines, n, fs)
    ensures SparesHeaders(lines[1..], n + 1, fs)
    ensures ReasonFor(fs, n).Some? ==> !Classify(lines[0]).Header?
  {
    hide Classify, ReasonFor;
    var rest := lines[1..];
    forall i | 0 <= i < |rest| && ReasonFor(fs, n + 1 + i).Some? ensures !Classify(rest[i]).Header? {
      assert ReasonFor(fs, n + (i + 1)).Some? && rest[i] == lines[i + 1];
    }
    assert ReasonFor(fs, n + 0).Some? ==> !Classify(lines[0]).Header?;
  }

  lemma CommentedOut(l: string, reason: string)
    ensures StartsWith("# wslkit:" + reason, '#') && StartsWith("# " + l, '#')
  {
    assert ("# wslkit:" + reason)[0] == '#' && ("# " + l)[0] == '#';
  }

  lemma HashIsNothing(l: string)
    requires StartsWith(TrimSpace(l), '#')
    ensures Classify(l) == Nothing
  {
  }

  lemma OneRead(l: string, n: nat, fs: seq<Finding>, rest: seq<string>, m: nat, section: string)
    requires ReasonFor(fs, n).Some? ==> !Classify(l).Header?
    ensures var one := OneDisabled(l, n, fs);
            Meanings(EntriesOf(one + rest, m, section))
            == Kept(EntryHere(Classify(l), section, n, l), fs)
               + Meanings(EntriesOf(rest, m + |one|, Under(section, Classify(l))))
  {
    var one, c := OneDisabled(l, n, fs), Classify(l);
    HereKept(c, section, n, m, l, fs);
    if StartsWith(TrimSpace(l), '#') {
      HashIsNothing(l);
    }
    assert |one| == 1 ==> one == [l] && (c.KeyValue? ==> ReasonFor(fs, n).None?);
    hide Classify, EntriesOf, ReasonFor, TrimSpace, EntryHere, Meanings, Kept;
    if |one| == 2 {
      CommentedOut(l, ReasonFor(fs, n).value);
      CommentsFirst(one[0], one[1], rest, m, section, []);
      assert [one[0], one[1]] == one;
      assert Kept(EntryHere(c, section, n, l), fs) == [] && Under(section, c) == section;
    } else {
      OneStays(l, rest, m, section);
    }
  }

  lemma OneStays(l: string, rest: seq<string>, m: nat, section: string)
    ensures Meanings(EntriesOf([l] + rest, m, section))
            == Meanings(EntryHere(Classify(l), section, m, l))
               + Meanings(EntriesOf(rest, m + 1, Under(section, Classify(l))))
  {
    hide Classify, EntriesOf, EntryHere, Meanings;
    FirstLine(l, rest, m, section);
    MeaningsAppend(EntryHere(Classify(l), section, m, l), EntriesOf(rest, m + 1, Under(section, Classify(l))));
  }

  lemma HereKept(c: Line, section: string, n: nat, m: nat, l: string, fs: seq<Finding>)
    ensures Kept(EntryHere(c, section, n, l), fs)
            == if c.KeyValue? && ReasonFor(fs, n).Some? then [] else Meanings(EntryHere(c, section, m, l))
    ensures !c.KeyValue? ==> Kept(EntryHere(c, section, n, l), fs) == []
  {
    hide ReasonFor;
    var e, f := EntryHere(c, section, n, l), EntryHere(c, section, m, l);
    assert |e| <= 1 && (c.KeyValue? ==> e[1..] == [] && f[1..] == []);
  }

  lemma FirstDisabled(lines: seq<string>, n: nat, fs: seq<Finding>, section: string)
    requires lines != []
    ensures Disabled(lines, n, fs) == OneDisabled(lines[0], n, fs) + Disabled(lines[1..], n + 1, fs)
    ensures EntriesOf(lines, n, section)
            == EntryHere(Classify(lines[0]), section, n, lines[0])
               + EntriesOf(lines[1..], n + 1, Under(section, Classify(lines[0])))
    ensures ProblemsOf(lines, n) == ProblemHere(Classify(lines[0]), n, lines[0]) + ProblemsOf(lines[1..], n + 1)
  {
    hide Classify, ReasonFor, TrimSpace, EntryHere, ProblemHere;
  }

  lemma NoneDisabled(n: nat, fs: seq<Finding>, m: nat, section: string)
    ensures Disabled([], n, fs) == [] && EntriesOf([], m, section) == [] && ProblemsOf([], m) == []
    ensures Meanings([]) == [] && Kept([], fs) == []
  {
  }

  /** Reading the disabled lines gives the entries of the lines that were not disabled, with the same
      sections, keys and values in the same order. */
  lemma {:induction false} DisabledKeeps(lines: seq<string>, n: nat, fs: seq<Finding>, m: nat, section: string)
    requires SparesHeaders(lines, n, fs)
    ensures Meanings(EntriesOf(Disabled(lines, n, fs), m, section)) == Kept(EntriesOf(lines, n, section), fs)
    decreases lines
  {
    hide Classify, ReasonFor, SparesHeaders, EntryHere, Disabled, EntriesOf, Kept, Meanings, OneDisabled;
    if lines == [] {
      NoneDisabled(n, fs, m, section);
      NoneDisabled(n, fs, n, section);
    } else {
      var l, rest := lines[0], lines[1..];
      var c, k := Classify(l), |OneDisabled(l, n, fs)|;
      SparedRest(lines, n, fs);
      FirstDisabled(lines, n, fs, section);
      DisabledKeeps(rest, n + 1, fs, m + k, Under(section, c));
      OneRead(l, n, fs, Disabled(rest, n + 1, fs), m, section);
      KeptAppend(EntryHere(c, section, n, l), EntriesOf(rest, n + 1, Under(section, c)), fs);
    }
  }

  lemma OneSection(l: string, n: nat, fs: seq<Finding>, rest: seq<string>, seen: seq<string>)
    requires ReasonFor(fs, n).Some? ==> !Classify(l).Header?
    ensures SectionsOf(OneDisabled(l, n, fs) + rest, seen) == SectionsOf(rest, SeenAfter(Classify(l), seen))
  {
    var one := OneDisabled(l, n, fs);
    hide Classify, EntriesOf, ProblemsOf, SectionsOf, TrimSpace, ReasonFor;
    if |one| == 2 {
      CommentedOut(l, ReasonFor(fs, n).value);
      CommentsFirst(one[0], one[1], rest, 0, "", seen);
      assert [one[0], one[1]] == one;
    } else {
      FirstLine(l, rest, 0, "");
    }
  }

  /** The sections stay as they are. */
  lemma {:induction false} DisabledSections(lines: seq<string>, n: nat, fs: seq<Finding>, seen: seq<string>)
    requires SparesHeaders(lines, n, fs)
    ensures SectionsOf(Disabled(lines, n, fs), seen) == SectionsOf(lines, seen)
    decreases lines
  {
    hide Classify, ReasonFor, SparesHeaders, OneDisabled, SeenAfter;
    if lines != [] {
      SparedRest(lines, n, fs);
      FirstDisabled(lines, n, fs, "");
      hide Disabled;
      OneSection(lines[0], n, fs, Disabled(lines[1..], n + 1, fs), seen);
      DisabledSections(lines[1..], n + 1, fs, SeenAfter(Classify(lines[0]), seen));
    }
  }

  /* ---- which lines may be disabled ---- */

  /** Line `n` of the file is an entry or could not be read. */
  predicate EntryOrProblem(c: Config, n: nat) {
    || (exists i :: 0 <= i < |c.entries| && c.entries[i].line == n)
    || (exists i :: 0 <= i < |c.problems| && c.problems[i].line == n)
  }

  lemma {:induction false} EntryLine(lines: seq<string>, n: nat, section: string, i: nat)
    requires i < |EntriesOf(lines, n, section)|
    ensures var k := EntriesOf(lines, n, section)[i].line;
            n <= k < n + |lines| && Classify(lines[k - n]).KeyValue?
    decreases lines
  {
    hide Classify, Under;
    if lines != [] {
      var l, rest := Classify(lines[0]), lines[1..];
      var here := |EntryHere(l, section, n, lines[0])|;
      if i >= here {
        EntryLine(rest, n + 1, Under(section, l), i - here);
        var k := EntriesOf(rest, n + 1, Under(section, l))[i - here].line;
        assert rest[k - (n + 1)] == lines[k - n];
      }
    }
  }

  lemma {:induction false} ProblemLine(lines: seq<string>, n: nat, i: nat)
    requires i < |ProblemsOf(lines, n)|
    ensures var k := ProblemsOf(lines, n)[i].line;
            n <= k < n + |lines| && (Classify(lines[k - n]).Stray? || Classify(lines[k - n]).Unterminated?)
    decreases lines
  {
    hide Classify;
    if lines != [] {
      var here := |ProblemHere(Classify(lines[0]), n, lines[0])|;
      if i >= here {
        ProblemLine(lines[1..], n + 1, i - here);
      }
    }
  }

  /** No such line starts a section. */
  lemma NotAHeader(lines: seq<string>, n: nat)
    requires EntryOrProblem(Parsed(lines), n)
    ensures 1 <= n <= |lines| && !Classify(lines[n - 1]).Header?
  {
    hide Classify;
    var c := Parsed(lines);
    if exists i :: 0 <= i < |c.entries| && c.entries[i].line == n {
      var i :| 0 <= i < |c.entries| && c.entries[i].line == n;
      EntryLine(lines, 1, "", i);
    } else {
      var i :| 0 <= i < |c.problems| && c.problems[i].line == n;
      ProblemLine(lines, 1, i);
    }
  }

  /** Every finding that disables a line is about an entry or a line that could not be read. */
  predicate Fair(c: Config, fs: seq<Finding>) {
    forall i :: 0 <= i < |fs| && fs[i].commentOut ==> EntryOrProblem(c, fs[i].line)
  }

  lemma {:induction false} ReasonIsFair(c: Config, fs: seq<Finding>, n: nat)
    requires Fair(c, fs) && ReasonFor(fs, n).Some?
    ensures EntryOrProblem(c, n)
  {
    hide EntryOrProblem;
    if !Asks(fs[0], n) {
      ReasonIsFair(c, fs[1..], n);
    }
  }

  lemma FairSpares(lines: seq<string>, fs: seq<Finding>)
    requires Fair(Parsed(lines), fs)
    ensures SparesHeaders(lines, 1, fs)
  {
    forall i | 0 <= i < |lines| && ReasonFor(fs, 1 + i).Some? ensures !Classify(lines[i]).Header? {
      ReasonIsFair(Parsed(lines), fs, 1 + i);
      NotAHeader(lines, 1 + i);
    }
  }

  /* ---- what keys say afterwards ---- */

  function LastMeaning(ms: seq<Meaning>, section: string, key: string): Option<string> {
    if ms == [] then None
    else
      var m := ms[|ms| - 1];
      if EqualFold(m.section, section) && EqualFold(m.key, key) then Some(m.value)
      else LastMeaning(ms[..|ms| - 1], section, key)
  }

  lemma {:induction false} LastOfMeanings(es: seq<Entry>, section: string, key: string)
    ensures LastValue(es, section, key) == LastMeaning(Meanings(es), section, key)
  {
    hide EqualFold;
    if es != [] {
      var before, last := es[..|es| - 1], es[|es| - 1];
      assert es == before + [last];
      MeaningsAppend(before, [last]);
      assert Meanings([last]) == [MeaningOf(last)];
      assert Meanings(es)[..|Meanings(es)| - 1] == Meanings(before);
      LastOfMeanings(before, section, key);
    }
  }

  /** No entry of the key is disabled. */
  predicate Untouched(es: seq<Entry>, fs: seq<Finding>, section: string, key: string) {
    forall i :: 0 <= i < |es| && EqualFold(es[i].section, section) && EqualFold(es[i].key, key)
                ==> ReasonFor(fs, es[i].line).None?
  }

  lemma {:induction false} KeptLast(es: seq<Entry>, fs: seq<Finding>, section: string, key: string)
    requires Untouched(es, fs, section, key)
    ensures LastMeaning(Kept(es, fs), section, key) == LastValue(es, section, key)
  {
    hide EqualFold, ReasonFor;
    if es != [] {
      var before, last := es[..|es| - 1], es[|es| - 1];
      assert es == before + [last];
      KeptAppend(before, [last], fs);
      assert Kept([last], fs) == if ReasonFor(fs, last.line).None? then [MeaningOf(last)] else [];
      KeptLast(before, fs, section, key);
      if ReasonFor(fs, last.line).None? {
        assert Kept(es, fs)[..|Kept(es, fs)| - 1] == Kept(before, fs);
      } else {
        assert Kept(es, fs) == Kept(before, fs);
      }
    }
  }

  /** Disabling lines that Lint may disable keeps the meaning of the file: reading it again gives the
      same sections and exactly the entries that were not disabled, and every key that no finding is
      about has the value it had. */
  lemma CommentOutKeepsMeaning(lines: seq<string>, fs: seq<Finding>)
    requires Fair(Parsed(lines), fs)
    ensures var c, d := Parsed(lines), Parsed(Disabled(lines, 1, fs));
            && Meanings(d.entries) == Kept(c.entries, fs)
            && d.sections == c.sections
            && forall section, key :: Untouched(c.entries, fs, section, key) ==>
                 LastValue(d.entries, section, key) == LastValue(c.entries, section, key)
  {
    var c, d := Parsed(lines), Parsed(Disabled(lines, 1, fs));
    FairSpares(lines, fs);
    DisabledKeeps(lines, 1, fs, 1, "");
    DisabledSections(lines, 1, fs, []);
    hide Disabled, EntriesOf, ProblemsOf, SectionsOf, Kept, Meanings, Untouched;
    forall section, key | Untouched(c.entries, fs, section, key)
      ensures LastValue(d.entries, section, key) == LastValue(c.entries, section, key)
    {
      KeptLast(c.entries, fs, section, key);
      LastOfMeanings(d.entries, section, key);
    }
  }

  /* ---- what Lint disables ---- */

  /** What the key table says of a key, for this host. */
  datatype KeyInfo = KeyInfo(minBuild: nat, runtimeTooOld: bool)

  /** The key table; the keys are looked up without regard to case. */
  type Table = (string, string) -> Option<KeyInfo>

  /** WSL ignores the entry here. */
  predicate Ignored(e: Entry, table: Table, build: nat) {
    || e.section == ""
    || table(e.section, e.key).None?
    || (var k := table(e.section, e.key).value; (k.minBuild > 0 && 0 < build < k.minBuild) || k.runtimeTooOld)
  }

  function IdOf(e: Entry): string {
    Lower(e.section + "." + e.key)
  }

  /** The line of the last entry with an id. */
  function LastLine(es: seq<Entry>, id: string): Option<nat> {
    if es == [] then None
    else if IdOf(es[|es| - 1]) == id then Some(es[|es| - 1].line)
    else LastLine(es[..|es| - 1], id)
  }

  function LastWithId(es: seq<Entry>, id: string): Option<string> {
    if es == [] then None
    else if IdOf(es[|es| - 1]) == id then Some(es[|es| - 1].value)
    else LastWithId(es[..|es| - 1], id)
  }

  function Mode(es: seq<Entry>): string {
    var here := LastWithId(es, "wsl2.networkingmode");
    var there := LastWithId(es, "experimental.networkingmode");
    Lower(if here.Some? then here.value else if there.Some? then there.value else "")
  }

  /** Entry `i` is the last with an id. */
  predicate IsLast(es: seq<Entry>, id: string, i: nat) {
    i < |es| && IdOf(es[i]) == id && forall j :: i < j < |es| ==> IdOf(es[j]) != id
  }

  lemma {:induction false} LastIs(es: seq<Entry>, id: string)
    ensures var last := LastWithId(es, id);
            if last.Some? then exists i: nat :: IsLast(es, id, i) && es[i].value == last.value
            else forall i: nat :: !IsLast(es, id, i)
  {
    hide IdOf;
    if es != [] {
      var before, n := es[..|es| - 1], |es| - 1;
      LastIs(before, id);
      forall i: nat | i < n && IdOf(es[n]) != id ensures IsLast(es, id, i) <==> IsLast(before, id, i) {
      }
      if IdOf(es[n]) == id {
        assert IsLast(es, id, n);
      }
    }
  }

  /** The networking mode is the last one given for WSL 2, and only without one the last experimental one. */
  lemma ModeIs(es: seq<Entry>, i: nat)
    ensures IsLast(es, "wsl2.networkingmode", i) ==> Mode(es) == Lower(es[i].value)
    ensures (forall j: nat :: !IsLast(es, "wsl2.networkingmode", j)) && IsLast(es, "experimental.networkingmode", i) ==>
              Mode(es) == Lower(es[i].value)
    ensures Mode(es) == ""
            || exists j: nat :: IsLast(es, "wsl2.networkingmode", j) || IsLast(es, "experimental.networkingmode", j)
  {
    hide IdOf, LastWithId;
    LastIs(es, "wsl2.networkingmode");
    LastIs(es, "experimental.networkingmode");
  }

  /** A key that means something only with bridged networking. */
  const BRIDGED_KEYS := ["wsl2.vmswitch", "wsl2.macaddress"]

  predicate Flags(fs: seq<Finding>, n: nat) {
    exists i :: 0 <= i < |fs| && Asks(fs[i], n)
  }

  /** The lines Lint says WSL skips or ignores: those that could not be read, entries that mean nothing
      here, and the last entry of a key that needs bridged networking when that is off. */
  predicate SaidToBeIgnored(c: Config, table: Table, build: nat, n: nat) {
    || (exists i :: 0 <= i < |c.problems| && c.problems[i].line == n)
    || (exists i :: 0 <= i < |c.entries| && c.entries[i].line == n && Ignored(c.entries[i], table, build))
    || (Mode(c.entries) != "bridged"
        && exists k :: 0 <= k < |BRIDGED_KEYS| && LastLine(c.entries, BRIDGED_KEYS[k]) == Some(n))
  }

  /** Why Lint disables a line. */
  datatype Cause =
    | Malformed(p: Problem)
    | NoSection(e: Entry)
    | Unknown(e: Entry)
    | OldWindows(e: Entry)
    | OldWsl(e: Entry)
    | NotBridged(id: string)

  /** The words a cause is told in. They may repeat the whole line, with every quote in it escaped; they
      never hold a line break, as no line does. */
  type Wording = say: Cause -> string | forall why :: '\n' !in say(why) witness (why: Cause) => ""

  function Or<T>(a: Option<T>, b: Option<T>): Option<T> {
    if a.Some? then a else b
  }

  function Told(why: Option<Cause>, say: Wording): Option<string> {
    if why.Some? then Some(say(why.value)) else None
  }

  function WhyIgnored(e: Entry, table: Table, build: nat): (why: Option<Cause>)
    ensures why.Some? <==> Ignored(e, table, build)
  {
    if e.section == "" then Some(NoSection(e))
    else
      var k := table(e.section, e.key);
      if k.None? then Some(Unknown(e))
      else if k.value.minBuild > 0 && 0 < build < k.value.minBuild then Some(OldWindows(e))
      else if k.value.runtimeTooOld then Some(OldWsl(e))
      else None
  }

  function WhyProblem(ps: seq<Problem>, n: nat): Option<Cause> {
    if ps == [] then None
    else
      var p := ps[|ps| - 1];
      Or(WhyProblem(ps[..|ps| - 1], n), if p.line == n then Some(Malformed(p)) else None)
  }

  function WhyEntry(es: seq<Entry>, table: Table, build: nat, n: nat): Option<Cause> {
    if es == [] then None
    else
      var e := es[|es| - 1];
      Or(WhyEntry(es[..|es| - 1], table, build, n), if e.line == n then WhyIgnored(e, table, build) else None)
  }

  /** What the first `k` keys that need bridged networking say of line `n`. */
  function WhyBridged(es: seq<Entry>, k: nat, n: nat): Option<Cause>
    requires k <= |BRIDGED_KEYS|
  {
    if k == 0 then None
    else
      var id := BRIDGED_KEYS[k - 1];
      Or(WhyBridged(es, k - 1, n),
         if Mode(es) != "bridged" && LastLine(es, id) == Some(n) then Some(NotBridged(id)) else None)
  }

  /** The first cause to disable line `n`. */
  function Why(c: Config, table: Table, build: nat, n: nat): Option<Cause> {
    Or(Or(WhyProblem(c.problems, n), WhyEntry(c.entries, table, build, n)),
       WhyBridged(c.entries, |BRIDGED_KEYS|, n))
  }

  lemma {:induction false} WhyProblemIff(ps: seq<Problem>, n: nat)
    ensures WhyProblem(ps, n).Some? <==> exists i :: 0 <= i < |ps| && ps[i].line == n
  {
    if ps != [] {
      var before := ps[..|ps| - 1];
      WhyProblemIff(before, n);
      if exists i :: 0 <= i < |before| && before[i].line == n {
        var i :| 0 <= i < |before| && before[i].line == n;
        assert ps[i].line == n;
      }
    }
  }

  lemma {:induction false} WhyEntryIff(es: seq<Entry>, table: Table, build: nat, n: nat)
    ensures WhyEntry(es, table, build, n).Some?
            <==> exists i :: 0 <= i < |es| && es[i].line == n && Ignored(es[i], table, build)
  {
    hide Ignored, WhyIgnored;
    if es != [] {
      var before := es[..|es| - 1];
      WhyEntryIff(before, table, build, n);
      if exists i :: 0 <= i < |before| && before[i].line == n && Ignored(before[i], table, build) {
        var i :| 0 <= i < |before| && before[i].line == n && Ignored(before[i], table, build);
        assert es[i].line == n && Ignored(es[i], table, build);
      }
    }
  }

  lemma {:induction false} WhyBridgedIff(es: seq<Entry>, k: nat, n: nat)
    requires k <= |BRIDGED_KEYS|
    ensures WhyBridged(es, k, n).Some?
            <==> Mode(es) != "bridged" && exists j :: 0 <= j < k && LastLine(es, BRIDGED_KEYS[j]) == Some(n)
  {
    hide Mode, LastLine;
    if k > 0 {
      WhyBridgedIff(es, k - 1, n);
    }
  }

  /** There is a cause just when Lint says the line is ignored. */
  lemma WhyIff(c: Config, table: Table, build: nat, n: nat)
    ensures Why(c, table, build, n).Some? <==> SaidToBeIgnored(c, table, build, n)
  {
    hide WhyProblem, WhyEntry, WhyBridged, Ignored, Mode, LastLine;
    WhyProblemIff(c.problems, n);
    WhyEntryIff(c.entries, table, build, n);
    WhyBridgedIff(c.entries, |BRIDGED_KEYS|, n);
  }

  /** One finding more, on line `line`. */
  method Add(fs: seq<Finding>, line: nat, message: string) returns (out: seq<Finding>)
    ensures forall n: nat :: ReasonFor(out, n) == Or(ReasonFor(fs, n), if n == line then Some(message) else None)
  {
    hide ReasonFor;
    var f := Finding(line, message, true);
    out := fs + [f];
    forall n: nat ensures ReasonFor(out, n) == Or(ReasonFor(fs, n), if n == line then Some(message) else None) {
      ReasonSnoc(fs, f, n);
    }
  }

  method LintProblems(ps: seq<Problem>, say: Wording) returns (out: seq<Finding>)
    ensures forall n: nat :: ReasonFor(out, n) == Told(WhyProblem(ps, n), say)
  {
    out := [];
    for i := 0 to |ps|
      invariant forall n: nat :: ReasonFor(out, n) == Told(WhyProblem(ps[..i], n), say)
    {
      assert ps[..i + 1][..i] == ps[..i];
      out := Add(out, ps[i].line, say(Malformed(ps[i])));
    }
    assert ps[..|ps|] == ps;
  }

  /** What has been seen of the first entries: the line and the value of each id. */
  ghost predicate Remembers(es: seq<Entry>, seen: map<string, nat>, values: map<string, string>) {
    && (forall id :: id in seen <==> LastLine(es, id).Some?)
    && (forall id | id in seen :: LastLine(es, id) == Some(seen[id]))
    && (forall id :: id in values <==> LastWithId(es, id).Some?)
    && (forall id | id in values :: LastWithId(es, id) == Some(values[id]))
  }

  lemma RemembersNext(es: seq<Entry>, i: nat, seen: map<string, nat>, values: map<string, string>)
    requires i < |es| && Remembers(es[..i], seen, values)
    ensures var id := IdOf(es[i]);
            Remembers(es[..i + 1], seen[id := es[i].line], values[id := es[i].value])
  {
    hide IdOf;
    assert es[..i + 1][..i] == es[..i];
  }

  /** The findings about single entries, after those in `before`. */
  method LintEntries(es: seq<Entry>, table: Table, build: nat, say: Wording, before: seq<Finding>)
    returns (out: seq<Finding>, seen: map<string, nat>, values: map<string, string>)
    ensures forall n: nat :: ReasonFor(out, n) == Or(ReasonFor(before, n), Told(WhyEntry(es, table, build, n), say))
    ensures Remembers(es, seen, values)
  {
    hide ReasonFor, Remembers, IdOf, WhyIgnored;
    out, seen, values := before, map[], map[];
    NothingSeen();
    assert es[..0] == [];
    for i := 0 to |es|
      invariant forall n: nat ::
                  ReasonFor(out, n) == Or(ReasonFor(before, n), Told(WhyEntry(es[..i], table, build, n), say))
      invariant Remembers(es[..i], seen, values)
    {
      var e := es[i];
      RemembersNext(es, i, seen, values);
      seen, values := seen[IdOf(e) := e.line], values[IdOf(e) := e.value];
      assert es[..i + 1][..i] == es[..i];
      out := LintEntry(e, table, build, say, out);
    }
    assert es[..|es|] == es;
  }

  lemma NothingSeen()
    ensures Remembers([], map[], map[])
  {
  }

  method LintEntry(e: Entry, table: Table, build: nat, say: Wording, before: seq<Finding>)
    returns (out: seq<Finding>)
    ensures forall n: nat ::
              ReasonFor(out, n)
              == Or(ReasonFor(before, n), Told(if e.line == n then WhyIgnored(e, table, build) else None, say))
  {
    hide ReasonFor;
    out := before;
    if e.section == "" {
      out := Add(out, e.line, say(NoSection(e)));
      return;
    }
    var k := table(e.section, e.key);
    if k.None? {
      out := Add(out, e.line, say(Unknown(e)));
      return;
    }
    if k.value.minBuild > 0 && build > 0 && build < k.value.minBuild {
      out := Add(out, e.line, say(OldWindows(e)));
    }
    if k.value.runtimeTooOld {
      out := Add(out, e.line, say(OldWsl(e)));
    }
  }

  method FirstOf(values: map<string, string>, a: string, b: string) returns (v: string)
    ensures v == if a in values then values[a] else if b in values then values[b] else ""
  {
    v := if a in values then values[a] else if b in values then values[b] else "";
  }

  /** The findings that disable lines. Of several on one line the first counts. */
  method Lint(c: Config, table: Table, build: nat, say: Wording) returns (out: seq<Finding>)
    ensures forall n: nat :: ReasonFor(out, n) == Told(Why(c, table, build, n), say)
    ensures forall n: nat :: Flags(out, n) <==> SaidToBeIgnored(c, table, build, n)
  {
    hide ReasonFor, Flags, SaidToBeIgnored, WhyProblem, WhyEntry, LastLine, LastWithId;
    out := LintProblems(c.problems, say);
    var seen, values;
    out, seen, values := LintEntries(c.entries, table, build, say, out);
    var modeText := FirstOf(values, "wsl2.networkingmode", "experimental.networkingmode");
    var mode := Lower(modeText);
    assert mode == Mode(c.entries);
    ghost var entries := out;
    for i := 0 to |BRIDGED_KEYS|
      invariant forall n: nat :: ReasonFor(out, n) == Or(ReasonFor(entries, n), Told(WhyBridged(c.entries, i, n), say))
    {
      var key := BRIDGED_KEYS[i];
      Same(c.entries, key, seen, values);
      if key in values && mode != "bridged" {
        out := Add(out, seen[key], say(NotBridged(key)));
      }
    }
    forall n: nat ensures Flags(out, n) <==> SaidToBeIgnored(c, table, build, n) {
      WhyIff(c, table, build, n);
      ReasonIff(out, n);
    }
  }

  lemma {:induction false} ReasonIff(fs: seq<Finding>, n: nat)
    ensures ReasonFor(fs, n).Some? <==> Flags(fs, n)
  {
    if fs != [] {
      ReasonIff(fs[1..], n);
      if Flags(fs[1..], n) {
        var i :| 0 <= i < |fs[1..]| && Asks(fs[1..][i], n);
        assert Asks(fs[i + 1], n);
      }
      if Flags(fs, n) && !Asks(fs[0], n) {
        var i :| 0 <= i < |fs| && Asks(fs[i], n);
        assert Asks(fs[1..][i - 1], n);
      }
    }
  }

  /** An id has a line just when it has a value. */
  lemma Same(es: seq<Entry>, id: string, seen: map<string, nat>, values: map<string, string>)
    requires Remembers(es, seen, values)
    ensures id in seen <==> id in values
  {
    BothOrNeither(es, id);
  }

  lemma {:induction false} BothOrNeither(es: seq<Entry>, id: string)
    ensures LastLine(es, id).Some? <==> LastWithId(es, id).Some?
  {
    hide IdOf;
    if es != [] {
      BothOrNeither(es[..|es| - 1], id);
    }
  }

  /** Lint disables only lines that may be disabled. */
  lemma LintIsFair(c: Config, fs: seq<Finding>, table: Table, build: nat)
    requires forall n: nat :: Flags(fs, n) <==> SaidToBeIgnored(c, table, build, n)
    ensures Fair(c, fs)
  {
    forall i | 0 <= i < |fs| && fs[i].commentOut ensures EntryOrProblem(c, fs[i].line) {
      assert Asks(fs[i], fs[i].line) && Flags(fs, fs[i].line);
      if exists k :: 0 <= k < |BRIDGED_KEYS| && LastLine(c.entries, BRIDGED_KEYS[k]) == Some(fs[i].line) {
        var k :| 0 <= k < |BRIDGED_KEYS| && LastLine(c.entries, BRIDGED_KEYS[k]) == Some(fs[i].line);
        LastLineIs(c.entries, BRIDGED_KEYS[k]);
      }
    }
  }

  lemma {:induction false} LastLineIs(es: seq<Entry>, id: string)
    ensures LastLine(es, id).Some? ==> exists i :: 0 <= i < |es| && es[i].line == LastLine(es, id).value
  {
    hide IdOf;
    if es != [] {
      LastLineIs(es[..|es| - 1], id);
    }
  }

  /** Lint and CommentOut together: the file with the ignored lines disabled says what it said without
      them. */
  method FixLines(lines: seq<string>, table: Table, build: nat, say: Wording)
    returns (out: seq<string>, fs: seq<Finding>)
    ensures forall n: nat :: ReasonFor(fs, n) == Told(Why(Parsed(lines), table, build, n), say)
    ensures Fair(Parsed(lines), fs)
    ensures forall n: nat :: Flags(fs, n) <==> SaidToBeIgnored(Parsed(lines), table, build, n)
    ensures out == Disabled(lines, 1, fs)
    ensures var c, d := Parsed(lines), Parsed(out);
            && Meanings(d.entries) == Kept(c.entries, fs)
            && d.sections == c.sections
            && forall section, key :: Untouched(c.entries, fs, section, key) ==>
                 LastValue(d.entries, section, key) == LastValue(c.entries, section, key)
  {
    var c := ParseLines(lines);
    hide Parsed, Flags, SaidToBeIgnored, ReasonFor, Why;
    fs := Lint(c, table, build, say);
    LintIsFair(c, fs, table, build);
    CommentOutKeepsMeaning(lines, fs);
    assert c.lines == lines by { ParsedLines(lines); }
    out := CommentOut(c, fs);
  }

  lemma ParsedLines(lines: seq<string>)
    ensures Parsed(lines).lines == lines
  {
  }
}
