/** The .wslconfig file as text: how it is cut into lines, and how the lines are put together again
    (internal/wslconfig/wslconfig.go, internal/fix/actions/wslconfig.go). */
module WslConfigFile {
  import opened Text
  import opened WslConfig
  import WslOut

  /* ---- from text to lines ---- */

  /** The line scanner gives up at a line of this many bytes. */
  const MEBIBYTE: nat := 0x10_0000

  function Width(c: char): nat {
    if c < '\U{80}' then 1 else if c < '\U{800}' then 2 else if c < '\U{10000}' then 3 else 4
  }

  /** The length in UTF-8. */
  function Bytes(s: string): nat {
    if s == "" then 0 else Width(s[0]) + Bytes(s[1..])
  }

  function CodePoints(s: string): (rs: seq<int>)
    ensures |rs| == |s| && WslOut.IsText(rs)
  {
    if s == "" then [] else [s[0] as int] + CodePoints(s[1..])
  }

  /** It is the number of bytes of the encoding. */
  lemma {:induction false} BytesAreUtf8(s: string)
    ensures Bytes(s) == |WslOut.Utf8(CodePoints(s))|
  {
    if s != "" {
      assert CodePoints(s)[1..] == CodePoints(s[1..]);
      BytesAreUtf8(s[1..]);
    }
  }

  lemma {:induction false} BytesAppend(a: string, b: string)
    ensures Bytes(a + b) == Bytes(a) + Bytes(b)
  {
    hide Width;
    if a == "" {
      assert a + b == b;
    } else {
      assert (a + b)[1..] == a[1..] + b;
      BytesAppend(a[1..], b);
    }
  }

  function Chomp(s: string): string {
    if EndsWith(s, '\r') then s[..|s| - 1] else s
  }

  /** What lies between the line feeds; nothing after the last of them is no line. */
  function Pieces(text: string): seq<string> {
    var ps := SplitOn(text, '\n');
    if ps[|ps| - 1] == "" then ps[..|ps| - 1] else ps
  }

  function Read(ps: seq<string>): seq<string> {
    if ps == [] || Bytes(ps[0]) >= MEBIBYTE then [] else [Chomp(ps[0])] + Read(ps[1..])
  }

  function Scanned(text: string): seq<string> {
    Read(Pieces(text))
  }

  lemma PiecesStep(text: string)
    requires text != ""
    ensures var feed := IndexOf(text, '\n');
            Pieces(text) == if feed.None? then [text]
                            else [text[..feed.value]] + Pieces(text[feed.value + 1..])
  {
    var feed := IndexOf(text, '\n');
    if feed.None? {
      SplitNone(text, '\n');
    } else {
      var a, rest := text[..feed.value], text[feed.value + 1..];
      assert text == a + ['\n'] + rest;
      SplitFirst(a, '\n', rest);
      var ps := SplitOn(rest, '\n');
      assert ([a] + ps)[..|ps|] == [a] + ps[..|ps| - 1];
    }
  }

  lemma ScannedStep(text: string)
    requires text != ""
    ensures var feed := IndexOf(text, '\n');
            var raw := if feed.None? then text else text[..feed.value];
            var rest := if feed.None? then "" else text[feed.value + 1..];
            |rest| < |text|
            && Scanned(text) == if Bytes(raw) >= MEBIBYTE then [] else [Chomp(raw)] + Scanned(rest)
  {
    hide IndexOf, Bytes, SplitOn, Pieces, Chomp;
    PiecesStep(text);
    NoPieces();
    var feed := IndexOf(text, '\n');
    var raw := if feed.None? then text else text[..feed.value];
    var rest := if feed.None? then "" else text[feed.value + 1..];
    assert Pieces(text) == [raw] + Pieces(rest);
    assert Pieces(text)[1..] == Pieces(rest);
  }

  method Scan(text: string) returns (lines: seq<string>)
    ensures lines == Scanned(text)
  {
    hide IndexOf, Bytes, Scanned, Chomp;
    lines := [];
    var rest := text;
    while rest != ""
      invariant Scanned(text) == lines + Scanned(rest)
      decreases |rest|
    {
      ScannedStep(rest);
      var feed := IndexOf(rest, '\n');
      var raw := if feed.None? then rest else rest[..feed.value];
      if Bytes(raw) >= MEBIBYTE {
        return;
      }
      lines := lines + [Chomp(raw)];
      rest := if feed.None? then "" else rest[feed.value + 1..];
    }
    NoPieces();
  }

  lemma NoPieces()
    ensures Pieces("") == [] && Scanned("") == []
  {
  }

  /** Every line up to the first that is too long. */
  method Parse(text: string) returns (c: Config)
    ensures c == Parsed(Scanned(text))
  {
    hide Parsed, Scanned;
    var lines := Scan(text);
    c := ParseLines(lines);
  }

  /* ---- from lines to text ---- */

  function JoinLines(lines: seq<string>, nl: string): string {
    if lines == [] then ""
    else if |lines| == 1 then lines[0]
    else lines[0] + nl + JoinLines(lines[1..], nl)
  }

  /** New lines for a file, with its line ends; a last line that was ended is ended again. */
  function Rewritten(text: string, lines: seq<string>): string {
    var nl := if Find(text, "\r\n").Some? then "\r\n" else "\n";
    var content := JoinLines(lines, nl);
    if EndsWith(text, '\n') && !EndsWith(content, '\n') then content + nl else content
  }

  lemma {:induction false} JoinedEnd(lines: seq<string>, nl: string)
    requires lines != [] && lines[|lines| - 1] != ""
    ensures EndsWith(JoinLines(lines, nl), '\n') <==> EndsWith(lines[|lines| - 1], '\n')
    ensures JoinLines(lines, nl) != ""
  {
    if |lines| > 1 {
      var rest := JoinLines(lines[1..], nl);
      JoinedEnd(lines[1..], nl);
      assert JoinLines(lines, nl)[|JoinLines(lines, nl)| - 1] == rest[|rest| - 1];
    }
  }

  /** The last line is ended if it was; it is not if it was not, unless it is blank. */
  lemma EndedAsBefore(text: string, lines: seq<string>)
    requires NoBreaks(lines)
    ensures EndsWith(text, '\n') ==> EndsWith(Rewritten(text, lines), '\n')
    ensures lines != [] && lines[|lines| - 1] != "" ==>
              (EndsWith(text, '\n') <==> EndsWith(Rewritten(text, lines), '\n'))
  {
    hide Find;
    var nl := if Find(text, "\r\n").Some? then "\r\n" else "\n";
    var content := JoinLines(lines, nl);
    assert (content + nl)[|content + nl| - 1] == '\n';
    if lines != [] && lines[|lines| - 1] != "" {
      JoinedEnd(lines, nl);
      assert lines[|lines| - 1] in lines;
    }
  }

  /* ---- what depends on the lines ---- */

  /** What the lines say that say anything. */
  function Saying(lines: seq<string>): seq<Line> {
    if lines == [] then []
    else (if Classify(lines[0]).Nothing? then [] else [Classify(lines[0])]) + Saying(lines[1..])
  }

  lemma {:induction false} SayingAppend(a: seq<string>, b: seq<string>)
    ensures Saying(a + b) == Saying(a) + Saying(b)
  {
    hide Classify;
    if a == [] {
      assert a + b == b;
    } else {
      assert (a + b)[1..] == a[1..] + b;
      SayingAppend(a[1..], b);
    }
  }

  /** A setting, wherever it is written. */
  datatype Setting = Setting(section: string, key: string, value: string)

  function Settings(es: seq<Entry>): seq<Setting> {
    seq(|es|, i requires 0 <= i < |es| => Setting(es[i].section, es[i].key, es[i].value))
  }

  function SettingsOf(ms: seq<Meaning>): seq<Setting> {
    seq(|ms|, i requires 0 <= i < |ms| => Setting(ms[i].section, ms[i].key, ms[i].value))
  }

  function SettingsFrom(ls: seq<Line>, section: string): seq<Setting> {
    if ls == [] then []
    else (if ls[0].KeyValue? then [Setting(section, ls[0].key, ls[0].value)] else [])
         + SettingsFrom(ls[1..], Under(section, ls[0]))
  }

  function SectionsFrom(ls: seq<Line>, seen: seq<string>): seq<string> {
    if ls == [] then seen else SectionsFrom(ls[1..], SeenAfter(ls[0], seen))
  }

  lemma SettingsAppend(a: seq<Entry>, b: seq<Entry>)
    ensures Settings(a + b) == Settings(a) + Settings(b)
  {
  }

  lemma SaidFirst(l: Line, ls: seq<Line>, section: string, seen: seq<string>)
    ensures var all := (if l.Nothing? then [] else [l]) + ls;
            && SettingsFrom(all, section)
               == (if l.KeyValue? then [Setting(section, l.key, l.value)] else []) + SettingsFrom(ls, Under(section, l))
            && SectionsFrom(all, seen) == SectionsFrom(ls, SeenAfter(l, seen))
  {
    assert [] + ls == ls && ([l] + ls)[1..] == ls;
  }

  lemma SettingsHere(l: Line, section: string, n: nat, raw: string)
    ensures Settings(EntryHere(l, section, n, raw)) == if l.KeyValue? then [Setting(section, l.key, l.value)] else []
  {
  }

  lemma {:induction false} SettingsAreSaid(lines: seq<string>, n: nat, section: string)
    ensures Settings(EntriesOf(lines, n, section)) == SettingsFrom(Saying(lines), section)
    decreases lines
  {
    hide Classify, Settings, EntryHere, SettingsFrom, Under;
    if lines == [] {
      NoSettings(section);
    } else {
      var l, rest := Classify(lines[0]), lines[1..];
      var es := EntriesOf(rest, n + 1, Under(section, l));
      SettingsAreSaid(rest, n + 1, Under(section, l));
      SettingsHere(l, section, n, lines[0]);
      SettingsAppend(EntryHere(l, section, n, lines[0]), es);
      SaidFirst(l, Saying(rest), section, []);
    }
  }

  lemma NoSettings(section: string)
    ensures Settings([]) == [] && SettingsFrom([], section) == []
  {
  }

  lemma {:induction false} SectionsAreSaid(lines: seq<string>, seen: seq<string>)
    ensures SectionsOf(lines, seen) == SectionsFrom(Saying(lines), seen)
    decreases lines
  {
    if lines != [] {
      var l := Classify(lines[0]);
      hide Classify, SeenAfter;
      SectionsAreSaid(lines[1..], SeenAfter(l, seen));
      SaidFirst(l, Saying(lines[1..]), "", seen);
    }
  }

  lemma {:induction false} SameLast(a: seq<Entry>, b: seq<Entry>, section: string, key: string)
    requires Settings(a) == Settings(b)
    ensures LastValue(a, section, key) == LastValue(b, section, key)
  {
    hide EqualFold;
    assert |a| == |Settings(a)| == |Settings(b)| == |b|;
    if a != [] {
      var k := |a| - 1;
      assert Settings(a)[k] == Settings(b)[k];
      assert Settings(a[..k]) == Settings(a)[..k] && Settings(b[..k]) == Settings(b)[..k];
      SameLast(a[..k], b[..k], section, key);
    }
  }

  /** Two files that say the same. */
  ghost predicate SaysTheSame(c: Config, d: Config) {
    && Settings(c.entries) == Settings(d.entries) && c.sections == d.sections
    && forall section, key :: LastValue(c.entries, section, key) == LastValue(d.entries, section, key)
  }

  lemma SayingIsAll(a: seq<string>, b: seq<string>)
    requires Saying(a) == Saying(b)
    ensures SaysTheSame(Parsed(a), Parsed(b))
  {
    hide Classify, Settings, LastValue, SectionsOf, EntriesOf;
    var c, d := Parsed(a), Parsed(b);
    SettingsAreSaid(a, 1, "");
    SettingsAreSaid(b, 1, "");
    SectionsAreSaid(a, []);
    SectionsAreSaid(b, []);
    forall section, key ensures LastValue(c.entries, section, key) == LastValue(d.entries, section, key) {
      SameLast(c.entries, d.entries, section, key);
    }
  }

  /* ---- a line end says nothing ---- */

  lemma {:induction false} TrimLeftEnd(s: string)
    ensures TrimLeft(s + "\r") == if TrimLeft(s) == "" then "" else TrimLeft(s) + "\r"
  {
    var t := s + "\r";
    if s == "" {
      assert t[1..] == "" && TrimLeft(t[1..]) == "";
    } else if IsSpace(s[0]) {
      assert t[1..] == s[1..] + "\r" && t[0] == s[0];
      TrimLeftEnd(s[1..]);
    }
  }

  lemma TrimEnd(s: string)
    ensures TrimSpace(s + "\r") == TrimSpace(s)
  {
    TrimLeftEnd(s);
    var t := TrimLeft(s) + "\r";
    assert t[..|t| - 1] == TrimLeft(s);
  }

  lemma SameTrimmed(a: string, b: string)
    requires TrimSpace(a) == TrimSpace(b)
    ensures Classify(a) == Classify(b)
  {
    hide TrimSpace, IndexOf, Lower, Find, TrimQuotesLeft, TrimQuotesRight;
  }

  lemma EndSaysNothing(s: string)
    ensures Classify(s + "\r") == Classify(s) && Classify(Chomp(s)) == Classify(s)
    ensures Saying([s + "\r"]) == Saying([s]) && Saying([""]) == []
  {
    NothingSaid();
    TrimEnd(s);
    SameTrimmed(s + "\r", s);
    if EndsWith(s, '\r') {
      assert Chomp(s) + "\r" == s;
      TrimEnd(Chomp(s));
      SameTrimmed(Chomp(s), s);
    }
    hide Classify, TrimSpace;
    SayingOne(s);
    SayingOne(s + "\r");
  }

  lemma SayingOne(s: string)
    ensures Saying([s]) == if Classify(s).Nothing? then [] else [Classify(s)]
  {
    hide Classify;
    assert [s][1..] == [];
  }

  lemma NothingSaid()
    ensures Saying([""]) == []
  {
    assert TrimSpace("") == "";
    SayingOne("");
  }

  /* ---- reading what was written ---- */

  predicate NoBreaks(lines: seq<string>) {
    forall l | l in lines :: '\n' !in l
  }

  /** The pieces between the line feeds of joined lines: each with the rest of its line end. */
  function Ended(lines: seq<string>, cr: string, ended: bool): seq<string> {
    if lines == [] then []
    else [lines[0] + if |lines| > 1 || ended then cr else ""] + Ended(lines[1..], cr, ended)
  }

  lemma {:induction false} SplitJoined(lines: seq<string>, crlf: bool, ended: bool)
    requires lines != [] && NoBreaks(lines)
    ensures var nl, cr := if crlf then "\r\n" else "\n", if crlf then "\r" else "";
            SplitOn(JoinLines(lines, nl) + if ended then nl else "", '\n')
            == Ended(lines, cr, ended) + if ended then [""] else []
  {
    hide SplitOn, IndexOf;
    var nl, cr := if crlf then "\r\n" else "\n", if crlf then "\r" else "";
    var x, end := lines[0], if ended then nl else "";
    assert x in lines;
    if |lines| == 1 {
      SplitNone(x, '\n');
      SplitNone("", '\n');
      SplitFirst(x + cr, '\n', "");
      assert x + "" == x && x + nl == (x + cr) + ['\n'] + "";
    } else {
      SplitJoined(lines[1..], crlf, ended);
      assert JoinLines(lines, nl) + end == (x + cr) + ['\n'] + (JoinLines(lines[1..], nl) + end);
      SplitFirst(x + cr, '\n', JoinLines(lines[1..], nl) + end);
    }
  }

  lemma {:induction false} EndedLast(lines: seq<string>, cr: string, ended: bool)
    requires lines != []
    ensures var a, b, k := Ended(lines, cr, ended), Ended(lines, cr, false), |lines| - 1;
            |a| == |b| == |lines| && a[..k] == b[..k] && b[k] == lines[k] && (a[k] == b[k] || a[k] == b[k] + cr)
  {
    if |lines| > 1 {
      var rest := lines[1..];
      EndedLast(rest, cr, ended);
      var first := lines[0] + cr;
      var a, b := Ended(rest, cr, ended), Ended(rest, cr, false);
      assert Ended(lines, cr, ended) == [first] + a && Ended(lines, cr, false) == [first] + b;
      assert ([first] + a)[..|rest|] == [first] + a[..|rest| - 1];
      assert ([first] + b)[..|rest|] == [first] + b[..|rest| - 1];
    } else {
      assert lines[1..] == [] && lines[0] + "" == lines[0];
    }
  }

  function EndOf(text: string): string {
    if Find(text, "\r\n").Some? then "\r" else ""
  }

  /** What the scanner cuts the new text into; a blank last line may be missing. */
  lemma PiecesAre(text: string, lines: seq<string>)
    requires lines != [] && NoBreaks(lines)
    ensures var ps, es := Pieces(Rewritten(text, lines)), Ended(lines, EndOf(text), EndsWith(text, '\n'));
            |es| == |lines| && (ps == es || (lines[|lines| - 1] == "" && ps == es[..|lines| - 1]))
  {
    hide SplitOn, IndexOf, Find, JoinLines, Ended;
    var crlf, ended, k := Find(text, "\r\n").Some?, EndsWith(text, '\n'), |lines| - 1;
    var nl := if crlf then "\r\n" else "\n";
    var joined := JoinLines(lines, nl);
    SplitJoined(lines, crlf, true);
    SplitJoined(lines, crlf, false);
    EndedLast(lines, EndOf(text), ended);
    assert lines[k] in lines;
    if lines[k] != "" {
      JoinedEnd(lines, nl);
    }
    assert joined + "" == joined;
    var open, closed := Ended(lines, EndOf(text), false), Ended(lines, EndOf(text), true);
    assert (closed + [""])[..|closed|] == closed && open + [] == open;
  }

  lemma {:induction false} ReadSnoc(ps: seq<string>, last: string)
    ensures Read(ps + [last]) == Read(ps) || Read(ps + [last]) == Read(ps) + [Chomp(last)]
  {
    hide Bytes, Chomp;
    if ps == [] {
      assert ps + [last] == [last] && [last][1..] == [];
    } else {
      assert (ps + [last])[1..] == ps[1..] + [last];
      ReadSnoc(ps[1..], last);
    }
  }

  /** How many bytes the end of a line counts for: the scanner looks at the line without its line feed. */
  function Tail(count: nat, crlf: bool, ended: bool): nat {
    if crlf && (count > 1 || ended) then 1 else 0
  }

  /** How many of the lines are read back: those before the first of a mebibyte, its end counted. */
  function ReadBack(lines: seq<string>, crlf: bool, ended: bool): (k: nat)
    ensures k <= |lines|
  {
    if lines == [] || Bytes(lines[0]) + Tail(|lines|, crlf, ended) >= MEBIBYTE then 0
    else 1 + ReadBack(lines[1..], crlf, ended)
  }

  lemma {:induction false} ReadBackIsFirst(lines: seq<string>, crlf: bool, ended: bool)
    ensures var k := ReadBack(lines, crlf, ended);
            && (forall i :: 0 <= i < k ==> Bytes(lines[i]) + Tail(|lines| - i, crlf, ended) < MEBIBYTE)
            && (k < |lines| ==> Bytes(lines[k]) + Tail(|lines| - k, crlf, ended) >= MEBIBYTE)
  {
    hide Bytes, Tail;
    if ReadBack(lines, crlf, ended) > 0 {
      var rest := lines[1..];
      ReadBackIsFirst(rest, crlf, ended);
      forall i | 0 <= i < ReadBack(lines, crlf, ended)
        ensures Bytes(lines[i]) + Tail(|lines| - i, crlf, ended) < MEBIBYTE
      {
        assert i > 0 ==> rest[i - 1] == lines[i];
      }
    }
  }

  lemma EndBytes(x: string, crlf: bool, count: nat, ended: bool)
    ensures var cr := if crlf then "\r" else "";
            Bytes(x + if count > 1 || ended then cr else "") == Bytes(x) + Tail(count, crlf, ended)
  {
    BytesAppend(x, "\r");
    assert x + "" == x && "\r"[1..] == "";
  }

  lemma {:induction false} EndedSays(lines: seq<string>, crlf: bool, ended: bool)
    ensures var rs, k := Read(Ended(lines, if crlf then "\r" else "", ended)), ReadBack(lines, crlf, ended);
            |rs| == k && Saying(rs) == Saying(lines[..k])
  {
    hide Classify, Bytes, Tail, Saying, Chomp;
    var cr := if crlf then "\r" else "";
    if lines == [] {
    } else {
      var x, rest := lines[0], lines[1..];
      var p, es := x + (if |lines| > 1 || ended then cr else ""), Ended(rest, cr, ended);
      EndBytes(x, crlf, |lines|, ended);
      EndedSays(rest, crlf, ended);
      assert ([p] + es)[1..] == es;
      var k := ReadBack(lines, crlf, ended);
      if k > 0 {
        assert lines[..k] == [x] + rest[..k - 1];
        SayingAppend([Chomp(p)], Read(es));
        SayingAppend([x], rest[..k - 1]);
        ChompedSays(x, p);
      }
    }
  }

  lemma ChompedSays(x: string, p: string)
    requires p == x || p == x + "\r" || p == x + ""
    ensures Saying([Chomp(p)]) == Saying([x])
  {
    hide Classify, Saying;
    EndSaysNothing(x);
    assert x + "" == x;
    if p == x + "\r" {
      assert p[..|p| - 1] == x;
    } else {
      ChompSays(x);
    }
  }

  lemma ChompSays(x: string)
    ensures Saying([Chomp(x)]) == Saying([x])
  {
    EndSaysNothing(x);
    hide Classify, Chomp;
    SayingOne(x);
    SayingOne(Chomp(x));
  }

  /** Lines written to a file are read again up to the first that is too long, and say what they said. */
  lemma RewrittenReads(text: string, lines: seq<string>)
    requires NoBreaks(lines)
    ensures var rs, k := Scanned(Rewritten(text, lines)), ReadBack(lines, EndOf(text) != "", EndsWith(text, '\n'));
            (lines != [] ==> |rs| <= k) && Saying(rs) == Saying(lines[..k])
  {
    hide Classify, Bytes, Tail, Saying, Chomp, Pieces, Find, JoinLines;
    if lines == [] {
      NothingWritten(text);
    } else {
      hide Rewritten;
      var crlf, ended, cr := EndOf(text) != "", EndsWith(text, '\n'), EndOf(text);
      var es := Ended(lines, cr, ended);
      EndedSays(lines, crlf, ended);
      PiecesAre(text, lines);
      var ps := Pieces(Rewritten(text, lines));
      if ps != es {
        var last := es[|es| - 1];
        assert es == ps + [last];
        EndedLast(lines, cr, ended);
        ReadSnoc(ps, last);
        BlankLast(Read(ps), last);
      }
    }
  }

  lemma BlankLast(a: seq<string>, last: string)
    requires last == "" || last == "\r" || last == "" + ""
    ensures Saying(a + [Chomp(last)]) == Saying(a)
  {
    hide Classify, Saying;
    assert Chomp(last) == "" by { assert last == "\r" ==> last[..0] == ""; }
    EndSaysNothing("");
    SayingAppend(a, [""]);
  }

  lemma NothingWritten(text: string)
    ensures Saying(Scanned(Rewritten(text, []))) == [] && Saying([]) == []
  {
  }

  /** So the new file says what its lines say that come before the first that is too long. */
  lemma RewrittenSays(text: string, lines: seq<string>)
    requires NoBreaks(lines)
    ensures var k := ReadBack(lines, EndOf(text) != "", EndsWith(text, '\n'));
            SaysTheSame(Parsed(Scanned(Rewritten(text, lines))), Parsed(lines[..k]))
  {
    hide Classify, Scanned, Parsed, SaysTheSame, Saying, ReadBack, Rewritten;
    RewrittenReads(text, lines);
    SayingIsAll(Scanned(Rewritten(text, lines)), lines[..ReadBack(lines, EndOf(text) != "", EndsWith(text, '\n'))]);
  }

  /** No reason holds a line break. */
  ghost predicate OneLiners(fs: seq<Finding>) {
    forall n: nat :: ReasonFor(fs, n).Some? ==> '\n' !in ReasonFor(fs, n).value
  }

  lemma {:induction false} DisabledHasNoBreak(lines: seq<string>, n: nat, fs: seq<Finding>)
    requires NoBreaks(lines) && OneLiners(fs)
    ensures NoBreaks(Disabled(lines, n, fs))
    decreases lines
  {
    hide ReasonFor, TrimSpace;
    if lines != [] {
      DisabledHasNoBreak(lines[1..], n + 1, fs);
      assert lines[0] in lines;
    }
  }

  lemma {:induction false} ReadHasNoBreak(ps: seq<string>)
    requires NoBreaks(ps)
    ensures NoBreaks(Read(ps))
  {
    hide Bytes;
    if ps != [] {
      assert ps[0] in ps;
      ReadHasNoBreak(ps[1..]);
    }
  }

  lemma ScannedHasNoBreak(text: string)
    ensures NoBreaks(Scanned(text))
  {
    hide Read;
    SplitParts(text, '\n', '\n');
    ReadHasNoBreak(Pieces(text));
  }

  /* ---- what is left of a file with disabled lines ---- */

  /** Line `i` stays as it is. */
  predicate Stays(lines: seq<string>, n: nat, fs: seq<Finding>, i: nat)
    requires i < |lines|
  {
    ReasonFor(fs, n + i).None? || StartsWith(TrimSpace(lines[i]), '#')
  }

  /** What becomes of line `i` cannot be read back: the line is too long with its end, or it is with
      the two characters put before it, or the comment with the reason is. */
  predicate GrowsTooLong(lines: seq<string>, n: nat, fs: seq<Finding>, crlf: bool, ended: bool, i: nat)
    requires i < |lines|
  {
    var tail := Tail(|lines| - i, crlf, ended);
    if Stays(lines, n, fs, i) then Bytes(lines[i]) + tail >= MEBIBYTE
    else
      || Bytes(ReasonFor(fs, n + i).value) + 9 + Tail(2, crlf, ended) >= MEBIBYTE
      || Bytes(lines[i]) + 2 + tail >= MEBIBYTE
  }

  /** How many of the lines are read back with those disabled that a finding asks for. */
  function Fitting(lines: seq<string>, n: nat, fs: seq<Finding>, crlf: bool, ended: bool): (m: nat)
    ensures m <= |lines|
    decreases lines
  {
    if lines == [] || GrowsTooLong(lines, n, fs, crlf, ended, 0) then 0
    else 1 + Fitting(lines[1..], n + 1, fs, crlf, ended)
  }

  /** They are those before the first that grows too long. */
  lemma {:induction false} FittingIsFirst(lines: seq<string>, n: nat, fs: seq<Finding>, crlf: bool, ended: bool)
    ensures var m := Fitting(lines, n, fs, crlf, ended);
            && (forall i: nat :: i < m ==> !GrowsTooLong(lines, n, fs, crlf, ended, i))
            && (m < |lines| ==> GrowsTooLong(lines, n, fs, crlf, ended, m))
    decreases lines
  {
    hide GrowsTooLong;
    var m := Fitting(lines, n, fs, crlf, ended);
    if m > 0 {
      FittingIsFirst(lines[1..], n + 1, fs, crlf, ended);
      forall i: nat | i < m ensures !GrowsTooLong(lines, n, fs, crlf, ended, i) {
        if i > 0 {
          GrowsAlike(lines, n, fs, crlf, ended, i - 1);
        }
      }
      if m < |lines| {
        GrowsAlike(lines, n, fs, crlf, ended, m - 1);
      }
    }
  }

  lemma GrowsAlike(lines: seq<string>, n: nat, fs: seq<Finding>, crlf: bool, ended: bool, i: nat)
    requires i + 1 < |lines|
    ensures GrowsTooLong(lines, n, fs, crlf, ended, i + 1) == GrowsTooLong(lines[1..], n + 1, fs, crlf, ended, i)
  {
    hide Bytes, ReasonFor, TrimSpace;
  }

  lemma CommentBytes(reason: string, line: string)
    ensures Bytes("# wslkit:" + reason) == 9 + Bytes(reason) && Bytes("# " + line) == 2 + Bytes(line)
  {
    BytesAppend("# wslkit:", reason);
    BytesAppend("# ", line);
    MarkBytes();
    HashBytes();
  }

  lemma MarkBytes()
    ensures Bytes("# wslkit:") == 9
  {
    BytesOfPlain("# wslkit:");
  }

  lemma HashBytes()
    ensures Bytes("# ") == 2
  {
    BytesOfPlain("# ");
  }

  lemma {:induction false} BytesOfPlain(s: string)
    requires forall i :: 0 <= i < |s| ==> s[i] < '\U{80}'
    ensures Bytes(s) == |s|
  {
    if s != "" {
      BytesOfPlain(s[1..]);
    }
  }

  lemma CommentsSay(reason: string, line: string)
    ensures Saying(["# wslkit:" + reason]) == [] && Saying(["# " + line]) == []
  {
    CommentedOut(line, reason);
    CommentIsNothing("# wslkit:" + reason);
    CommentIsNothing("# " + line);
    hide Classify;
    SayingOne("# wslkit:" + reason);
    SayingOne("# " + line);
  }

  /** What is read of one line that was written, and of what follows it. */
  lemma OneReadBack(l: string, n: nat, fs: seq<Finding>, rest: seq<string>, crlf: bool, ended: bool)
    ensures var one := OneDisabled(l, n, fs);
            var k := ReadBack(one + rest, crlf, ended);
            Saying((one + rest)[..k])
            == if GrowsTooLong([l] + rest, n, fs, crlf, ended, 0) then []
               else Saying(one) + Saying(rest[..ReadBack(rest, crlf, ended)])
  {
    hide Bytes, ReasonFor, TrimSpace, Saying, Classify, Tail, ReadBack;
    var one := OneDisabled(l, n, fs);
    var out := one + rest;
    var k, j := ReadBack(out, crlf, ended), ReadBack(rest, crlf, ended);
    assert ([l] + rest)[0] == l;
    if |one| == 1 {
      FirstReadBack(l, rest, crlf, ended);
      SayingAppend([l], rest[..j]);
    } else {
      var a, b := one[0], one[1];
      var reason := ReasonFor(fs, n).value;
      CommentBytes(reason, l);
      CommentsSay(reason, l);
      assert out == [a] + ([b] + rest) && one == [a] + [b];
      FirstReadBack(a, [b] + rest, crlf, ended);
      FirstReadBack(b, rest, crlf, ended);
      SayingAppend([a], [b]);
      SayingAppend([a], ([b] + rest)[..ReadBack([b] + rest, crlf, ended)]);
      SayingAppend([b], rest[..j]);
      TailOfMany(|out|, crlf, ended);
    }
  }

  lemma TailOfMany(count: nat, crlf: bool, ended: bool)
    requires count > 1
    ensures Tail(count, crlf, ended) == Tail(2, crlf, ended)
  {
  }

  lemma FirstReadBack(x: string, rest: seq<string>, crlf: bool, ended: bool)
    ensures var j, k := ReadBack(rest, crlf, ended), ReadBack([x] + rest, crlf, ended);
            && ([x] + rest)[..k]
               == (if Bytes(x) + Tail(1 + |rest|, crlf, ended) >= MEBIBYTE then [] else [x] + rest[..j])
            && Saying([]) == []
  {
    hide Bytes, Tail;
    assert ([x] + rest)[1..] == rest;
  }

  /** What is read back of a file with disabled lines is what the lines that fit say without them. */
  lemma {:induction false} DisabledReads(lines: seq<string>, n: nat, fs: seq<Finding>, crlf: bool, ended: bool)
    ensures var out, m := Disabled(lines, n, fs), Fitting(lines, n, fs, crlf, ended);
            Saying(out[..ReadBack(out, crlf, ended)]) == Saying(Disabled(lines[..m], n, fs))
    decreases lines
  {
    hide Bytes, ReasonFor, TrimSpace, Classify, Tail, ReadBack, Saying, GrowsTooLong, OneDisabled, Disabled;
    var m := Fitting(lines, n, fs, crlf, ended);
    if lines == [] {
      assert lines[..0] == [] && Disabled([], n, fs) == [] by { NoneDisabled(n, fs, n, ""); }
    } else {
      var l, rest := lines[0], lines[1..];
      var out := Disabled(rest, n + 1, fs);
      FirstDisabled(lines, n, fs, "");
      OneReadBack(l, n, fs, out, crlf, ended);
      SameGrowth(lines, n, fs, crlf, ended);
      if m == 0 {
        assert lines[..0] == [];
        NoneDisabled(n, fs, n, "");
        assert Saying([]) == [] by { FirstReadBack("", [], crlf, ended); }
      } else {
        DisabledReads(rest, n + 1, fs, crlf, ended);
        assert lines[..m] == [l] + rest[..m - 1] && lines[..m][1..] == rest[..m - 1];
        FirstDisabled(lines[..m], n, fs, "");
        SayingAppend(OneDisabled(l, n, fs), Disabled(rest[..m - 1], n + 1, fs));
      }
    }
  }

  /** Whether the first line grows too long depends on how many follow, none or some. */
  lemma SameGrowth(lines: seq<string>, n: nat, fs: seq<Finding>, crlf: bool, ended: bool)
    requires lines != []
    ensures var out := Disabled(lines[1..], n + 1, fs);
            GrowsTooLong(lines, n, fs, crlf, ended, 0) == GrowsTooLong([lines[0]] + out, n, fs, crlf, ended, 0)
  {
    var rest := lines[1..];
    if rest != [] {
      FirstDisabled(rest, n + 1, fs, "");
    }
    hide Bytes, ReasonFor, TrimSpace;
  }

  lemma {:induction false} EntriesSplit(lines: seq<string>, m: nat, n: nat, section: string) returns (under: string)
    requires m <= |lines|
    ensures EntriesOf(lines, n, section) == EntriesOf(lines[..m], n, section) + EntriesOf(lines[m..], n + m, under)
  {
    hide Classify, EntryHere, Under;
    if m == 0 {
      under := section;
      assert lines[..0] == [] && lines[0..] == lines;
    } else {
      under := EntriesSplit(lines[1..], m - 1, n + 1, Under(section, Classify(lines[0])));
      assert lines[..m][1..] == lines[1..][..m - 1] && lines[1..][m - 1..] == lines[m..];
    }
  }

  lemma {:induction false} SectionsSplit(lines: seq<string>, m: nat, seen: seq<string>)
    requires m <= |lines|
    ensures SectionsOf(lines, seen) == SectionsOf(lines[m..], SectionsOf(lines[..m], seen))
  {
    hide Classify, SeenAfter;
    if m == 0 {
      assert lines[..0] == [] && lines[0..] == lines;
    } else {
      SectionsSplit(lines[1..], m - 1, SeenAfter(Classify(lines[0]), seen));
      assert lines[..m][1..] == lines[1..][..m - 1] && lines[1..][m - 1..] == lines[m..];
    }
  }

  lemma {:induction false} SectionsGrow(lines: seq<string>, seen: seq<string>)
    ensures seen <= SectionsOf(lines, seen)
    ensures SectionsOf(lines, seen) == seen
            <==> forall i :: 0 <= i < |lines| && Classify(lines[i]).Header? ==> Classify(lines[i]).section in seen
    decreases lines
  {
    hide Classify;
    if lines != [] {
      var rest, after := lines[1..], SeenAfter(Classify(lines[0]), seen);
      SectionsGrow(rest, after);
      forall i | 1 <= i < |lines| ensures lines[i] == rest[i - 1] {
      }
      forall i | 0 <= i < |rest| ensures rest[i] == lines[i + 1] {
      }
    }
  }

  /** Every line with a setting is disabled. */
  predicate NoneStays(lines: seq<string>, n: nat, fs: seq<Finding>) {
    forall i :: 0 <= i < |lines| && Classify(lines[i]).KeyValue? ==> ReasonFor(fs, n + i).Some?
  }

  lemma {:induction false} NoneKept(lines: seq<string>, n: nat, section: string, fs: seq<Finding>)
    ensures Kept(EntriesOf(lines, n, section), fs) == [] <==> NoneStays(lines, n, fs)
    decreases lines
  {
    hide Classify, ReasonFor, NoneStays, EntryHere;
    if lines == [] {
      NoneDisabled(n, fs, n, section);
      assert NoneStays(lines, n, fs) by { NothingStays(n, fs); }
    } else {
      var c, rest := Classify(lines[0]), lines[1..];
      NoneKept(rest, n + 1, Under(section, c), fs);
      KeptAppend(EntryHere(c, section, n, lines[0]), EntriesOf(rest, n + 1, Under(section, c)), fs);
      HereKept(c, section, n, n, lines[0], fs);
      NoneStaysStep(lines, n, fs);
      OneMeaning(c, section, n, lines[0]);
    }
  }

  lemma NothingStays(n: nat, fs: seq<Finding>)
    ensures NoneStays([], n, fs)
  {
  }

  lemma OneMeaning(c: Line, section: string, n: nat, raw: string)
    ensures c.KeyValue? ==> Meanings(EntryHere(c, section, n, raw)) != []
  {
  }

  lemma NoneStaysStep(lines: seq<string>, n: nat, fs: seq<Finding>)
    requires lines != []
    ensures NoneStays(lines, n, fs)
            <==> (Classify(lines[0]).KeyValue? ==> ReasonFor(fs, n).Some?) && NoneStays(lines[1..], n + 1, fs)
  {
    hide Classify, ReasonFor;
    var rest := lines[1..];
    if NoneStays(lines, n, fs) {
      forall i | 0 <= i < |rest| && Classify(rest[i]).KeyValue? ensures ReasonFor(fs, n + 1 + i).Some? {
        assert Classify(lines[i + 1]).KeyValue? && n + 1 + i == n + (i + 1);
      }
      assert Classify(lines[0]).KeyValue? ==> ReasonFor(fs, n + 0).Some?;
    }
    if (Classify(lines[0]).KeyValue? ==> ReasonFor(fs, n).Some?) && NoneStays(rest, n + 1, fs) {
      forall i | 0 <= i < |lines| && Classify(lines[i]).KeyValue? ensures ReasonFor(fs, n + i).Some? {
        if i > 0 {
          assert Classify(rest[i - 1]).KeyValue? && ReasonFor(fs, n + 1 + (i - 1)).Some?;
        }
      }
    }
  }

  lemma MeaningsSet(es: seq<Entry>)
    ensures Settings(es) == SettingsOf(Meanings(es))
  {
    forall i | 0 <= i < |es| ensures |Meanings(es)| == |es| && Meanings(es)[i] == MeaningOf(es[i]) {
      MeaningAt(es, i);
    }
    assert es == [] ==> Meanings(es) == [];
  }

  lemma {:induction false} MeaningAt(es: seq<Entry>, i: nat)
    requires i < |es|
    ensures |Meanings(es)| == |es| && Meanings(es)[i] == MeaningOf(es[i])
  {
    if |es| > 1 {
      MeaningAt(es[1..], if i > 0 then i - 1 else 0);
    }
  }

  lemma FlagsSome(fs: seq<Finding>)
    ensures (forall f | f in fs :: !f.commentOut) <==> forall n: nat :: !Flags(fs, n)
  {
    forall f | f in fs && f.commentOut ensures Flags(fs, f.line) {
      var i :| 0 <= i < |fs| && fs[i] == f;
      assert Asks(fs[i], f.line);
    }
  }

  /* ---- the whole operation ---- */

  /** No line from line `m` on holds a setting that is not disabled or starts a section for the first time. */
  predicate NothingLost(lines: seq<string>, m: nat, fs: seq<Finding>)
    requires m <= |lines|
  {
    forall i :: m <= i < |lines| ==>
      && (Classify(lines[i]).KeyValue? ==> ReasonFor(fs, i + 1).Some?)
      && (Classify(lines[i]).Header? ==> Classify(lines[i]).section in SectionsOf(lines[..m], []))
  }

  lemma LostIff(lines: seq<string>, m: nat, fs: seq<Finding>)
    requires m <= |lines|
    ensures var all, some := Parsed(lines), Parsed(lines[..m]);
            && (NothingLost(lines, m, fs)
                <==> Kept(all.entries, fs) == Kept(some.entries, fs) && all.sections == some.sections)
            && Kept(some.entries, fs) <= Kept(all.entries, fs)
  {
    hide Classify, ReasonFor, EntriesOf, SectionsOf, Kept;
    var under := EntriesSplit(lines, m, 1, "");
    SectionsSplit(lines, m, []);
    var rest, seen := lines[m..], SectionsOf(lines[..m], []);
    KeptAppend(EntriesOf(lines[..m], 1, ""), EntriesOf(rest, 1 + m, under), fs);
    NoneKept(rest, 1 + m, under, fs);
    SectionsGrow(rest, seen);
    forall i | 0 <= i < |rest| ensures rest[i] == lines[m + i] {
    }
    forall i | m <= i < |lines| ensures lines[i] == rest[i - m] && 1 + m + (i - m) == i + 1 {
    }
  }

  /** How many lines of a file are read back after the fix. */
  function Readable(text: string, lines: seq<string>, fs: seq<Finding>): (m: nat)
    ensures m <= |lines|
  {
    Fitting(lines, 1, fs, EndOf(text) != "", EndsWith(text, '\n'))
  }

  /** The new text says what the lines up to there say without the disabled ones. */
  lemma FixedSays(text: string, lines: seq<string>, fs: seq<Finding>)
    requires NoBreaks(lines) && OneLiners(fs) && SparesHeaders(lines, 1, fs)
    ensures var d := Parsed(Scanned(Rewritten(text, Disabled(lines, 1, fs))));
            var c := Parsed(lines[..Readable(text, lines, fs)]);
            Settings(d.entries) == SettingsOf(Kept(c.entries, fs)) && d.sections == c.sections
  {
    hide Classify, ReasonFor, EntriesOf, SectionsOf, Kept, Meanings, Settings, SettingsOf, Disabled, Scanned, Rewritten,
      ReadBack, Saying, Fitting, NoBreaks, OneLiners, LastValue;
    var crlf, ended, m := EndOf(text) != "", EndsWith(text, '\n'), Readable(text, lines, fs);
    var out, some := Disabled(lines, 1, fs), lines[..m];
    var left := Disabled(some, 1, fs);
    DisabledHasNoBreak(lines, 1, fs);
    RewrittenReads(text, out);
    DisabledReads(lines, 1, fs, crlf, ended);
    SayingIsAll(Scanned(Rewritten(text, out)), left);
    MeaningsSet(Parsed(left).entries);
    assert SparesHeaders(some, 1, fs) by { SomeSpared(lines, m, fs); }
    DisabledKeeps(some, 1, fs, 1, "");
    DisabledSections(some, 1, fs, []);
  }

  lemma SomeSpared(lines: seq<string>, m: nat, fs: seq<Finding>)
    requires m <= |lines| && SparesHeaders(lines, 1, fs)
    ensures SparesHeaders(lines[..m], 1, fs)
  {
    hide Classify, ReasonFor;
  }

  /** It says all of it if and only if nothing is lost from there on; then every key that no finding is
      about has the value it had. */
  lemma FixedExactly(text: string, lines: seq<string>, fs: seq<Finding>)
    requires NoBreaks(lines) && OneLiners(fs) && SparesHeaders(lines, 1, fs)
    ensures var c, d := Parsed(lines), Parsed(Scanned(Rewritten(text, Disabled(lines, 1, fs))));
            var same := Settings(d.entries) == SettingsOf(Kept(c.entries, fs)) && d.sections == c.sections;
            && (same <==> NothingLost(lines, Readable(text, lines, fs), fs))
            && (same ==> forall section, key :: Untouched(c.entries, fs, section, key) ==>
                  LastValue(d.entries, section, key) == LastValue(c.entries, section, key))
  {
    hide Classify, ReasonFor, EntriesOf, SectionsOf, Kept, Settings, Disabled, Scanned, Rewritten, Fitting, NoBreaks,
      OneLiners, LastValue, NothingLost, Untouched, SparesHeaders;
    FixedSays(text, lines, fs);
    LostIff(lines, Readable(text, lines, fs), fs);
    var c, d := Parsed(lines), Parsed(Scanned(Rewritten(text, Disabled(lines, 1, fs))));
    var all, some := Kept(c.entries, fs), Kept(Parsed(lines[..Readable(text, lines, fs)]).entries, fs);
    assert |SettingsOf(all)| == |all| && |SettingsOf(some)| == |some|;
    assert |all| == |some| ==> all == some;
    if Settings(d.entries) == SettingsOf(all) {
      forall section, key | Untouched(c.entries, fs, section, key)
        ensures LastValue(d.entries, section, key) == LastValue(c.entries, section, key)
      {
        KeptLast(c.entries, fs, section, key);
        LastOfSettings(d.entries, all, section, key);
      }
    }
  }

  lemma {:induction false} LastOfSettings(es: seq<Entry>, ms: seq<Meaning>, section: string, key: string)
    requires Settings(es) == SettingsOf(ms)
    ensures LastValue(es, section, key) == LastMeaning(ms, section, key)
  {
    hide EqualFold;
    assert |es| == |Settings(es)| == |SettingsOf(ms)| == |ms|;
    if es != [] {
      var k := |es| - 1;
      assert Settings(es)[k] == SettingsOf(ms)[k];
      assert Settings(es[..k]) == Settings(es)[..k] && SettingsOf(ms[..k]) == SettingsOf(ms)[..k];
      LastOfSettings(es[..k], ms[..k], section, key);
    }
  }

  /** Parse, Lint and CommentOut on the text of the file. */
  method Fix(text: string, table: Table, build: nat, say: Wording)
    returns (content: Option<string>, fs: seq<Finding>)
    ensures forall n: nat :: ReasonFor(fs, n) == Told(Why(Parsed(Scanned(text)), table, build, n), say)
    ensures forall n: nat :: Flags(fs, n) <==> SaidToBeIgnored(Parsed(Scanned(text)), table, build, n)
    ensures content.None? <==> forall n: nat :: !Flags(fs, n)
    ensures content.Some? ==> content.value == Rewritten(text, Disabled(Scanned(text), 1, fs))
    ensures content.Some? ==>
              var lines := Scanned(text);
              var m := Readable(text, lines, fs);
              var c, d := Parsed(lines[..m]), Parsed(Scanned(content.value));
              Settings(d.entries) == SettingsOf(Kept(c.entries, fs)) && d.sections == c.sections
    ensures content.Some? ==>
              var lines := Scanned(text);
              var c, d := Parsed(lines), Parsed(Scanned(content.value));
              var same := Settings(d.entries) == SettingsOf(Kept(c.entries, fs)) && d.sections == c.sections;
              && (same <==> NothingLost(lines, Readable(text, lines, fs), fs))
              && (same ==> forall section, key :: Untouched(c.entries, fs, section, key) ==>
                    LastValue(d.entries, section, key) == LastValue(c.entries, section, key))
  {
    hide Parsed, Flags, SaidToBeIgnored, Scanned, Disabled, Rewritten, OneLiners, Meanings, Kept, Untouched, Fair,
      LastValue, SettingsOf, Settings, Why, ReasonFor, Readable, NothingLost, NoBreaks, SparesHeaders;
    var lines := Scan(text);
    var out;
    out, fs := FixLines(lines, table, build, say);
    FlagsSome(fs);
    if forall f | f in fs :: !f.commentOut {
      return None, fs;
    }
    content := Some(Rewritten(text, out));
    ScannedHasNoBreak(text);
    assert OneLiners(fs) by { ToldHasNoBreak(fs, Parsed(lines), table, build, say); }
    FairSpares(lines, fs);
    FixedSays(text, lines, fs);
    FixedExactly(text, lines, fs);
  }

  lemma ToldHasNoBreak(fs: seq<Finding>, c: Config, table: Table, build: nat, say: Wording)
    requires forall n: nat :: ReasonFor(fs, n) == Told(Why(c, table, build, n), say)
    ensures OneLiners(fs)
  {
    hide ReasonFor, Why;
  }

  /* ---- lines that grow too long ---- */

  /** Nothing from a line of a mebibyte on is read back, its end counted. */
  lemma StopsAtLongLine(text: string, lines: seq<string>, k: nat)
    requires NoBreaks(lines) && k < |lines|
    requires Bytes(lines[k]) + Tail(|lines| - k, EndOf(text) != "", EndsWith(text, '\n')) >= MEBIBYTE
    ensures |Scanned(Rewritten(text, lines))| <= k
  {
    hide Scanned, Rewritten, Bytes, Tail, Find, NoBreaks, ReadBack;
    RewrittenReads(text, lines);
    ReadBackIsFirst(lines, EndOf(text) != "", EndsWith(text, '\n'));
  }

  /** A line that could just be read is too long once it is disabled, and so is one whose reason
      repeats it; nothing from there on is read back. */
  lemma DisabledTooLong(text: string, lines: seq<string>, fs: seq<Finding>, i: nat)
    requires i < |lines| && !Stays(lines, 1, fs, i)
    requires Bytes(lines[i]) >= MEBIBYTE - 2 || Bytes(ReasonFor(fs, i + 1).value) >= MEBIBYTE - 9
    ensures Readable(text, lines, fs) <= i
  {
    hide Bytes, ReasonFor, TrimSpace, StartsWith, Find;
    FittingIsFirst(lines, 1, fs, EndOf(text) != "", EndsWith(text, '\n'));
    assert GrowsTooLong(lines, 1, fs, EndOf(text) != "", EndsWith(text, '\n'), i);
  }

  /** Where line ends are mixed, a line that stays as it is may be too long with its new end. */
  lemma LongerEnd(text: string, lines: seq<string>, fs: seq<Finding>, i: nat)
    requires i + 1 < |lines| && Stays(lines, 1, fs, i)
    requires EndOf(text) != "" && Bytes(lines[i]) == MEBIBYTE - 1
    ensures Readable(text, lines, fs) <= i
  {
    hide Bytes, ReasonFor, TrimSpace, StartsWith, Find;
    FittingIsFirst(lines, 1, fs, EndOf(text) != "", EndsWith(text, '\n'));
    assert GrowsTooLong(lines, 1, fs, EndOf(text) != "", EndsWith(text, '\n'), i);
  }

  function Quotes(n: nat): string {
    seq(n, i => '"')
  }

  lemma QuotesAreStray(n: nat)
    requires n > 0
    ensures Classify(Quotes(n)) == Stray
  {
    var s := Quotes(n);
    assert s[0] == '"' && s[n - 1] == '"';
    assert TrimSpace(s) == s;
  }

  /** A line the scanner hands on as it is. */
  predicate Plain(s: string) {
    '\n' !in s && Bytes(s) < MEBIBYTE && !EndsWith(s, '\r')
  }

  lemma PlainText(s: string)
    requires |s| < MEBIBYTE && forall i :: 0 <= i < |s| ==> '\r' < s[i] < '\U{80}'
    ensures Plain(s)
  {
    BytesOfPlain(s);
  }

  lemma OneScanned(a: string, rest: string)
    requires Plain(a)
    ensures Scanned(a + ['\n'] + rest) == [a] + Scanned(rest)
  {
    hide Bytes, Scanned;
    var text := a + ['\n'] + rest;
    IndexIs(a, '\n', rest);
    ScannedStep(text);
    assert text[..|a|] == a && text[|a| + 1..] == rest;
  }

  /** Findings that are told as Lint tells them disable no line that starts a section. */
  lemma ToldIsFair(lines: seq<string>, fs: seq<Finding>, table: Table, build: nat, say: Wording)
    requires forall n: nat :: ReasonFor(fs, n) == Told(Why(Parsed(lines), table, build, n), say)
    ensures SparesHeaders(lines, 1, fs) && OneLiners(fs)
  {
    hide Why, Parsed, SaidToBeIgnored, ReasonFor, Flags, Fair, SparesHeaders, OneLiners;
    var c := Parsed(lines);
    forall n: nat ensures Flags(fs, n) <==> SaidToBeIgnored(c, table, build, n) {
      WhyIff(c, table, build, n);
      ReasonIff(fs, n);
    }
    LintIsFair(c, fs, table, build);
    FairSpares(lines, fs);
    ToldHasNoBreak(fs, c, table, build, say);
  }

  lemma {:induction false} FirstProblem(p: Problem, ps: seq<Problem>)
    ensures WhyProblem([p] + ps, p.line) == Some(Malformed(p))
    decreases |ps|
  {
    var all := [p] + ps;
    if ps == [] {
      assert all[..0] == [] && all == [p];
    } else {
      var before := ps[..|ps| - 1];
      assert all[..|all| - 1] == [p] + before;
      FirstProblem(p, before);
    }
  }

  lemma StrayIsWhy(raw: string, lines: seq<string>, rest: seq<string>, table: Table, build: nat)
    requires lines == [raw] + rest && Classify(raw) == Stray
    ensures Why(Parsed(lines), table, build, 1) == Some(Malformed(Problem(1, raw, false)))
    ensures Settings(Parsed(lines).entries) == Settings(Parsed(rest).entries)
    ensures Parsed(lines).sections == Parsed(rest).sections
  {
    hide Classify, WhyProblem, WhyEntry, WhyBridged, EntriesOf, ProblemsOf, SectionsOf, Settings;
    FirstLine(raw, rest, 1, "");
    FirstProblem(Problem(1, raw, false), ProblemsOf(rest, 2));
    SettingsAreSaid(rest, 1, "");
    SettingsAreSaid(rest, 2, "");
    assert EntryHere(Stray, "", 1, raw) == [] && [] + EntriesOf(rest, 2, "") == EntriesOf(rest, 2, "");
  }

  /** A first line that could not be read takes everything after it with it if the message about it is
      too long. */
  lemma StrayLosesTheRest(raw: string, rest: string, fs: seq<Finding>, table: Table, build: nat, say: Wording)
    requires Plain(raw) && Classify(raw) == Stray
    requires Bytes(say(Malformed(Problem(1, raw, false)))) >= MEBIBYTE - 9
    requires forall k: nat ::
               ReasonFor(fs, k) == Told(Why(Parsed(Scanned(raw + ['\n'] + rest)), table, build, k), say)
    ensures var text := raw + ['\n'] + rest;
            var c, d := Parsed(Scanned(text)), Parsed(Scanned(Rewritten(text, Disabled(Scanned(text), 1, fs))));
            && Settings(c.entries) == Settings(Parsed(Scanned(rest)).entries)
            && c.sections == Parsed(Scanned(rest)).sections
            && d.entries == [] && d.sections == []
  {
    hide Classify, Plain, Bytes, Scanned, Why, ReasonFor, Settings, Disabled, Rewritten, NoBreaks, Parsed, Told;
    var text := raw + ['\n'] + rest;
    var lines := Scanned(text);
    OneScanned(raw, rest);
    StrayIsWhy(raw, lines, Scanned(rest), table, build);
    ScannedHasNoBreak(text);
    FirstTooLong(text, lines, fs, table, build, say);
  }

  lemma StrayIsNoComment(l: string)
    requires Classify(l) == Stray
    ensures !StartsWith(TrimSpace(l), '#')
  {
  }

  lemma FirstTooLong(text: string, lines: seq<string>, fs: seq<Finding>, table: Table, build: nat, say: Wording)
    requires lines != [] && NoBreaks(lines) && Classify(lines[0]) == Stray
    requires var why := Why(Parsed(lines), table, build, 1);
             why.Some? && Bytes(say(why.value)) >= MEBIBYTE - 9
    requires forall k: nat :: ReasonFor(fs, k) == Told(Why(Parsed(lines), table, build, k), say)
    ensures var d := Parsed(Scanned(Rewritten(text, Disabled(lines, 1, fs)))); d.entries == [] && d.sections == []
  {
    StrayIsNoComment(lines[0]);
    hide Classify, Bytes, Scanned, Why, ReasonFor, Settings, SettingsOf, Disabled, Rewritten, OneLiners, SparesHeaders,
      NoBreaks, StartsWith, TrimSpace, Readable, Parsed;
    ToldIsFair(lines, fs, table, build, say);
    DisabledTooLong(text, lines, fs, 0);
    FixedSays(text, lines, fs);
    NothingIsLeft(Parsed(Scanned(Rewritten(text, Disabled(lines, 1, fs)))), lines[..0], fs);
  }

  lemma NothingIsLeft(d: Config, none: seq<string>, fs: seq<Finding>)
    requires none == [] && Settings(d.entries) == SettingsOf(Kept(Parsed(none).entries, fs))
    requires d.sections == Parsed(none).sections
    ensures d.entries == [] && d.sections == []
  {
    assert |d.entries| == |Settings(d.entries)|;
  }

  /** Quotes with no equals sign among them could not be read: a message that escapes every one is too
      long for the scanner, and all the file says after them is lost. 600,000 of them are enough. */
  lemma QuotesLoseTheRest(n: nat, rest: string, fs: seq<Finding>, table: Table, build: nat, say: Wording)
    requires n < MEBIBYTE <= 2 * n + 9
    requires Bytes(say(Malformed(Problem(1, Quotes(n), false)))) >= 2 * n
    requires forall k: nat ::
               ReasonFor(fs, k)
               == Told(Why(Parsed(Scanned(Quotes(n) + ['\n'] + rest)), table, build, k), say)
    ensures var text := Quotes(n) + ['\n'] + rest;
            var c, d := Parsed(Scanned(text)), Parsed(Scanned(Rewritten(text, Disabled(Scanned(text), 1, fs))));
            && Settings(c.entries) == Settings(Parsed(Scanned(rest)).entries)
            && c.sections == Parsed(Scanned(rest)).sections
            && d.entries == [] && d.sections == []
  {
    PlainText(Quotes(n));
    QuotesAreStray(n);
    hide Classify, Plain, Bytes, Scanned, Quotes, Why, ReasonFor, Settings, Disabled, Rewritten;
    StrayLosesTheRest(Quotes(n), rest, fs, table, build, say);
  }
}
