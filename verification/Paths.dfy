/** Windows path algebra (internal/disk/paths.go) and the way a registration's strings name a disk
    file (internal/disk/disk.go). */
module Paths {
  import opened Text

  type Path = string

  const EXTENDED: string := @"\\?\"
  const EXTENDED_UNC: string := @"\\?\UNC\"
  const DEFAULT_VHD_NAME: string := "ext4.vhdx"

  predicate IsSeparator(c: char) {
    c == '\\' || c == '/'
  }

  function ReplaceSlashes(p: Path): Path {
    seq(|p|, i requires 0 <= i < |p| => if p[i] == '/' then '\\' else p[i])
  }

  /** Drops the extended-length prefix; the UNC form is tested first because it starts with the
      plain one. */
  function StripExtended(p: Path): Path {
    if EXTENDED_UNC <= p then @"\\" + p[|EXTENDED_UNC|..]
    else TrimPrefix(p, EXTENDED)
  }

  predicate TrailingSeparator(p: Path) {
    |p| > 1 && p[|p| - 1] == '\\' && p[|p| - 2] != ':'
  }

  function TrimTrailing(p: Path): Path {
    if TrailingSeparator(p) then TrimTrailing(p[..|p| - 1]) else p
  }

  /** The spelling all names of one file share; it is also what the file store is keyed by. */
  function CanonicalPath(p: Path): Path {
    Lower(TrimTrailing(ReplaceSlashes(StripExtended(p))))
  }

  method Canonicalise(path: Path) returns (p: Path)
    ensures p == CanonicalPath(path)
  {
    p := path;
    if EXTENDED_UNC <= p {
      p := @"\\" + p[|EXTENDED_UNC|..];
    } else if EXTENDED <= p {
      p := p[|EXTENDED|..];
    }
    p := ReplaceSlashes(p);
    while |p| > 1 && p[|p| - 1] == '\\' && !HasSuffix(p, @":\")
      invariant TrimTrailing(p) == TrimTrailing(ReplaceSlashes(StripExtended(path)))
    {
      assert p[|p| - 2..] == [p[|p| - 2], p[|p| - 1]];
      p := p[..|p| - 1];
    }
    p := Lower(p);
  }

  predicate SamePath(a: Path, b: Path) {
    CanonicalPath(a) == CanonicalPath(b)
  }

  function TrimSeparators(p: Path): Path {
    if p != "" && IsSeparator(p[|p| - 1]) then TrimSeparators(p[..|p| - 1]) else p
  }

  /** The index of the last separator, or -1. */
  function LastSeparator(p: Path): (i: int)
    ensures -1 <= i < |p|
    ensures 0 <= i ==> IsSeparator(p[i])
    ensures forall k :: i < k < |p| ==> !IsSeparator(p[k])
  {
    if p == "" then -1
    else if IsSeparator(p[|p| - 1]) then |p| - 1
    else LastSeparator(p[..|p| - 1])
  }

  function DirOf(path: Path): Path {
    var p := TrimSeparators(path);
    var i := LastSeparator(p);
    if i < 0 then ""
    else if i == 2 && |p| > 2 && p[1] == ':' then p[..3]
    else p[..i]
  }

  function BaseOf(path: Path): Path {
    var p := TrimSeparators(path);
    p[LastSeparator(p) + 1..]
  }

  function WithSamePrefixAs(original: Path, dir: Path): Path {
    var bare := TrimPrefix(dir, EXTENDED);
    if EXTENDED <= original then EXTENDED + bare else bare
  }

  function JoinWindows(dir: Path, name: string): Path {
    var d := TrimSeparators(dir);
    if d == "" then name else d + @"\" + name
  }

  function VhdNameOf(vhdFileName: string): string {
    if vhdFileName == "" then DEFAULT_VHD_NAME else vhdFileName
  }

  /** The disk a WSL 2 registration with this BasePath and VhdFileName names. */
  function DiskPath(basePath: string, vhdFileName: string): Path {
    if basePath == "" then ""
    else JoinWindows(TrimPrefix(basePath, EXTENDED), VhdNameOf(vhdFileName))
  }

  /* ---- the repoint theorem ---- */

  predicate PlainName(name: string) {
    name != "" && forall k :: 0 <= k < |name| ==> !IsSeparator(name[k])
  }

  /** The directory without its extended-length prefix, ending in exactly one added separator. */
  function Stem(dir: Path): Path {
    TrimSeparators(TrimPrefix(dir, EXTENDED)) + @"\"
  }

  /** A directory whose extended-length prefix, if it has one, can be taken off and put back: not
      the UNC form, and not a prefix behind a prefix. */
  predicate Repointable(dir: Path) {
    EXTENDED <= dir ==> !(@"UNC\" <= Stem(dir)) && !(EXTENDED <= Stem(dir))
  }

  lemma {:induction false} TrimSeparatorsAppend(p: Path, tail: Path)
    requires TrimSeparators(tail) != ""
    ensures TrimSeparators(p + tail) == p + TrimSeparators(tail)
    decreases |tail|
  {
    assert tail != "";
    assert (p + tail)[|p + tail| - 1] == tail[|tail| - 1];
    if IsSeparator(tail[|tail| - 1]) {
      assert (p + tail)[..|p + tail| - 1] == p + tail[..|tail| - 1];
      TrimSeparatorsAppend(p, tail[..|tail| - 1]);
    }
  }

  lemma {:induction false} TrimSeparatorsEnds(p: Path)
    ensures TrimSeparators(p) <= p
    ensures TrimSeparators(p) != "" ==> !IsSeparator(TrimSeparators(p)[|TrimSeparators(p)| - 1])
    decreases |p|
  {
    if p != "" && IsSeparator(p[|p| - 1]) {
      TrimSeparatorsEnds(p[..|p| - 1]);
    }
  }

  /** A final component never holds a separator, so it survives being joined to any directory. */
  lemma BaseOfIsPlain(p: Path)
    ensures BaseOf(p) != "" ==> PlainName(BaseOf(p))
  {
  }

  /** Canonical form of a path that ends in a plain name: nothing is trimmed. */
  lemma CanonicalOfJoin(d: Path, name: string)
    requires PlainName(name)
    ensures CanonicalPath(d + name) == Lower(ReplaceSlashes(StripExtended(d + name)))
  {
    var p := d + name;
    var q := StripExtended(p);
    assert p[|p| - 1] == name[|name| - 1];
    if EXTENDED_UNC <= p {
      assert p[|EXTENDED_UNC| - 1] == '\\';
      assert |p| > |EXTENDED_UNC|;
    } else if EXTENDED <= p {
      assert p[|EXTENDED| - 1] == '\\';
      assert |p| > |EXTENDED|;
    }
    assert q != "" && q[|q| - 1] == name[|name| - 1];
    assert !TrailingSeparator(ReplaceSlashes(q));
  }

  lemma StemShape(dir: Path, name: string)
    requires TrimSeparators(TrimPrefix(dir, EXTENDED)) != ""
    ensures JoinWindows(dir, name) == (if EXTENDED <= dir then EXTENDED else "") + Stem(dir) + name
    ensures JoinWindows(TrimPrefix(dir, EXTENDED), name) == Stem(dir) + name
  {
    if EXTENDED <= dir {
      var bare := TrimPrefix(dir, EXTENDED);
      assert dir == EXTENDED + bare;
      TrimSeparatorsAppend(EXTENDED, bare);
      assert EXTENDED + TrimSeparators(bare) + @"\" + name == EXTENDED + Stem(dir) + name;
    }
  }

  /** Where a prefix that ends in a separator can sit in front of a plain name. */
  lemma PrefixInStem(prefix: string, stem: Path, name: string)
    requires |prefix| == 4 && prefix[3] == '\\'
    requires prefix == EXTENDED || prefix == @"UNC\"
    requires PlainName(name)
    requires |stem| >= 2 && stem[|stem| - 1] == '\\' && !IsSeparator(stem[|stem| - 2])
    ensures prefix <= stem + name <==> prefix <= stem
  {
    assert (stem + name)[|stem| - 1] == stem[|stem| - 1];
    assert (stem + name)[|stem| - 2] == stem[|stem| - 2];
  }

  lemma CanonicalLength(p: Path)
    ensures |CanonicalPath(p)| <= |p|
    ensures EXTENDED <= p ==> |CanonicalPath(p)| < |p|
  {
    TrimTrailingShrinks(ReplaceSlashes(StripExtended(p)));
  }

  lemma {:induction false} TrimTrailingShrinks(p: Path)
    ensures |TrimTrailing(p)| <= |p|
    decreases |p|
  {
    if TrailingSeparator(p) {
      TrimTrailingShrinks(p[..|p| - 1]);
    }
  }

  /** What a target in an extended-form directory canonicalises to. */
  lemma CanonicalOfExtendedTarget(stem: Path, name: string)
    requires PlainName(name)
    requires |stem| >= 2 && stem[|stem| - 1] == '\\' && !IsSeparator(stem[|stem| - 2])
    ensures var c := CanonicalPath(EXTENDED + stem + name);
            if @"UNC\" <= stem then c != "" && c[0] == '\\'
            else c == Lower(ReplaceSlashes(stem + name))
    ensures !(EXTENDED <= stem) ==> CanonicalPath(stem + name) == Lower(ReplaceSlashes(stem + name))
  {
    var target := EXTENDED + stem + name;
    PrefixInStem(EXTENDED, stem, name);
    PrefixInStem(@"UNC\", stem, name);
    assert target[4..] == stem + name;
    assert EXTENDED_UNC == EXTENDED + @"UNC\";
    assert EXTENDED_UNC <= target <==> @"UNC\" <= stem + name;
    CanonicalOfJoin(EXTENDED + stem, name);
    CanonicalOfJoin(stem, name);
  }

  /** A value rewritten for a directory has the form the old one had, with the extended-length prefix or
      without it, unless the directory has one prefix more. */
  predicate FormKept(was: Path, dir: Path, now: Path) {
    var doubled := EXTENDED <= TrimPrefix(dir, EXTENDED);
    && (EXTENDED <= now <==> EXTENDED <= was || doubled)
    && (!doubled ==> TrimPrefix(now, EXTENDED) == TrimPrefix(dir, EXTENDED))
  }

  lemma PrefixFollows(original: Path, dir: Path)
    ensures FormKept(original, dir, WithSamePrefixAs(original, dir))
  {
    var bare := TrimPrefix(dir, EXTENDED);
    assert TrimPrefix(EXTENDED + bare, EXTENDED) == bare;
  }

  /** Rewriting BasePath for a new directory and naming the disk `name` makes the registration name
      the target file exactly when the directory is repointable. */
  lemma RepointNamesTarget(original: Path, dir: Path, name: string)
    requires PlainName(name)
    requires TrimSeparators(TrimPrefix(dir, EXTENDED)) != ""
    ensures WithSamePrefixAs(original, dir) != ""
    ensures SamePath(DiskPath(WithSamePrefixAs(original, dir), name), JoinWindows(dir, name))
            <==> Repointable(dir)
  {
    if EXTENDED <= dir {
      RepointExtended(original, dir, name);
    } else {
      assert TrimPrefix(EXTENDED + dir, EXTENDED) == dir;
    }
  }

  lemma RepointExtended(original: Path, dir: Path, name: string)
    requires PlainName(name) && EXTENDED <= dir
    requires TrimSeparators(TrimPrefix(dir, EXTENDED)) != ""
    ensures WithSamePrefixAs(original, dir) != ""
    ensures SamePath(DiskPath(WithSamePrefixAs(original, dir), name), JoinWindows(dir, name))
            <==> Repointable(dir)
  {
    hide CanonicalPath, TrimSeparators, JoinWindows, PlainName;
    if EXTENDED <= TrimPrefix(dir, EXTENDED) {
      RepointDoubled(original, dir, name);
    } else {
      RepointOnce(original, dir, name);
    }
  }

  /** With one prefix more behind the prefix, another file is named. */
  lemma RepointDoubled(original: Path, dir: Path, name: string)
    requires PlainName(name) && EXTENDED <= dir && EXTENDED <= TrimPrefix(dir, EXTENDED)
    requires TrimSeparators(TrimPrefix(dir, EXTENDED)) != ""
    ensures WithSamePrefixAs(original, dir) != "" && !Repointable(dir)
    ensures !SamePath(DiskPath(WithSamePrefixAs(original, dir), name), JoinWindows(dir, name))
  {
    EitherForm(original, dir, name);
    DoublePrefix(TrimPrefix(dir, EXTENDED), name);
    ExtendedLength(dir, name);
    hide CanonicalPath, TrimSeparators, JoinWindows, DiskPath, WithSamePrefixAs, TrimPrefix;
  }

  lemma EitherForm(original: Path, dir: Path, name: string)
    requires EXTENDED <= dir && name != "" && TrimPrefix(dir, EXTENDED) != ""
    ensures WithSamePrefixAs(original, dir) != ""
    ensures var bare, path := TrimPrefix(dir, EXTENDED), DiskPath(WithSamePrefixAs(original, dir), name);
            path == JoinWindows(bare, name) || path == JoinWindows(TrimPrefix(bare, EXTENDED), name)
  {
    var bare := TrimPrefix(dir, EXTENDED);
    hide JoinWindows;
    assert TrimPrefix(EXTENDED + bare, EXTENDED) == bare;
  }

  lemma ExtendedLength(dir: Path, name: string)
    requires PlainName(name) && EXTENDED <= dir && EXTENDED <= Stem(dir)
    requires TrimSeparators(TrimPrefix(dir, EXTENDED)) != ""
    ensures |CanonicalPath(JoinWindows(dir, name))| == |Stem(dir)| + |name|
  {
    var stem := Stem(dir);
    TrimSeparatorsEnds(TrimPrefix(dir, EXTENDED));
    StemShape(dir, name);
    hide CanonicalPath, TrimSeparators, JoinWindows;
    CanonicalOfExtendedTarget(stem, name);
    assert stem[0] == '\\';
  }

  /** Without one, the prefix that is put back or left off makes no difference. */
  lemma RepointOnce(original: Path, dir: Path, name: string)
    requires PlainName(name) && EXTENDED <= dir && !(EXTENDED <= TrimPrefix(dir, EXTENDED))
    requires TrimSeparators(TrimPrefix(dir, EXTENDED)) != ""
    ensures WithSamePrefixAs(original, dir) != ""
    ensures SamePath(DiskPath(WithSamePrefixAs(original, dir), name), JoinWindows(dir, name))
            <==> Repointable(dir)
  {
    RepointedPath(original, dir, name);
    var stem := Stem(dir);
    TrimSeparatorsEnds(TrimPrefix(dir, EXTENDED));
    StemShape(dir, name);
    hide CanonicalPath, TrimSeparators, JoinWindows, DiskPath, WithSamePrefixAs;
    CanonicalOfExtendedTarget(stem, name);
    if EXTENDED <= stem {
      CanonicalLength(stem + name);
      assert stem[0] == '\\';
    } else if @"UNC\" <= stem {
      assert (stem + name)[0] == 'U';
    }
  }

  lemma RepointedPath(original: Path, dir: Path, name: string)
    requires EXTENDED <= dir && !(EXTENDED <= TrimPrefix(dir, EXTENDED)) && name != ""
    requires TrimSeparators(TrimPrefix(dir, EXTENDED)) != ""
    ensures WithSamePrefixAs(original, dir) != ""
    ensures DiskPath(WithSamePrefixAs(original, dir), name) == Stem(dir) + name
  {
    StemShape(dir, name);
    hide JoinWindows;
    EitherForm(original, dir, name);
  }

  /** A prefix behind a prefix: whichever form is written back, the file named is a shorter one. */
  lemma DoublePrefix(bare: Path, name: string)
    requires EXTENDED <= bare && PlainName(name)
    requires TrimSeparators(bare) != ""
    ensures EXTENDED <= TrimSeparators(bare) + @"\"
    ensures |CanonicalPath(JoinWindows(bare, name))| < |TrimSeparators(bare)| + 1 + |name|
    ensures |CanonicalPath(JoinWindows(TrimPrefix(bare, EXTENDED), name))| < |TrimSeparators(bare)| + 1 + |name|
  {
    var inner := TrimPrefix(bare, EXTENDED);
    assert bare == EXTENDED + inner;
    if TrimSeparators(inner) != "" {
      TrimSeparatorsAppend(EXTENDED, inner);
    } else {
      TrimSeparatorsAway(EXTENDED, inner);
      assert EXTENDED[..3] == @"\\?";
      assert TrimSeparators(@"\\?") == @"\\?";
    }
    CanonicalLength(JoinWindows(bare, name));
    CanonicalLength(JoinWindows(inner, name));
  }

  lemma {:induction false} TrimSeparatorsAway(p: Path, seps: Path)
    requires TrimSeparators(seps) == ""
    ensures TrimSeparators(p + seps) == TrimSeparators(p)
    decreases |seps|
  {
    if seps == "" {
      assert p + seps == p;
    } else {
      assert (p + seps)[..|p + seps| - 1] == p + seps[..|seps| - 1];
      TrimSeparatorsAway(p, seps[..|seps| - 1]);
    }
  }

  /* ---- pointing at a file rather than into a directory ---- */

  /** A file path with a directory part and no doubled or trailing separator. */
  predicate FileTarget(t: Path) {
    var i := LastSeparator(t);
    && 0 < i < |t| - 1
    && !IsSeparator(t[i - 1])
    && (t[i] == '\\' || (i != 3 && i != 7))
  }

  lemma SplitOf(t: Path)
    requires FileTarget(t)
    ensures BaseOf(t) == t[LastSeparator(t) + 1..] && PlainName(BaseOf(t))
    ensures TrimSeparators(DirOf(t)) == t[..LastSeparator(t)]
    ensures EXTENDED <= DirOf(t) ==> DirOf(t) == t[..LastSeparator(t)]
  {
    hide CanonicalPath;
    var i := LastSeparator(t);
    var stem := t[..i];
    assert !IsSeparator(t[|t| - 1]);
    assert TrimSeparators(t) == t;
    assert TrimSeparators(stem) == stem;
    if DirOf(t) != stem {
      assert t[..3][..2] == stem;
    }
  }

  lemma DirAndBaseRejoin(t: Path)
    requires FileTarget(t)
    ensures PlainName(BaseOf(t))
    ensures TrimSeparators(TrimPrefix(DirOf(t), EXTENDED)) != ""
    ensures SamePath(JoinWindows(DirOf(t), BaseOf(t)), t)
  {
    hide CanonicalPath, StripExtended, DirOf, BaseOf;
    var i := LastSeparator(t);
    var stem, name := t[..i], t[i + 1..];
    SplitOf(t);
    assert t == stem + [t[i]] + name;
    CanonicalOfJoin(stem + [t[i]], name);
    CanonicalOfJoin(stem + @"\", name);
    SlashInsensitive(t, stem + @"\" + name, i);
    if EXTENDED <= DirOf(t) {
      var bare := TrimPrefix(DirOf(t), EXTENDED);
      assert t[3] == '\\' && i > 4;
      assert bare != "" && !IsSeparator(bare[|bare| - 1]);
    }
  }

  /** Changing one separator for the other away from the prefix's own separators changes nothing. */
  lemma SlashInsensitive(a: Path, b: Path, i: nat)
    requires |a| == |b| && i < |a| && a[..i] == b[..i] && a[i + 1..] == b[i + 1..]
    requires IsSeparator(a[i]) && b[i] == '\\'
    requires a[i] == '\\' || (i != 3 && i != 7)
    requires i > 0 && !IsSeparator(a[i - 1])
    ensures ReplaceSlashes(StripExtended(a)) == ReplaceSlashes(StripExtended(b))
  {
    assert forall k :: 0 <= k < |a| && k != i ==> a[k] == b[k] by {
      forall k | 0 <= k < |a| && k != i ensures a[k] == b[k] {
        if k < i { assert a[..i][k] == b[..i][k]; } else { assert a[i + 1..][k - i - 1] == b[i + 1..][k - i - 1]; }
      }
    }
    if a[i] == '\\' {
      assert a == b;
    } else {
      SamePrefix(EXTENDED, a, b, i);
      SamePrefix(EXTENDED_UNC, a, b, i);
    }
  }

  lemma SamePrefix(prefix: string, a: Path, b: Path, i: nat)
    requires prefix == EXTENDED || prefix == EXTENDED_UNC
    requires |a| == |b| && 0 < i < |a| && i != 3 && i != 7
    requires forall k :: 0 <= k < |a| && k != i ==> a[k] == b[k]
    requires IsSeparator(a[i]) && IsSeparator(b[i]) && !IsSeparator(a[i - 1])
    ensures prefix <= a <==> prefix <= b
  {
    if i < |prefix| {
      assert IsSeparator(prefix[i]) ==> i == 1 && IsSeparator(prefix[0]);
    } else if |prefix| <= |a| {
      assert a[..|prefix|] == b[..|prefix|];
    }
  }

  lemma RelinkNamesTarget(original: Path, target: Path)
    requires FileTarget(target)
    ensures WithSamePrefixAs(original, DirOf(target)) != ""
    ensures SamePath(DiskPath(WithSamePrefixAs(original, DirOf(target)), BaseOf(target)), target)
            <==> Repointable(DirOf(target))
  {
    DirAndBaseRejoin(target);
    RepointNamesTarget(original, DirOf(target), BaseOf(target));
  }

  /** The UNC form is where it fails: the share becomes a relative path. */
  lemma UncDirectoryIsLost()
    ensures !SamePath(DiskPath(WithSamePrefixAs(@"C:\wsl", @"\\?\UNC\srv\wsl"), "ext4.vhdx"),
                      JoinWindows(@"\\?\UNC\srv\wsl", "ext4.vhdx"))
  {
    var bare := TrimPrefix(@"\\?\UNC\srv\wsl", EXTENDED);
    assert bare == @"UNC\srv\wsl";
    assert TrimSeparators(bare) == bare;
    assert Stem(@"\\?\UNC\srv\wsl")[..4] == @"UNC\";
    RepointNamesTarget(@"C:\wsl", @"\\?\UNC\srv\wsl", "ext4.vhdx");
  }

  /** Two spellings of one plain name name one file in any directory. */
  lemma SameNameSameFile(dir: Path, a: string, b: string)
    requires PlainName(a) && PlainName(b) && SamePath(a, b)
    ensures SamePath(JoinWindows(dir, a), JoinWindows(dir, b))
  {
    CanonicalOfJoin("", a);
    CanonicalOfJoin("", b);
    assert "" + a == a && "" + b == b;
    PlainHasNoPrefix(a);
    PlainHasNoPrefix(b);
    var d := TrimSeparators(dir);
    if d != "" {
      CanonicalOfJoin(d + @"\", a);
      CanonicalOfJoin(d + @"\", b);
      SwapName(d + @"\", a, b);
    }
  }

  lemma PlainHasNoPrefix(a: string)
    requires PlainName(a)
    ensures ReplaceSlashes(StripExtended(a)) == a
  {
    assert !IsSeparator(a[0]) && EXTENDED[0] == '\\';
    assert StripExtended(a) == a;
    assert ReplaceSlashes(a) == a;
  }

  /** The disk a repointed registration opens, whether it stores the name or relies on the default. */
  lemma RepointedDisk(original: Path, dir: Path, stored: string, name: string)
    requires PlainName(name) && TrimSeparators(TrimPrefix(dir, EXTENDED)) != "" && Repointable(dir)
    requires stored == name || (stored == "" && SamePath(name, DEFAULT_VHD_NAME))
    ensures var disk := DiskPath(WithSamePrefixAs(original, dir), stored);
            disk != "" && SamePath(disk, JoinWindows(dir, name))
  {
    RepointNamesTarget(original, dir, name);
    if stored == "" {
      DefaultNameSameFile(WithSamePrefixAs(original, dir), name);
    }
  }

  lemma DefaultNameSameFile(base: Path, name: string)
    requires PlainName(name) && SamePath(name, DEFAULT_VHD_NAME) && base != ""
    ensures DiskPath(base, "") != "" && SamePath(DiskPath(base, ""), DiskPath(base, name))
  {
    SameNameSameFile(TrimPrefix(base, EXTENDED), DEFAULT_VHD_NAME, name);
  }

  /** A separator that ends a prefix of `stem + name` is in the stem. */
  lemma MarkInStem(stem: Path, name: string, prefix: string)
    requires PlainName(name) && prefix <= stem + name && prefix != "" && prefix[|prefix| - 1] == '\\'
    ensures |prefix| <= |stem|
  {
    var p := stem + name;
    assert p[|prefix| - 1] == '\\';
  }

  lemma MarkStays(stem: Path, name: string, prefix: string)
    requires PlainName(name) && prefix != "" && prefix[|prefix| - 1] == '\\'
    ensures prefix <= stem + name <==> prefix <= stem
  {
    if prefix <= stem + name {
      MarkInStem(stem, name, prefix);
    }
  }

  lemma SwapName(stem: Path, a: string, b: string)
    requires stem != "" && stem[|stem| - 1] == '\\'
    requires PlainName(a) && PlainName(b) && Lower(a) == Lower(b)
    ensures Lower(ReplaceSlashes(StripExtended(stem + a))) == Lower(ReplaceSlashes(StripExtended(stem + b)))
  {
    hide CanonicalPath;
    assert forall k :: 0 <= k < |a| ==> LowerChar(a[k]) == LowerChar(b[k]) by {
      forall k | 0 <= k < |a| ensures LowerChar(a[k]) == LowerChar(b[k]) {
        assert Lower(a)[k] == Lower(b)[k];
      }
    }
    MarkStays(stem, a, EXTENDED);
    MarkStays(stem, b, EXTENDED);
    MarkStays(stem, a, EXTENDED_UNC);
    MarkStays(stem, b, EXTENDED_UNC);
  }

  lemma LastSeparatorIs(p: Path, i: nat)
    requires i < |p| && IsSeparator(p[i]) && forall k :: i < k < |p| ==> !IsSeparator(p[k])
    ensures LastSeparator(p) == i
  {
  }

  /** The canonical form of a joined path still ends in its name, so files of different names in
      whatever folders are different files. */
  lemma JoinedName(dir: Path, name: string)
    requires PlainName(name)
    ensures var p := CanonicalPath(JoinWindows(dir, name)); p[LastSeparator(p) + 1..] == Lower(name)
  {
    var d := TrimSeparators(dir);
    var stem := if d == "" then "" else d + @"\";
    CanonicalOfJoin(stem, name);
    assert stem + name == JoinWindows(dir, name);
    CanonicalTail(stem, name);
  }

  lemma CanonicalTail(stem: Path, name: string)
    requires PlainName(name) && (stem == "" || stem[|stem| - 1] == '\\')
    ensures var p := Lower(ReplaceSlashes(StripExtended(stem + name)));
            p[LastSeparator(p) + 1..] == Lower(name)
  {
    if stem == "" {
      assert stem + name == name;
      PlainHasNoPrefix(name);
      assert "" + name == name;
      NameAfter("", name);
    } else {
      var y := StemSurvives(stem, name);
      hide StripExtended;
      NameAfter(y, name);
    }
  }

  lemma NameAfter(y: Path, name: string)
    requires PlainName(name) && (y == "" || y[|y| - 1] == '\\')
    ensures var p := Lower(ReplaceSlashes(y + name)); p[LastSeparator(p) + 1..] == Lower(name)
  {
    var p := Lower(ReplaceSlashes(y + name));
    assert p[|y|..] == Lower(name);
    assert forall k :: |y| <= k < |p| ==> !IsSeparator(p[k]);
    if y != "" {
      assert p[|y| - 1] == '\\';
      LastSeparatorIs(p, |y| - 1);
    }
  }

  /** Taking the front off a stem leaves the name, and a stem. */
  lemma FrontGone(stem: Path, name: string, k: nat, x: Path)
    requires k <= |stem| && EndsWith(stem, '\\') && (x == "" || EndsWith(x, '\\'))
    ensures x + (stem + name)[k..] == (x + stem[k..]) + name
    ensures x + stem[k..] == "" || EndsWith(x + stem[k..], '\\')
  {
    assert (stem + name)[k..] == stem[k..] + name;
    assert k == |stem| ==> x + stem[k..] == x;
  }

  lemma StemSurvives(stem: Path, name: string) returns (y: Path)
    requires PlainName(name) && EndsWith(stem, '\\')
    ensures StripExtended(stem + name) == y + name && (y == "" || EndsWith(y, '\\'))
  {
    var p := stem + name;
    if EXTENDED_UNC <= p {
      MarkInStem(stem, name, EXTENDED_UNC);
      y := @"\\" + stem[|EXTENDED_UNC|..];
      FrontGone(stem, name, |EXTENDED_UNC|, @"\\");
    } else if EXTENDED <= p {
      MarkInStem(stem, name, EXTENDED);
      y := stem[|EXTENDED|..];
      FrontGone(stem, name, |EXTENDED|, "");
      assert "" + p[|EXTENDED|..] == p[|EXTENDED|..] && "" + y == y;
    } else {
      y := stem;
    }
  }

  lemma DifferentNames(dir1: Path, name1: string, dir2: Path, name2: string)
    requires PlainName(name1) && PlainName(name2) && !EqualFold(name1, name2)
    ensures !SamePath(JoinWindows(dir1, name1), JoinWindows(dir2, name2))
  {
    hide CanonicalPath, JoinWindows, Lower;
    JoinedName(dir1, name1);
    JoinedName(dir2, name2);
  }

  lemma FoldedNameSameFile(dir: Path, a: string, b: string)
    requires PlainName(a) && PlainName(b) && EqualFold(a, b)
    ensures SamePath(JoinWindows(dir, a), JoinWindows(dir, b))
  {
    CanonicalOfJoin("", a);
    CanonicalOfJoin("", b);
    assert "" + a == a && "" + b == b;
    PlainHasNoPrefix(a);
    PlainHasNoPrefix(b);
    hide JoinWindows;
    SameNameSameFile(dir, a, b);
  }

  /* ---- the edges of a path ---- */

  /** The directory of a file is what stands before its last separator; on a drive the root keeps its own. */
  lemma DirOfFile(dir: Path, s: char, name: string)
    requires IsSeparator(s) && PlainName(name)
    ensures DirOf(name) == "" && BaseOf(name) == name && BaseOf(dir + [s] + name) == name
    ensures DirOf(dir + [s] + name) == if |dir| == 2 && dir[1] == ':' then dir + [s] else dir
  {
    var p := dir + [s] + name;
    assert p[|p| - 1] == name[|name| - 1];
    LastSeparatorIs(p, |dir|);
    assert LastSeparator(name) == -1;
    assert p[..|dir|] == dir && p[..|dir| + 1] == dir + [s] && p[|dir| + 1..] == name;
  }

  lemma TrimTrailingOnce(q: Path)
    ensures if q != "" && q[|q| - 1] != ':' then TrimTrailing(q + @"\") == TrimTrailing(q)
            else TrimTrailing(q + @"\") == q + @"\" && TrimTrailing(q) == q
  {
    assert (q + @"\")[..|q|] == q;
  }

  lemma PrefixOfMore(p: Path, s: char, prefix: Path)
    requires prefix != "" && prefix <= p + [s] && p != prefix[..|prefix| - 1]
    ensures prefix <= p && (p + [s])[|prefix|..] == p[|prefix|..] + [s]
  {
    assert (p + [s])[..|p|] == p;
    assert |prefix| == |p| + 1 ==> prefix == p + [s];
  }

  lemma StripMore(p: Path, s: char)
    requires p != @"\\?" && p != @"\\?\UNC"
    ensures StripExtended(p + [s]) == StripExtended(p) + [s]
  {
    assert EXTENDED_UNC[..7] == @"\\?\UNC" && EXTENDED[..3] == @"\\?";
    if EXTENDED_UNC <= p + [s] {
      PrefixOfMore(p, s, EXTENDED_UNC);
      assert @"\\" + (p[|EXTENDED_UNC|..] + [s]) == StripExtended(p) + [s];
    } else if EXTENDED <= p + [s] {
      PrefixOfMore(p, s, EXTENDED);
    }
  }

  /** A separator at the end is no part of what a path names, if and only if it is not that of a root. Two
      paths are left out, of which it would make a prefix. */
  lemma TrailingIgnored(p: Path, s: char)
    requires IsSeparator(s) && p != @"\\?" && p != @"\\?\UNC"
    ensures var q := StripExtended(p); SamePath(p + [s], p) <==> q != "" && q[|q| - 1] != ':'
  {
    StripMore(p, s);
    var q := StripExtended(p);
    var r := ReplaceSlashes(q);
    TrimTrailingOnce(r);
    hide StripExtended, TrimTrailing;
    assert ReplaceSlashes(q + [s]) == r + @"\";
    assert |Lower(r + @"\")| == |r| + 1 && |Lower(r)| == |r|;
  }

  /* ---- folders ---- */

  lemma JoinEnds(dir: Path, name: string)
    requires PlainName(name)
    ensures TrimSeparators(JoinWindows(dir, name)) == JoinWindows(dir, name) != ""
  {
    var p := JoinWindows(dir, name);
    assert p[|p| - 1] == name[|name| - 1];
  }

  predicate IsFront(a: Path) {
    a == "" || EndsWith(a, '\\')
  }

  /** Two paths that are spelled alike have names and fronts that are. */
  lemma PeelName(a: Path, m: string, b: Path, n: string)
    requires IsFront(a) && IsFront(b) && PlainName(m) && PlainName(n)
    requires Lower(ReplaceSlashes(a + m)) == Lower(ReplaceSlashes(b + n))
    ensures Lower(m) == Lower(n) && Lower(ReplaceSlashes(a)) == Lower(ReplaceSlashes(b))
  {
    NameAfter(a, m);
    NameAfter(b, n);
    var p := Lower(ReplaceSlashes(a + m));
    assert |Lower(m)| == |m| && |Lower(n)| == |n| && |p| == |a| + |m| == |b| + |n|;
    assert p[..|a|] == Lower(ReplaceSlashes(a)) && p[..|b|] == Lower(ReplaceSlashes(b));
  }

  lemma PeelSeparator(a: Path, b: Path)
    requires Lower(ReplaceSlashes(a + @"\")) == Lower(ReplaceSlashes(b + @"\"))
    ensures Lower(ReplaceSlashes(a)) == Lower(ReplaceSlashes(b))
  {
    var p := Lower(ReplaceSlashes(a + @"\"));
    assert |p| == |a| + 1 == |b| + 1;
    assert p[..|a|] == Lower(ReplaceSlashes(a)) && p[..|b|] == Lower(ReplaceSlashes(b));
  }

  /** The prefix that is taken off a path is no part of a folder whose name starts with a brace. */
  lemma BraceStays(front: Path, rest: string) returns (y: Path)
    requires IsFront(front) && StartsWith(rest, '{')
    ensures StripExtended(front + rest) == y + rest && IsFront(y)
  {
    var p := front + rest;
    assert p[|front|] == '{' && p[|front|..] == rest;
    if EXTENDED_UNC <= p {
      assert |EXTENDED_UNC| <= |front|;
      y := @"\\" + front[|EXTENDED_UNC|..];
      assert p[|EXTENDED_UNC|..] == front[|EXTENDED_UNC|..] + rest;
      assert @"\\" + (front[|EXTENDED_UNC|..] + rest) == y + rest;
    } else if EXTENDED <= p {
      assert |EXTENDED| <= |front|;
      y := front[|EXTENDED|..];
      assert p[|EXTENDED|..] == y + rest;
    } else {
      y := front;
    }
  }

  function FrontOf(dir: Path): Path {
    var d := TrimSeparators(dir);
    if d == "" then "" else d + @"\"
  }

  lemma FrontJoined(root: Path, g: string, id: string, name: string)
    requires PlainName(g) && PlainName(id) && PlainName(name)
    ensures IsFront(FrontOf(root))
    ensures JoinWindows(JoinWindows(JoinWindows(root, g), id), name)
            == FrontOf(root) + (((g + @"\") + id) + @"\" + name)
  {
    JoinEnds(root, g);
    JoinEnds(JoinWindows(root, g), id);
    hide TrimSeparators, PlainName;
    assert JoinWindows(root, g) == FrontOf(root) + g;
    assert JoinWindows(JoinWindows(root, g), id) == FrontOf(root) + ((g + @"\") + id);
  }

  lemma InFolder(x: Path, g: string, id: string, name: string)
    ensures x + (((g + @"\") + id) + @"\" + name) == ((x + g) + @"\" + id) + @"\" + name
  {
  }

  /** A file in a folder in a folder called `g`. */
  lemma CanonicalInFolder(root: Path, g: string, id: string, name: string) returns (y: Path)
    requires PlainName(g) && StartsWith(g, '{') && PlainName(id) && PlainName(name)
    ensures IsFront(y)
    ensures CanonicalPath(JoinWindows(JoinWindows(JoinWindows(root, g), id), name))
            == Lower(ReplaceSlashes(((y + g) + @"\" + id) + @"\" + name))
  {
    var front, rest := FrontOf(root), ((g + @"\") + id) + @"\" + name;
    FrontJoined(root, g, id, name);
    assert rest[0] == g[0];
    y := BraceStays(front, rest);
    InFolder(front, g, id, name);
    InFolder(y, g, id, name);
    hide *;
    CanonicalOfJoin(((front + g) + @"\" + id) + @"\", name);
  }

  /** Folders of different names hold different files, whatever is in them. */
  lemma FoldersApart(root: Path, g: string, id: string, m: string, h: string, jd: string, n: string)
    requires PlainName(g) && StartsWith(g, '{') && PlainName(h) && StartsWith(h, '{')
    requires PlainName(id) && PlainName(jd) && PlainName(m) && PlainName(n)
    requires !EqualFold(g, h) || !EqualFold(id, jd)
    ensures !SamePath(JoinWindows(JoinWindows(JoinWindows(root, g), id), m),
                      JoinWindows(JoinWindows(JoinWindows(root, h), jd), n))
  {
    var y := CanonicalInFolder(root, g, id, m);
    var z := CanonicalInFolder(root, h, jd, n);
    hide CanonicalPath, JoinWindows, ReplaceSlashes, Lower, PlainName;
    if SamePath(JoinWindows(JoinWindows(JoinWindows(root, g), id), m),
                JoinWindows(JoinWindows(JoinWindows(root, h), jd), n)) {
      PeelThree(y, g, id, m, z, h, jd, n);
    }
  }

  lemma PeelThree(y: Path, g: string, id: string, m: string, z: Path, h: string, jd: string, n: string)
    requires IsFront(y) && IsFront(z)
    requires PlainName(g) && PlainName(h) && PlainName(id) && PlainName(jd) && PlainName(m) && PlainName(n)
    requires Lower(ReplaceSlashes(((y + g) + @"\" + id) + @"\" + m))
             == Lower(ReplaceSlashes(((z + h) + @"\" + jd) + @"\" + n))
    ensures EqualFold(g, h) && EqualFold(id, jd)
  {
    hide ReplaceSlashes, PlainName, Lower;
    var a, b := (y + g) + @"\" + id, (z + h) + @"\" + jd;
    PeelName(a + @"\", m, b + @"\", n);
    PeelSeparator(a, b);
    PeelName((y + g) + @"\", id, (z + h) + @"\", jd);
    PeelSeparator(y + g, z + h);
    PeelName(y, g, z, h);
  }
}
