/** Counting nested directories once (internal/disk/usage.go). */
module Usage {
  import opened Words

  datatype Entry = Entry(path: string, bytes: nat, name: string, containsOthers: bool)

  /* ---- paths of the guest ---- */

  predicate PathContains(prefix: string, path: string) {
    if prefix == path then false
    else if prefix == "/" then path != "/"
    else prefix + "/" <= path
  }

  predicate AtOrUnder(dir: string, path: string) {
    path == dir || PathContains(dir, path)
  }

  /** A file name. */
  predicate IsPart(s: string) {
    s != "" && '/' !in s
  }

  function Slashed(parts: seq<string>): string {
    if parts == [] then "" else "/" + parts[0] + Slashed(parts[1..])
  }

  /** The path made of these file names; that of none is the root. */
  function PathOf(parts: seq<string>): string {
    if parts == [] then "/" else Slashed(parts)
  }

  lemma {:induction false} SlashedAppend(a: seq<string>, b: seq<string>)
    ensures Slashed(a + b) == Slashed(a) + Slashed(b)
  {
    if a == [] {
      assert a + b == b;
    } else {
      assert (a + b)[1..] == a[1..] + b;
      SlashedAppend(a[1..], b);
    }
  }

  /** Two texts after names without a slash are the same only after the same name. */
  lemma SameName(x: string, a: string, y: string, b: string)
    requires '/' !in x && '/' !in y && a != "" && a[0] == '/' && (b == "" || b[0] == '/')
    requires x + a <= y + b
    ensures x == y && a <= b
  {
    var s, t := x + a, y + b;
    assert s == t[..|s|];
    assert s[..|x|] == x && t[..|y|] == y && s[|x|..] == a && t[|y|..] == b;
  }

  lemma {:induction false} SlashedPrefix(a: seq<string>, b: seq<string>)
    requires (forall p | p in a :: IsPart(p)) && (forall p | p in b :: IsPart(p))
    ensures Slashed(a) + "/" <= Slashed(b) <==> a < b
  {
    if a < b {
      var rest := b[|a|..];
      assert b == a + rest && rest != [];
      SlashedAppend(a, rest);
      assert Slashed(rest)[0] == '/';
    }
    if Slashed(a) + "/" <= Slashed(b) && a != [] {
      assert a[0] in a && b[0] in b;
      var ta, tb := Slashed(a[1..]), Slashed(b[1..]);
      assert (Slashed(a) + "/")[1..] == a[0] + (ta + "/") && Slashed(b)[1..] == b[0] + tb;
      SameName(a[0], ta + "/", b[0], tb);
      SlashedPrefix(a[1..], b[1..]);
      assert [a[0]] + a[1..] == a && [b[0]] + b[1..] == b;
    }
  }

  lemma SlashedLong(a: seq<string>)
    requires forall p | p in a :: IsPart(p)
    ensures a != [] ==> |Slashed(a)| >= 2
  {
    if a != [] {
      assert IsPart(a[0]);
    }
  }

  lemma SamePath(a: seq<string>, b: seq<string>)
    requires (forall p | p in a :: IsPart(p)) && (forall p | p in b :: IsPart(p))
    requires Slashed(a) == Slashed(b)
    ensures a == b
  {
    if a == [] {
      SlashedLong(b);
    } else {
      SlashedLong(a);
      assert a[0] in a && b[0] in b;
      var ta, tb := Slashed(a[1..]), Slashed(b[1..]);
      assert Slashed(a)[1..] == a[0] + ta && Slashed(b)[1..] == b[0] + tb;
      assert a[0] + (ta + "/") == b[0] + (tb + "/") by {
        assert a[0] + (ta + "/") == a[0] + ta + "/";
        assert b[0] + (tb + "/") == b[0] + tb + "/";
      }
      SameName(a[0], ta + "/", b[0], tb + "/");
      assert ta == (ta + "/")[..|ta|] && tb == (tb + "/")[..|tb|];
      SamePath(a[1..], b[1..]);
      assert [a[0]] + a[1..] == a && [b[0]] + b[1..] == b;
    }
  }

  /** The code's test on strings is the one on file names: a proper ancestor. */
  lemma ContainsIsAncestor(a: seq<string>, b: seq<string>)
    requires (forall p | p in a :: IsPart(p)) && (forall p | p in b :: IsPart(p))
    ensures PathContains(PathOf(a), PathOf(b)) <==> a < b
    ensures AtOrUnder(PathOf(a), PathOf(b)) <==> a <= b
  {
    SlashedPrefix(a, b);
    SlashedLong(a);
    SlashedLong(b);
    if PathOf(a) == PathOf(b) && a != [] && b != [] {
      SamePath(a, b);
    }
    assert a <= b && !(a < b) ==> a == b[..|a|] == b;
  }

  lemma Transitive(a: string, b: string, c: string)
    requires a != "" && b != "" && AtOrUnder(a, b) && AtOrUnder(b, c)
    ensures AtOrUnder(a, c)
    ensures PathContains(a, b) ==> PathContains(a, c)
  {
  }

  /** Of two directories that hold the same file, one is the other or holds it. */
  lemma Comparable(a: string, b: string, f: string)
    requires a != "" && b != "" && AtOrUnder(a, f) && AtOrUnder(b, f)
    ensures a == b || PathContains(a, b) || PathContains(b, a)
  {
    if a != "/" && b != "/" && a != f && b != f {
      assert f[..|a| + 1] == a + "/" && f[..|b| + 1] == b + "/";
      if |a| == |b| {
        assert a == f[..|a|] && b == f[..|b|];
      } else if |a| < |b| {
        assert b == f[..|b|];
        assert b[..|a| + 1] == f[..|a| + 1];
      } else {
        assert a == f[..|a|];
        assert a[..|b| + 1] == f[..|b| + 1];
      }
    }
  }

  /* ---- what the files take up ---- */

  /** A file of the guest and its size. */
  datatype File = File(path: string, bytes: nat)

  /** The size of the files picked out. */
  ghost function Size(files: seq<File>, picked: string -> bool): nat {
    if files == [] then 0
    else (if picked(files[0].path) then files[0].bytes else 0) + Size(files[1..], picked)
  }

  /** The total under a directory, as du reports it. */
  ghost function BytesUnder(files: seq<File>, dir: string): nat {
    Size(files, f => AtOrUnder(dir, f))
  }

  lemma {:induction false} SizeSame(files: seq<File>, p: string -> bool, q: string -> bool)
    requires forall f :: p(f) <==> q(f)
    ensures Size(files, p) == Size(files, q)
  {
    if files != [] {
      SizeSame(files[1..], p, q);
    }
  }

  lemma {:induction false} SizeGrows(files: seq<File>, p: string -> bool, q: string -> bool)
    requires forall f :: p(f) ==> q(f)
    ensures Size(files, p) <= Size(files, q)
  {
    if files != [] {
      SizeGrows(files[1..], p, q);
    }
  }

  lemma {:induction false} SizeSplits(files: seq<File>, p: string -> bool, q: string -> bool, r: string -> bool)
    requires forall f :: (r(f) <==> p(f) || q(f)) && !(p(f) && q(f))
    ensures Size(files, r) == Size(files, p) + Size(files, q)
  {
    if files != [] {
      SizeSplits(files[1..], p, q, r);
    }
  }

  /* ---- entries ---- */

  /** Every entry has a path and the size du gives it. */
  ghost predicate Measured(es: seq<Entry>, files: seq<File>) {
    forall i :: 0 <= i < |es| ==> es[i].path != "" && es[i].bytes == BytesUnder(files, es[i].path)
  }

  /** Entry `i` is inside another one of the directory. */
  predicate Nested(es: seq<Entry>, dir: string, i: nat)
    requires i < |es|
  {
    exists j :: 0 <= j < |es| && AtOrUnder(dir, es[j].path) && PathContains(es[j].path, es[i].path)
  }

  /** Entry `i` is counted for the directory. */
  predicate Counts(es: seq<Entry>, dir: string, i: nat)
    requires i < |es|
  {
    AtOrUnder(dir, es[i].path) && !Nested(es, dir, i)
  }

  /** An earlier entry has the same path. */
  predicate Repeats(es: seq<Entry>, i: nat)
    requires i < |es|
  {
    exists j :: 0 <= j < i && es[j].path == es[i].path
  }

  /** What the first `n` entries add up to. */
  function Sum(es: seq<Entry>, dir: string, n: nat): nat
    requires n <= |es|
  {
    if n == 0 then 0 else Sum(es, dir, n - 1) + if Counts(es, dir, n - 1) then es[n - 1].bytes else 0
  }

  /** The part of it that is there twice. */
  function Excess(es: seq<Entry>, dir: string, n: nat): nat
    requires n <= |es|
  {
    if n == 0 then 0
    else Excess(es, dir, n - 1) + if Counts(es, dir, n - 1) && Repeats(es, n - 1) then es[n - 1].bytes else 0
  }

  /** The file is in one of the first `n` entries that count. */
  predicate Seen(es: seq<Entry>, dir: string, n: nat, f: string)
    requires n <= |es|
  {
    exists i :: 0 <= i < n && Counts(es, dir, i) && AtOrUnder(es[i].path, f)
  }

  /** The file is in an entry at or under the directory. */
  predicate InUnion(es: seq<Entry>, dir: string, f: string) {
    exists i :: 0 <= i < |es| && AtOrUnder(dir, es[i].path) && AtOrUnder(es[i].path, f)
  }

  /** The size of the union of the entries' subtrees, for those at or under the directory. */
  ghost function UnionSize(es: seq<Entry>, files: seq<File>, dir: string): nat {
    Size(files, f => InUnion(es, dir, f))
  }

  /** Two entries that count hold the same file only if they are the same directory. */
  lemma CountedApart(es: seq<Entry>, files: seq<File>, dir: string, i: nat, j: nat, f: string)
    requires Measured(es, files) && i < |es| && j < |es|
    requires Counts(es, dir, i) && Counts(es, dir, j) && AtOrUnder(es[i].path, f) && AtOrUnder(es[j].path, f)
    ensures es[i].path == es[j].path
  {
    Comparable(es[i].path, es[j].path, f);
  }

  lemma SeenNext(es: seq<Entry>, files: seq<File>, dir: string, n: nat, f: string)
    requires Measured(es, files) && n < |es|
    ensures Seen(es, dir, n + 1, f) <==> Seen(es, dir, n, f) || (Counts(es, dir, n) && AtOrUnder(es[n].path, f))
    ensures Counts(es, dir, n) && AtOrUnder(es[n].path, f) ==> (Seen(es, dir, n, f) <==> Repeats(es, n))
  {
    if Seen(es, dir, n, f) && Counts(es, dir, n) && AtOrUnder(es[n].path, f) {
      var i :| 0 <= i < n && Counts(es, dir, i) && AtOrUnder(es[i].path, f);
      CountedApart(es, files, dir, i, n, f);
    }
    if Repeats(es, n) && Counts(es, dir, n) && AtOrUnder(es[n].path, f) {
      var j :| 0 <= j < n && es[j].path == es[n].path;
      hide AtOrUnder, PathContains;
      assert Counts(es, dir, j);
    }
  }

  lemma {:induction false} SumIs(es: seq<Entry>, files: seq<File>, dir: string, n: nat)
    requires Measured(es, files) && n <= |es|
    ensures Sum(es, dir, n) == Size(files, f => Seen(es, dir, n, f)) + Excess(es, dir, n)
  {
    var seen := f => Seen(es, dir, n, f);
    if n == 0 {
      SizeNone(files, seen);
    } else {
      var before := f => Seen(es, dir, n - 1, f);
      var mine := f => AtOrUnder(es[n - 1].path, f);
      hide PathContains, Nested;
      SumIs(es, files, dir, n - 1);
      forall f ensures (seen(f) <==> before(f) || (Counts(es, dir, n - 1) && mine(f)))
                       && (Counts(es, dir, n - 1) && mine(f) ==> (before(f) <==> Repeats(es, n - 1))) {
        SeenNext(es, files, dir, n - 1, f);
      }
      assert es[n - 1].bytes == Size(files, mine);
      hide Seen, Counts, Repeats, AtOrUnder, Measured, BytesUnder;
      if Counts(es, dir, n - 1) && !Repeats(es, n - 1) {
        SizeSplits(files, before, mine, seen);
      } else {
        SizeSame(files, before, seen);
      }
    }
  }

  lemma {:induction false} SizeNone(files: seq<File>, p: string -> bool)
    requires forall f :: !p(f)
    ensures Size(files, p) == 0
  {
    if files != [] {
      SizeNone(files[1..], p);
    }
  }

  /** A file in an entry is in one that counts. */
  lemma {:induction false} OutermostCounts(es: seq<Entry>, files: seq<File>, dir: string, i: nat, f: string)
    requires Measured(es, files) && i < |es| && AtOrUnder(dir, es[i].path) && AtOrUnder(es[i].path, f)
    ensures Seen(es, dir, |es|, f)
    decreases |es[i].path|, if es[i].path == "/" then 0 else 1
  {
    if Nested(es, dir, i) {
      var j :| 0 <= j < |es| && AtOrUnder(dir, es[j].path) && PathContains(es[j].path, es[i].path);
      Transitive(es[j].path, es[i].path, f);
      OutermostCounts(es, files, dir, j, f);
    }
  }

  lemma SeenIsUnion(es: seq<Entry>, files: seq<File>, dir: string, f: string)
    requires Measured(es, files)
    ensures Seen(es, dir, |es|, f) <==> InUnion(es, dir, f)
  {
    if InUnion(es, dir, f) {
      var i :| 0 <= i < |es| && AtOrUnder(dir, es[i].path) && AtOrUnder(es[i].path, f);
      OutermostCounts(es, files, dir, i, f);
    }
  }

  /** What the code adds up is the size of the union of the entries, plus every entry that counts and
      has the path of an earlier one. */
  lemma SumIsUnion(es: seq<Entry>, files: seq<File>, dir: string)
    requires Measured(es, files)
    ensures Sum(es, dir, |es|) == UnionSize(es, files, dir) + Excess(es, dir, |es|)
  {
    var seen, all := f => Seen(es, dir, |es|, f), f => InUnion(es, dir, f);
    forall f ensures seen(f) <==> all(f) {
      SeenIsUnion(es, files, dir, f);
    }
    hide Seen, InUnion;
    SumIs(es, files, dir, |es|);
    SizeSame(files, seen, all);
  }

  lemma {:induction false} ExcessIs(es: seq<Entry>, dir: string, n: nat)
    requires n <= |es|
    ensures Excess(es, dir, n) == 0
            <==> forall i :: 0 <= i < n && Counts(es, dir, i) && Repeats(es, i) ==> es[i].bytes == 0
  {
    hide Counts, Repeats;
    if n > 0 {
      ExcessIs(es, dir, n - 1);
    }
  }

  /** Each byte is counted once, if and only if no entry that takes up space and counts has the path of
      an earlier one: equal paths do not contain each other. */
  lemma CountedOnce(es: seq<Entry>, files: seq<File>, dir: string)
    requires Measured(es, files)
    ensures Sum(es, dir, |es|) == UnionSize(es, files, dir)
            <==> forall i :: 0 <= i < |es| && Counts(es, dir, i) && Repeats(es, i) ==> es[i].bytes == 0
  {
    SumIsUnion(es, files, dir);
    ExcessIs(es, dir, |es|);
  }

  predicate Distinct(es: seq<Entry>) {
    forall i, j :: 0 <= i < j < |es| ==> es[i].path != es[j].path
  }

  lemma DistinctIsExact(es: seq<Entry>, files: seq<File>, dir: string)
    requires Measured(es, files) && Distinct(es)
    ensures Sum(es, dir, |es|) == UnionSize(es, files, dir)
  {
    CountedOnce(es, files, dir);
  }

  function Paths(es: seq<Entry>): set<string> {
    set e | e in es :: e.path
  }

  /** The order of the entries does not matter. */
  lemma OrderIsFree(es: seq<Entry>, fs: seq<Entry>, files: seq<File>, dir: string)
    requires Measured(es, files) && Measured(fs, files) && Distinct(es) && Distinct(fs)
    requires Paths(es) == Paths(fs)
    ensures Sum(es, dir, |es|) == Sum(fs, dir, |fs|)
  {
    DistinctIsExact(es, files, dir);
    DistinctIsExact(fs, files, dir);
    var p, q := f => InUnion(es, dir, f), f => InUnion(fs, dir, f);
    forall f ensures p(f) <==> q(f) {
      SameUnion(es, fs, dir, f);
      SameUnion(fs, es, dir, f);
    }
    SizeSame(files, p, q);
  }

  lemma SameUnion(es: seq<Entry>, fs: seq<Entry>, dir: string, f: string)
    requires Paths(es) == Paths(fs)
    ensures InUnion(es, dir, f) ==> InUnion(fs, dir, f)
  {
    if InUnion(es, dir, f) {
      var i :| 0 <= i < |es| && AtOrUnder(dir, es[i].path) && AtOrUnder(es[i].path, f);
      assert es[i] in es && es[i].path in Paths(es);
      assert es[i].path in Paths(fs);
      var e :| e in fs && e.path == es[i].path;
      var j :| 0 <= j < |fs| && fs[j] == e;
      assert AtOrUnder(dir, fs[j].path) && AtOrUnder(fs[j].path, f);
    }
  }

  /** No more of a directory is explained than there is. */
  lemma AtMostTheDirectory(es: seq<Entry>, files: seq<File>, dir: string)
    requires Measured(es, files) && Distinct(es) && dir != ""
    ensures Sum(es, dir, |es|) <= BytesUnder(files, dir)
  {
    DistinctIsExact(es, files, dir);
    var p, q := f => InUnion(es, dir, f), f => AtOrUnder(dir, f);
    forall f ensures p(f) ==> q(f) {
      if InUnion(es, dir, f) {
        var i :| 0 <= i < |es| && AtOrUnder(dir, es[i].path) && AtOrUnder(es[i].path, f);
        Transitive(dir, es[i].path, f);
      }
    }
    SizeGrows(files, p, q);
  }

  /* ---- the code ---- */

  /** An entry as it is marked. */
  predicate Marked(e: Entry, before: seq<Entry>, i: nat)
    requires i < |before|
  {
    e == before[i].(containsOthers := before[i].containsOthers || Encloses(before, i, |before|))
  }

  /** Entry `i` holds one of the first `n`. */
  predicate Encloses(es: seq<Entry>, i: nat, n: nat)
    requires i < |es| && n <= |es|
  {
    exists j :: 0 <= j < n && PathContains(es[i].path, es[j].path)
  }

  /** Entry `i` is inside one of the first `n`. */
  predicate Inside(es: seq<Entry>, i: nat, n: nat)
    requires i < |es| && n <= |es|
  {
    exists j :: 0 <= j < n && PathContains(es[j].path, es[i].path)
  }

  /** In the root every entry is at or under the directory. */
  lemma RootCounts(es: seq<Entry>, i: nat)
    requires i < |es|
    ensures Counts(es, "/", i) <==> !Inside(es, i, |es|)
  {
    forall j | 0 <= j < |es| ensures AtOrUnder("/", es[j].path) {
    }
    if Inside(es, i, |es|) {
      var j :| 0 <= j < |es| && PathContains(es[j].path, es[i].path);
      assert AtOrUnder("/", es[j].path);
    }
  }

  lemma SumNext(es: seq<Entry>, dir: string, n: nat)
    requires n < |es|
    ensures Sum(es, dir, n + 1) == Sum(es, dir, n) + if Counts(es, dir, n) then es[n].bytes else 0
  {
  }

  /** A sum of 64 bits. */
  function Wrapped(n: nat): nat {
    n % TWO64
  }

  lemma WrappedOn(n: nat, more: nat)
    ensures Wrapped(Wrapped(n) + more) == Wrapped(n + more)
  {
  }

  lemma NothingSummed(es: seq<Entry>)
    ensures Wrapped(Sum(es, "/", 0)) == 0
  {
  }

  lemma TotalNext(es: seq<Entry>, i: nat, inside: bool)
    requires i < |es| && (inside <==> Inside(es, i, |es|))
    ensures var total := Wrapped(Sum(es, "/", i));
            Wrapped(Sum(es, "/", i + 1)) == if inside then total else Wrapped(total + es[i].bytes)
  {
    hide Counts, Inside, Sum, Wrapped;
    RootCounts(es, i);
    SumNext(es, "/", i);
    WrappedOn(Sum(es, "/", i), es[i].bytes);
  }

  /** The first `n` entries are marked, the others are as they were. */
  ghost predicate MarkedUpTo(now: seq<Entry>, es: seq<Entry>, n: nat) {
    && n <= |now| == |es|
    && (forall k :: 0 <= k < n ==> Marked(now[k], es, k))
    && (forall k :: n <= k < |es| ==> now[k] == es[k])
  }

  lemma MarkedOn(now: seq<Entry>, es: seq<Entry>, i: nat, e: Entry)
    requires i < |now| && MarkedUpTo(now, es, i) && Marked(e, es, i)
    ensures MarkedUpTo(now[i := e], es, i + 1)
    ensures e.path == es[i].path && e.bytes == es[i].bytes
  {
    hide Inside, Encloses;
  }

  lemma MarkedPaths(now: seq<Entry>, es: seq<Entry>, n: nat)
    requires MarkedUpTo(now, es, n)
    ensures forall k :: 0 <= k < |es| ==> now[k].path == es[k].path
  {
    hide Inside, Encloses;
  }

  /** Marks, in place, the entries that hold others, and adds up the outermost. */
  method AccountForNesting(entries: array<Entry>) returns (total: nat)
    modifies entries
    ensures total == Wrapped(Sum(old(entries[..]), "/", entries.Length))
    ensures forall i :: 0 <= i < entries.Length ==> Marked(entries[i], old(entries[..]), i)
  {
    ghost var es := entries[..];
    NothingSummed(es);
    hide PathContains, Counts, Inside, Encloses, Marked, Sum, Wrapped;
    total := 0;
    for i := 0 to entries.Length
      invariant MarkedUpTo(entries[..], es, i)
      invariant total == Wrapped(Sum(es, "/", i))
    {
      hide MarkedUpTo;
      ghost var now := entries[..];
      MarkedPaths(now, es, i);
      UnmarkedAt(now, es, i);
      var inside := MarkOne(entries, es, i);
      MarkedOn(now, es, i, entries[i]);
      TotalNext(es, i, inside);
      if !inside {
        total := Wrapped(total + entries[i].bytes);
      }
    }
  }

  lemma UnmarkedAt(now: seq<Entry>, es: seq<Entry>, n: nat)
    requires MarkedUpTo(now, es, n) && n < |es|
    ensures now[n] == es[n]
  {
  }

  /** One round: whether entry `i` is inside another, and its mark. */
  method MarkOne(entries: array<Entry>, ghost es: seq<Entry>, i: nat) returns (inside: bool)
    requires i < entries.Length == |es|
    requires forall k :: 0 <= k < |es| ==> entries[..][k].path == es[k].path
    requires entries[i] == es[i]
    modifies entries
    ensures inside <==> Inside(es, i, |es|)
    ensures Marked(entries[i], es, i)
    ensures entries[..] == old(entries[..])[i := entries[i]]
  {
    inside := false;
    for j := 0 to entries.Length
      invariant inside <==> Inside(es, i, j)
      invariant entries[i] == es[i].(containsOthers := es[i].containsOthers || Encloses(es, i, j))
      invariant forall k :: 0 <= k < |es| && k != i ==> entries[k] == old(entries[k])
    {
      if i == j {
        continue;
      }
      if PathContains(entries[j].path, entries[i].path) {
        inside := true;
      }
      if PathContains(entries[i].path, entries[j].path) {
        entries[i] := entries[i].(containsOthers := true);
      }
    }
  }

  /** The largest of the first `n` entries that count is `bytes` large and, unless nothing takes up
      space, the first of that size is called `name`. */
  predicate Largest(es: seq<Entry>, dir: string, n: nat, bytes: nat, name: string)
    requires n <= |es|
  {
    && (forall i :: 0 <= i < n && Counts(es, dir, i) ==> es[i].bytes <= bytes)
    && (bytes == 0 ==> name == "")
    && (bytes > 0 ==> exists i :: 0 <= i < n && Counts(es, dir, i) && es[i].bytes == bytes && es[i].name == name
                                  && forall k :: 0 <= k < i && Counts(es, dir, k) ==> es[k].bytes < bytes)
  }

  method IsNested(dir: string, entries: seq<Entry>, i: nat) returns (nested: bool)
    requires i < |entries|
    ensures nested == Nested(entries, dir, i)
  {
    nested := false;
    for j := 0 to |entries|
      invariant !exists k :: 0 <= k < j && AtOrUnder(dir, entries[k].path)
                             && PathContains(entries[k].path, entries[i].path)
    {
      var other := entries[j];
      if other.path != entries[i].path && PathContains(other.path, entries[i].path)
         && (other.path == dir || PathContains(dir, other.path)) {
        return true;
      }
    }
  }

  method Attribute(dir: string, entries: seq<Entry>) returns (total: nat, largest: string, ghost largestBytes: nat)
    ensures total == Wrapped(Sum(entries, dir, |entries|))
    ensures Largest(entries, dir, |entries|, largestBytes, largest)
  {
    hide PathContains, Nested, Largest;
    total, largest := 0, "";
    var most := 0;
    NoneLargest(entries, dir);
    for i := 0 to |entries|
      invariant total == Wrapped(Sum(entries, dir, i))
      invariant Largest(entries, dir, i, most, largest)
    {
      LargestNext(entries, dir, i, most, largest);
      WrappedOn(Sum(entries, dir, i), entries[i].bytes);
      var en := entries[i];
      if en.path != dir && !PathContains(dir, en.path) {
        continue;
      }
      var nested := IsNested(dir, entries, i);
      if nested {
        continue;
      }
      total := Wrapped(total + en.bytes);
      if en.bytes > most {
        most, largest := en.bytes, en.name;
      }
    }
    largestBytes := most;
  }

  lemma NoneLargest(es: seq<Entry>, dir: string)
    ensures Largest(es, dir, 0, 0, "")
  {
  }

  lemma LargestNext(es: seq<Entry>, dir: string, n: nat, bytes: nat, name: string)
    requires n < |es| && Largest(es, dir, n, bytes, name)
    ensures !Counts(es, dir, n) || es[n].bytes <= bytes ==> Largest(es, dir, n + 1, bytes, name)
    ensures Counts(es, dir, n) && es[n].bytes > bytes ==> Largest(es, dir, n + 1, es[n].bytes, es[n].name)
  {
    hide Counts;
  }
}
