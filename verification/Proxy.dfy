/** Applying and reverting proxy settings in a distribution (internal/proxy/apply.go). */
module Proxy {
  import opened Text
  import opened Managed

  type Path = string

  /** A file of the proxy: one that is wslkit's as a whole, or one with a block of wslkit's in it. */
  datatype File = File(path: Path, content: string, whole: bool)

  datatype Change = Change(file: File, before: string, after: string, existed: bool, removes: bool) {
    predicate Changed() {
      if removes then existed else before != after
    }
  }

  function Get(fs: map<Path, string>, p: Path): string {
    if p in fs then fs[p] else ""
  }

  /** The files of a distribution. A command run in it may fail; a write that fails has happened or has not. */
  class Guest {
    var files: map<Path, string>
    /** How many commands failed. */
    ghost var failures: nat

    constructor (files: map<Path, string>)
      ensures this.files == files && failures == 0
    {
      this.files, failures := files, 0;
    }

    method Read(p: Path) returns (ok: bool, existed: bool, content: string)
      modifies this`failures
      ensures failures == old(failures) + if ok then 0 else 1
      ensures ok ==> existed == (p in files) && content == Get(files, p)
    {
      ok, existed, content := *, p in files, Get(files, p);
      failures := failures + if ok then 0 else 1;
    }

    method Write(p: Path, content: string) returns (ok: bool)
      modifies this
      ensures failures == old(failures) + if ok then 0 else 1
      ensures files == old(files)[p := content] || (!ok && files == old(files))
    {
      ok := *;
      var done := *;
      if ok || done {
        files := files[p := content];
      }
      failures := failures + if ok then 0 else 1;
    }

    method Remove(p: Path) returns (ok: bool)
      modifies this
      ensures failures == old(failures) + if ok then 0 else 1
      ensures files == old(files) - {p} || (!ok && files == old(files))
    {
      ok := *;
      var done := *;
      if ok || done {
        files := files - {p};
      }
      failures := failures + if ok then 0 else 1;
    }
  }

  /* ---- what a change does ---- */

  function ApplyChange(f: File, fs: map<Path, string>): Change {
    var before := Get(fs, f.path);
    Change(f, before, if f.whole then f.content else Merge(before, f.content), f.path in fs, false)
  }

  /** The changes that revert, if any, one file. */
  function RevertChange(f: File, fs: map<Path, string>): seq<Change> {
    var before := Get(fs, f.path);
    if f.path !in fs then []
    else if f.whole then [Change(f, before, "", true, true)]
    else if !Unmerge(before).1 then []
    else [Change(f, before, Unmerge(before).0, true, false)]
  }

  function ApplyPlan(fl: seq<File>, fs: map<Path, string>): seq<Change> {
    if fl == [] then [] else ApplyPlan(fl[..|fl| - 1], fs) + [ApplyChange(fl[|fl| - 1], fs)]
  }

  function RevertPlan(fl: seq<File>, fs: map<Path, string>): seq<Change> {
    if fl == [] then [] else RevertPlan(fl[..|fl| - 1], fs) + RevertChange(fl[|fl| - 1], fs)
  }

  function Done(c: Change, fs: map<Path, string>): map<Path, string> {
    if !c.Changed() then fs
    else if c.removes then fs - {c.file.path}
    else fs[c.file.path := c.after]
  }

  function AllDone(cs: seq<Change>, fs: map<Path, string>): map<Path, string> {
    if cs == [] then fs else Done(cs[|cs| - 1], AllDone(cs[..|cs| - 1], fs))
  }

  /* ---- the code ---- */

  /** Fails for want of a file, or of an answer. */
  method PlanApply(g: Guest, fl: seq<File>) returns (ok: bool, cs: seq<Change>)
    modifies g`failures
    ensures ok <==> fl != [] && g.failures == old(g.failures)
    ensures ok ==> cs == ApplyPlan(fl, g.files)
  {
    hide Merge;
    cs := [];
    if |fl| == 0 {
      return false, cs;
    }
    for i := 0 to |fl|
      invariant cs == ApplyPlan(fl[..i], g.files) && g.failures == old(g.failures)
    {
      assert fl[..i + 1][..i] == fl[..i];
      var f := fl[i];
      var read, existed, before := g.Read(f.path);
      if !read {
        return false, [];
      }
      var after := f.content;
      if !f.whole {
        after := MergeBlock(before, f.content);
      }
      cs := cs + [Change(f, before, after, existed, false)];
    }
    assert fl[..|fl|] == fl;
    ok := true;
  }

  method PlanRevert(g: Guest, fl: seq<File>) returns (ok: bool, cs: seq<Change>)
    modifies g`failures
    ensures ok <==> g.failures == old(g.failures)
    ensures ok ==> cs == RevertPlan(fl, g.files)
  {
    hide Unmerge;
    cs := [];
    for i := 0 to |fl|
      invariant cs == RevertPlan(fl[..i], g.files) && g.failures == old(g.failures)
    {
      assert fl[..i + 1][..i] == fl[..i];
      var f := fl[i];
      var read, existed, before := g.Read(f.path);
      if !read {
        return false, [];
      }
      if !existed {
        continue;
      }
      if f.whole {
        cs := cs + [Change(f, before, "", true, true)];
        continue;
      }
      var after, found := UnmergeBlock(before);
      if !found {
        continue;
      }
      cs := cs + [Change(f, before, after, true, false)];
    }
    assert fl[..|fl|] == fl;
    ok := true;
  }

  /** Carries out the changes in order. A failure leaves those before it done, and its own done or not. */
  method Apply(g: Guest, cs: seq<Change>) returns (ok: bool, ghost n: nat)
    modifies g
    ensures n <= |cs| && g.files == AllDone(cs[..n], old(g.files))
    ensures ok <==> g.failures == old(g.failures)
    ensures ok ==> n == |cs|
  {
    n := 0;
    for i := 0 to |cs|
      invariant g.files == AllDone(cs[..i], old(g.files)) && g.failures == old(g.failures)
    {
      assert cs[..i + 1][..i] == cs[..i];
      var c := cs[i];
      if !c.Changed() {
        continue;
      }
      ghost var before := g.files;
      if c.removes {
        ok := g.Remove(c.file.path);
      } else {
        ok := g.Write(c.file.path, c.after);
      }
      if !ok {
        n := if g.files == before then i else i + 1;
        return;
      }
    }
    ok, n := true, |cs|;
    assert cs[..|cs|] == cs;
  }

  /* ---- file by file ---- */

  predicate Distinct(fl: seq<File>) {
    forall i, j :: 0 <= i < j < |fl| ==> fl[i].path != fl[j].path
  }

  predicate Lists(fl: seq<File>, p: Path) {
    exists i :: 0 <= i < |fl| && fl[i].path == p
  }

  /** Two states of the files agree on a path. */
  predicate Agree(fs: map<Path, string>, gs: map<Path, string>, p: Path) {
    (p in fs <==> p in gs) && Get(fs, p) == Get(gs, p)
  }

  /** A change decides about its own path only, from what is there. */
  lemma DoneAt(c: Change, fs: map<Path, string>, gs: map<Path, string>, p: Path)
    requires Agree(fs, gs, p)
    ensures c.file.path != p ==> Agree(Done(c, fs), gs, p)
    ensures Agree(Done(c, fs), Done(c, gs), p)
  {
  }

  predicate Apart(cs: seq<Change>) {
    forall i, j :: 0 <= i < j < |cs| ==> cs[i].file.path != cs[j].file.path
  }

  /** A path that no change is about is left alone. */
  lemma {:induction false} Elsewhere(cs: seq<Change>, fs: map<Path, string>, p: Path)
    requires forall i :: 0 <= i < |cs| ==> cs[i].file.path != p
    ensures Agree(AllDone(cs, fs), fs, p)
  {
    if cs != [] {
      Elsewhere(cs[..|cs| - 1], fs, p);
      DoneAt(cs[|cs| - 1], AllDone(cs[..|cs| - 1], fs), fs, p);
      hide Done;
    }
  }

  /** A path is left as the one change about it says. */
  lemma {:induction false} AtChange(cs: seq<Change>, fs: map<Path, string>, i: nat)
    requires Apart(cs) && i < |cs|
    ensures Agree(AllDone(cs, fs), Done(cs[i], fs), cs[i].file.path)
  {
    var p, k := cs[i].file.path, |cs| - 1;
    var before := AllDone(cs[..k], fs);
    if i == k {
      Elsewhere(cs[..k], fs, p);
      DoneAt(cs[k], before, fs, p);
    } else {
      AtChange(cs[..k], fs, i);
      DoneAt(cs[k], before, Done(cs[i], fs), p);
    }
    hide Done;
  }

  lemma {:induction false} ApplyPlanIs(fl: seq<File>, fs: map<Path, string>)
    ensures |ApplyPlan(fl, fs)| == |fl|
    ensures forall i :: 0 <= i < |fl| ==> ApplyPlan(fl, fs)[i] == ApplyChange(fl[i], fs)
  {
    hide ApplyChange;
    if fl != [] {
      ApplyPlanIs(fl[..|fl| - 1], fs);
    }
  }

  /** What one file holds after applying. */
  lemma Applied(fl: seq<File>, fs: map<Path, string>, i: nat)
    requires Distinct(fl) && i < |fl|
    ensures Agree(AllDone(ApplyPlan(fl, fs), fs), Done(ApplyChange(fl[i], fs), fs), fl[i].path)
  {
    ApplyPlanIs(fl, fs);
    hide ApplyPlan, AllDone, Done, Agree;
    AtChange(ApplyPlan(fl, fs), fs, i);
  }

  lemma NotApplied(fl: seq<File>, fs: map<Path, string>, p: Path)
    requires !Lists(fl, p)
    ensures Agree(AllDone(ApplyPlan(fl, fs), fs), fs, p)
  {
    ApplyPlanIs(fl, fs);
    hide ApplyPlan, AllDone, Done, Agree;
    Elsewhere(ApplyPlan(fl, fs), fs, p);
  }

  /** What a file is to hold: its content where it is wslkit's as a whole, and otherwise the lines that
      are the user's around a block with its content. */
  ghost predicate Holds(f: File, fs: map<Path, string>, gs: map<Path, string>) {
    if f.whole then Get(gs, f.path) == f.content && (f.content != "" ==> f.path in gs)
    else f.path in gs && exists before, after ::
           Around(Get(fs, f.path), before, after) && gs[f.path] == before + Marked(f.content) + after
  }

  /** A content between the markers, a line each. */
  function Marked(content: string): string {
    "# >>> wslkit proxy >>>\n" + TrimBreaks(content) + "\n# <<< wslkit proxy <<<\n"
  }

  lemma MarkedIsBlock(content: string)
    ensures Marked(content) == Block(content)
  {
    hide TrimBreaks;
    var b := TrimBreaks(content);
    assert "# >>> wslkit proxy >>>\n" == BEGIN + "\n" && "\n# <<< wslkit proxy <<<\n" == "\n" + END + "\n";
    assert (BEGIN + "\n") + b + ("\n" + END + "\n") == BEGIN + "\n" + b + "\n" + END + "\n";
  }

  /** After applying, every file holds what it is to hold, and all others are as they were. */
  lemma AppliedHolds(fl: seq<File>, fs: map<Path, string>)
    requires Distinct(fl)
    ensures var gs := AllDone(ApplyPlan(fl, fs), fs);
            && (forall i :: 0 <= i < |fl| ==> Holds(fl[i], fs, gs))
            && (forall p :: !Lists(fl, p) ==> Agree(gs, fs, p))
  {
    var gs := AllDone(ApplyPlan(fl, fs), fs);
    forall i | 0 <= i < |fl| ensures Holds(fl[i], fs, gs) {
      Applied(fl, fs, i);
      OneHolds(fl[i], fs, gs);
    }
    forall p | !Lists(fl, p) ensures Agree(gs, fs, p) {
      NotApplied(fl, fs, p);
    }
  }

  lemma OneHolds(f: File, fs: map<Path, string>, gs: map<Path, string>)
    requires Agree(gs, Done(ApplyChange(f, fs), fs), f.path)
    ensures Holds(f, fs, gs)
  {
    var x := Get(fs, f.path);
    MergeIs(x, f.content);
    NotEmpty(x, f.content);
    OwnIs(x);
    MarkedIsBlock(f.content);
    hide Merge, Own, Block, Around, Marked;
  }

  /** One file, applied and planned again. */
  lemma PlannedAgain(f: File, fs: map<Path, string>, gs: map<Path, string>)
    requires Agree(gs, Done(ApplyChange(f, fs), fs), f.path)
    ensures Get(gs, f.path) == ApplyChange(f, fs).after
    ensures ApplyChange(f, gs).Changed() <==> !f.whole && !Clean(f.content)
  {
    MergeTwice(Get(fs, f.path), f.content);
    hide Merge, Clean;
  }

  /** Every block to merge is free of the end marker. */
  predicate AllClean(fl: seq<File>) {
    forall i :: 0 <= i < |fl| && !fl[i].whole ==> Clean(fl[i].content)
  }

  /** Planning the same files again after applying them finds nothing to do, if and only if no block
      holds the end marker. */
  lemma SecondPlanIsIdle(fl: seq<File>, fs: map<Path, string>)
    requires Distinct(fl)
    ensures var gs := AllDone(ApplyPlan(fl, fs), fs);
            (forall c | c in ApplyPlan(fl, gs) :: !c.Changed()) <==> AllClean(fl)
  {
    var gs := AllDone(ApplyPlan(fl, fs), fs);
    ApplyPlanIs(fl, gs);
    hide ApplyPlan, AllDone, Clean, ApplyChange, Done, Agree;
    forall i | 0 <= i < |fl|
      ensures ApplyChange(fl[i], gs).Changed() <==> !fl[i].whole && !Clean(fl[i].content)
    {
      Applied(fl, fs, i);
      PlannedAgain(fl[i], fs, gs);
    }
    var plan := ApplyPlan(fl, gs);
    assert forall i :: 0 <= i < |fl| ==> plan[i] in plan;
  }

  /* ---- reverting ---- */

  /** Every change of a revert is of one of the files. */
  ghost predicate FromFile(fl: seq<File>, gs: map<Path, string>, c: Change) {
    exists i :: 0 <= i < |fl| && c.file == fl[i] && RevertChange(fl[i], gs) == [c]
  }

  lemma FromShorter(fl: seq<File>, gs: map<Path, string>, c: Change)
    requires fl != [] && FromFile(fl[..|fl| - 1], gs, c)
    ensures FromFile(fl, gs, c) && (Distinct(fl) ==> c.file.path != fl[|fl| - 1].path)
  {
    hide RevertChange;
    var some := fl[..|fl| - 1];
    var i :| 0 <= i < |some| && c.file == some[i] && RevertChange(some[i], gs) == [c];
    assert fl[i] == some[i];
  }

  lemma FromLast(fl: seq<File>, gs: map<Path, string>, c: Change)
    requires fl != [] && c in RevertChange(fl[|fl| - 1], gs)
    ensures FromFile(fl, gs, c)
  {
    RevertsItself(fl[|fl| - 1], gs);
    hide RevertChange;
    assert RevertChange(fl[|fl| - 1], gs) == [c];
  }

  lemma {:induction false} RevertsFiles(fl: seq<File>, gs: map<Path, string>)
    ensures forall c | c in RevertPlan(fl, gs) :: FromFile(fl, gs, c)
  {
    hide RevertChange, FromFile;
    if fl != [] {
      var some, last := fl[..|fl| - 1], fl[|fl| - 1];
      RevertsFiles(some, gs);
      forall c | c in RevertPlan(fl, gs) ensures FromFile(fl, gs, c) {
        if c in RevertPlan(some, gs) {
          FromShorter(fl, gs, c);
        } else {
          FromLast(fl, gs, c);
        }
      }
    }
  }

  lemma {:induction false} FilesReverted(fl: seq<File>, gs: map<Path, string>, i: nat, c: Change)
    requires i < |fl| && c in RevertChange(fl[i], gs)
    ensures c in RevertPlan(fl, gs)
  {
    hide RevertChange;
    if i < |fl| - 1 {
      FilesReverted(fl[..|fl| - 1], gs, i, c);
    }
  }

  lemma {:induction false} RevertsApart(fl: seq<File>, gs: map<Path, string>)
    requires Distinct(fl)
    ensures Apart(RevertPlan(fl, gs))
  {
    hide RevertChange, FromFile;
    if fl != [] {
      var some, last := fl[..|fl| - 1], fl[|fl| - 1];
      var before := RevertPlan(some, gs);
      RevertsApart(some, gs);
      RevertsFiles(some, gs);
      RevertsItself(last, gs);
      forall j | 0 <= j < |before| ensures before[j].file.path != last.path {
        assert before[j] in before;
        FromShorter(fl, gs, before[j]);
      }
      assert RevertPlan(fl, gs) == before + RevertChange(last, gs);
      hide Distinct, RevertPlan, Apart;
      ApartSnoc(before, RevertChange(last, gs), last.path);
    }
  }

  lemma ApartSnoc(cs: seq<Change>, last: seq<Change>, p: Path)
    requires Apart(cs) && |last| <= 1 && forall c | c in last :: c.file.path == p
    requires forall j :: 0 <= j < |cs| ==> cs[j].file.path != p
    ensures Apart(cs + last)
  {
    if |last| == 1 {
      assert last[0] in last;
    }
  }

  lemma RevertsItself(f: File, gs: map<Path, string>)
    ensures |RevertChange(f, gs)| <= 1 && forall c | c in RevertChange(f, gs) :: c.file == f
  {
  }

  /** What one file is after reverting. */
  function RevertedFile(f: File, gs: map<Path, string>): map<Path, string> {
    var cs := RevertChange(f, gs);
    if cs == [] then gs else Done(cs[0], gs)
  }

  lemma Reverted(fl: seq<File>, gs: map<Path, string>, i: nat)
    requires Distinct(fl) && i < |fl|
    ensures Agree(AllDone(RevertPlan(fl, gs), gs), RevertedFile(fl[i], gs), fl[i].path)
  {
    RevertsFiles(fl, gs);
    RevertsApart(fl, gs);
    RevertsItself(fl[i], gs);
    var plan := RevertPlan(fl, gs);
    var cs := RevertChange(fl[i], gs);
    hide RevertPlan, RevertChange, AllDone, Done, Agree;
    if cs == [] {
      forall k | 0 <= k < |plan| ensures plan[k].file.path != fl[i].path {
        assert plan[k] in plan;
        var j :| 0 <= j < |fl| && plan[k].file == fl[j] && RevertChange(fl[j], gs) == [plan[k]];
        assert j < i || i < j;
      }
      Elsewhere(plan, gs, fl[i].path);
    } else {
      FilesReverted(fl, gs, i, cs[0]);
      var k :| 0 <= k < |plan| && plan[k] == cs[0];
      AtChange(plan, gs, k);
    }
  }

  lemma NotReverted(fl: seq<File>, gs: map<Path, string>, p: Path)
    requires Distinct(fl) && !Lists(fl, p)
    ensures Agree(AllDone(RevertPlan(fl, gs), gs), gs, p)
  {
    RevertsFiles(fl, gs);
    var plan := RevertPlan(fl, gs);
    hide RevertPlan, AllDone, Agree, RevertChange;
    forall k | 0 <= k < |plan| ensures plan[k].file.path != p {
      assert plan[k] in plan && FromFile(fl, gs, plan[k]);
    }
    Elsewhere(plan, gs, p);
  }

  /** The same files, whatever is in them. */
  predicate SameFiles(fl: seq<File>, fl': seq<File>) {
    |fl| == |fl'| && forall i :: 0 <= i < |fl| ==> fl[i].path == fl'[i].path && fl[i].whole == fl'[i].whole
  }

  /** The user's text of a file: what stands around its block. */
  function Restored(x: string): string {
    Own(x).0 + Own(x).1
  }

  lemma OneFileBack(f: File, f': File, fs: map<Path, string>, gs: map<Path, string>)
    requires f.path == f'.path && f.whole == f'.whole && (f.whole || Clean(f.content))
    requires Agree(gs, Done(ApplyChange(f, fs), fs), f.path)
    ensures f.whole ==> f.path !in RevertedFile(f', gs)
    ensures !f.whole ==> f.path in RevertedFile(f', gs)
                         && Get(RevertedFile(f', gs), f.path) == Restored(Get(fs, f.path))
  {
    var x := Get(fs, f.path);
    if !f.whole {
      UnmergeRestores(x, f.content);
      NotEmpty(x, f.content);
    }
    hide Merge, Unmerge, Clean, Has;
  }

  lemma NotEmpty(x: string, b: string)
    ensures Merge(x, b) != ""
  {
    MergeIs(x, b);
  }

  /** Applying and then reverting, with whatever settings, deletes the files that are wslkit's own,
      gives the user's text of the others back, and leaves everything else alone. */
  lemma ApplyThenRevert(fl: seq<File>, fl': seq<File>, fs: map<Path, string>, p: Path)
    requires Distinct(fl) && SameFiles(fl, fl') && AllClean(fl)
    ensures var gs := AllDone(ApplyPlan(fl, fs), fs);
            var hs := AllDone(RevertPlan(fl', gs), gs);
            && (forall i :: 0 <= i < |fl| && fl[i].path == p ==>
                  if fl[i].whole then p !in hs else p in hs && Get(hs, p) == Restored(Get(fs, p)))
            && (!Lists(fl, p) ==> Agree(hs, fs, p))
  {
    var gs := AllDone(ApplyPlan(fl, fs), fs);
    var hs := AllDone(RevertPlan(fl', gs), gs);
    forall i | 0 <= i < |fl| && fl[i].path == p
      ensures if fl[i].whole then p !in hs else p in hs && Get(hs, p) == Restored(Get(fs, p))
    {
      Applied(fl, fs, i);
      Reverted(fl', gs, i);
      OneFileBack(fl[i], fl'[i], fs, gs);
    }
    if !Lists(fl, p) {
      NotApplied(fl, fs, p);
      NotReverted(fl', gs, p);
    }
  }

  /** A path's file is one that a revert puts back: not wslkit's own, there, without a block, and empty
      or ended by a line break; or it is wslkit's own and was not there. */
  predicate Plain(f: File, fs: map<Path, string>) {
    if f.whole then f.path !in fs
    else f.path in fs && !Has(fs[f.path], BEGIN) && (fs[f.path] == "" || EndsWith(fs[f.path], '\n'))
  }

  lemma PlainIsRestored(f: File, fs: map<Path, string>)
    requires !f.whole
    ensures Plain(f, fs) <==> f.path in fs && Restored(fs[f.path]) == fs[f.path]
  {
    if f.path in fs && Has(fs[f.path], BEGIN) {
      Shorter(fs[f.path]);
    }
    hide Has, Unmerge, LineEnded;
  }

  /** A file without its block is shorter. */
  lemma Shorter(x: string)
    requires Has(x, BEGIN)
    ensures |Unmerge(x).0| < |x|
  {
    OneLineMarkers();
    FindFirst(x, BEGIN);
    hide Find;
  }

  predicate PlainAt(fl: seq<File>, fs: map<Path, string>, p: Path) {
    forall i :: 0 <= i < |fl| && fl[i].path == p ==> Plain(fl[i], fs)
  }

  lemma ExactAt(fl: seq<File>, fl': seq<File>, fs: map<Path, string>, p: Path)
    requires Distinct(fl) && SameFiles(fl, fl') && AllClean(fl)
    ensures var gs := AllDone(ApplyPlan(fl, fs), fs);
            Agree(AllDone(RevertPlan(fl', gs), gs), fs, p) <==> PlainAt(fl, fs, p)
  {
    ApplyThenRevert(fl, fl', fs, p);
    hide ApplyPlan, RevertPlan, AllDone, AllClean, SameFiles, Restored;
    if Lists(fl, p) {
      var i :| 0 <= i < |fl| && fl[i].path == p;
      if !fl[i].whole {
        PlainIsRestored(fl[i], fs);
      }
      assert forall j :: 0 <= j < |fl| && fl[j].path == p ==> j == i;
      assert PlainAt(fl, fs, p) <==> Plain(fl[i], fs);
    }
  }

  predicate AllPlain(fl: seq<File>, fs: map<Path, string>) {
    forall i :: 0 <= i < |fl| ==> Plain(fl[i], fs)
  }

  lemma PlainEverywhere(fl: seq<File>, fs: map<Path, string>)
    ensures (forall p :: PlainAt(fl, fs, p)) <==> AllPlain(fl, fs)
  {
    hide Plain;
    if forall p :: PlainAt(fl, fs, p) {
      forall i | 0 <= i < |fl| ensures Plain(fl[i], fs) {
        assert PlainAt(fl, fs, fl[i].path);
      }
    }
  }

  /** Two states of the files that agree on every path. */
  ghost predicate SameContents(fs: map<Path, string>, gs: map<Path, string>) {
    forall p :: Agree(fs, gs, p)
  }

  /** Reverting restores the distribution's files exactly, if and only if each was one of those. */
  lemma RevertIsExact(fl: seq<File>, fl': seq<File>, fs: map<Path, string>)
    requires Distinct(fl) && SameFiles(fl, fl') && AllClean(fl)
    ensures var gs := AllDone(ApplyPlan(fl, fs), fs);
            SameContents(AllDone(RevertPlan(fl', gs), gs), fs) <==> AllPlain(fl, fs)
  {
    var gs := AllDone(ApplyPlan(fl, fs), fs);
    var hs := AllDone(RevertPlan(fl', gs), gs);
    forall p ensures Agree(hs, fs, p) <==> PlainAt(fl, fs, p) {
      ExactAt(fl, fl', fs, p);
    }
    hide AllDone, RevertPlan, ApplyPlan, Agree, PlainAt, AllPlain;
    PlainEverywhere(fl, fs);
  }
}
