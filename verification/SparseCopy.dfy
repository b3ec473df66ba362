/** Copying a sparse disk file (internal/disk/copy_windows.go). Offsets and lengths are below 2^63,
    as the 64-bit file offsets of Windows are. */
module SparseCopy {
  import opened Words

  const COPY_CHUNK: nat := 0x10_0000
  const PAGE: nat := 64

  datatype Range = Range(offset: int, length: int) {
    function End(): int { offset + length }
    predicate Has(x: int) { offset <= x < End() }
  }

  predicate Covered(rs: seq<Range>, x: int) {
    exists j :: 0 <= j < |rs| && rs[j].Has(x)
  }

  /** Nonempty ranges from `from` on, in order and apart. */
  predicate Ordered(rs: seq<Range>, from: int) {
    && (forall j :: 0 <= j < |rs| ==> from <= rs[j].offset && 0 < rs[j].length && rs[j].End() < TWO63)
    && (forall j, k :: 0 <= j < k < |rs| ==> rs[j].End() <= rs[k].offset)
  }

  /** Where the ranges end. */
  function EndOf(rs: seq<Range>, from: int): int {
    if rs == [] then from else rs[|rs| - 1].End()
  }

  /** The ranges hold allocated bytes only. */
  predicate Within(rs: seq<Range>, held: set<int>) {
    forall j :: 0 <= j < |rs| ==> forall x :: rs[j].offset <= x < rs[j].End() ==> x in held
  }

  /** The ranges hold every allocated byte of a part of the file. */
  predicate CoverAll(rs: seq<Range>, held: set<int>, from: int, limit: int) {
    forall x | x in held :: from <= x < limit ==> Covered(rs, x)
  }

  /** A page as the file system answers it. */
  predicate Honest(page: seq<Range>, more: bool, held: set<int>, q: Range) {
    && Ordered(page, q.offset) && |page| <= PAGE && Within(page, held)
    && CoverAll(page, held, q.offset, if more then EndOf(page, q.offset) else q.End())
  }

  /** The file being copied. A byte that is not allocated reads as zero. */
  class Source {
    const bytes: seq<byte>
    const held: set<int>
    var pos: int
    /** Some call has failed, or a read came back with nothing. */
    ghost var failed: bool
    /** A page was empty although there was more. */
    ghost var silent: bool

    predicate Valid() {
      && |bytes| < TWO63
      && forall x :: 0 <= x < |bytes| && x !in held ==> bytes[x] == 0
    }

    constructor (bytes: seq<byte>, held: set<int>)
      ensures this.bytes == bytes && this.held == held && !failed && !silent
    {
      this.bytes, this.held, pos := bytes, held, 0;
      failed, silent := false, false;
    }

    method Size() returns (ok: bool, size: nat)
      modifies this`failed
      ensures ok ==> size == |bytes|
      ensures failed == (old(failed) || !ok)
    {
      ok, size := *, |bytes|;
      failed := failed || !ok;
    }

    /** One page of the ranges of a part of the file; `more` says that the page was too small. */
    method Query(q: Range) returns (ok: bool, more: bool, page: seq<Range>)
      modifies this`failed, this`silent
      ensures ok ==> Honest(page, more, held, q)
      ensures failed == (old(failed) || !ok) && silent == (old(silent) || (ok && more && page == []))
    {
      ok, more, page := *, *, *;
      ok := ok && Honest(page, more, held, q);
      failed, silent := failed || !ok, silent || (ok && more && page == []);
    }

    method Seek(offset: int) returns (ok: bool)
      modifies this`pos, this`failed
      ensures ok ==> pos == offset
      ensures failed == (old(failed) || !ok)
    {
      ok, pos := *, offset;
      failed := failed || !ok;
    }

    /** Up to `n` bytes from the current position on. */
    method Read(n: nat) returns (ok: bool, data: seq<byte>)
      modifies this`pos, this`failed
      ensures ok ==> |data| <= n
      ensures ok && |data| > 0 ==> 0 <= old(pos) && old(pos) + |data| <= |bytes|
                                   && data == bytes[old(pos)..old(pos) + |data|]
      ensures failed == (old(failed) || !ok || data == [])
    {
      ok, data := *, [];
      var k: nat := *;
      if 0 <= k <= n && 0 <= pos && pos + k <= |bytes| {
        data := bytes[pos..pos + k];
        pos := pos + k;
      }
      failed := failed || !ok || data == [];
    }
  }

  function Resized<T>(s: seq<T>, size: nat, fill: T): seq<T> {
    seq(size, i requires 0 <= i < size => if i < |s| then s[i] else fill)
  }

  function Overwritten<T>(s: seq<T>, at: int, data: seq<T>): seq<T>
    requires 0 <= at && at + |data| <= |s|
  {
    s[..at] + data + s[at + |data|..]
  }

  function Trues(n: nat): seq<bool> {
    seq(n, _ => true)
  }

  /** The path copied to: the file there, if any, and which of its bytes take up space. */
  class Target {
    var there: bool
    var sparse: bool
    var bytes: seq<byte>
    var held: seq<bool>
    var pos: int
    /** Some call has failed, or a write was cut short. */
    ghost var failed: bool
    /** What closing and removing the file were answered. */
    ghost var closes: seq<bool>
    ghost var removals: seq<bool>

    constructor ()
      ensures !there && !failed && closes == [] && removals == []
    {
      there, failed, closes, removals := false, false, [], [];
    }

    /** CREATE_NEW: never a file that is already there. */
    method Create() returns (ok: bool)
      modifies this`there, this`sparse, this`bytes, this`held, this`failed
      ensures ok ==> !old(there) && there && !sparse && bytes == [] && held == []
      ensures !ok ==> there == old(there) && bytes == old(bytes) && held == old(held)
      ensures failed == (old(failed) || !ok)
    {
      ok := *;
      ok := ok && !there;
      if ok {
        there, sparse, bytes, held := true, false, [], [];
      }
      failed := failed || !ok;
    }

    method SetSparse() returns (ok: bool)
      modifies this`sparse, this`failed
      ensures ok ==> sparse
      ensures failed == (old(failed) || !ok)
    {
      ok := *;
      sparse, failed := sparse || ok, failed || !ok;
    }

    /** Lengthening a file commits its bytes, unless it is sparse. */
    method SetLength(size: nat) returns (ok: bool)
      modifies this`bytes, this`held, this`pos, this`failed
      ensures ok ==> bytes == Resized(old(bytes), size, 0) && held == Resized(old(held), size, !sparse)
      ensures failed == (old(failed) || !ok)
    {
      ok, pos := *, size;
      if ok {
        bytes, held := Resized(bytes, size, 0), Resized(held, size, !sparse);
      } else {
        bytes := *;
      }
      failed := failed || !ok;
    }

    method Seek(offset: int) returns (ok: bool)
      modifies this`pos, this`failed
      ensures ok ==> pos == offset
      ensures failed == (old(failed) || !ok)
    {
      ok, pos := *, offset;
      failed := failed || !ok;
    }

    /** Writes the first `written` bytes; a write that fails may leave anything. */
    method Write(data: seq<byte>) returns (ok: bool, written: nat)
      requires 0 <= pos && pos + |data| <= |bytes| == |held|
      modifies this`bytes, this`held, this`pos, this`failed
      ensures ok ==> written <= |data| && bytes == Overwritten(old(bytes), old(pos), data[..written])
      ensures ok ==> written <= |data| && held == Overwritten(old(held), old(pos), Trues(written))
      ensures failed == (old(failed) || !ok || written != |data|)
    {
      ok, written := *, *;
      ok := ok && 0 <= written <= |data|;
      if ok {
        bytes := Overwritten(bytes, pos, data[..written]);
        held := Overwritten(held, pos, Trues(written));
        pos := pos + written;
      } else {
        bytes, held := *, *;
      }
      failed := failed || !ok || written != |data|;
    }

    method Close() returns (ok: bool)
      modifies this`closes
      ensures closes == old(closes) + [ok]
    {
      ok := *;
      closes := closes + [ok];
    }

    method Remove() returns (ok: bool)
      modifies this`there, this`removals
      ensures there == (old(there) && !ok) && removals == old(removals) + [ok]
    {
      ok := *;
      there, removals := there && !ok, removals + [ok];
    }
  }

  /** The caller's progress callback, if there is one; `wants` is whether it asks to go on. */
  class Watcher {
    const present: bool
    var reports: seq<(int, int)>
    /** It has asked to stop. */
    var stopped: bool

    constructor (present: bool)
      ensures this.present == present && reports == [] && !stopped
    {
      this.present, reports, stopped := present, [], false;
    }

    method Report(done: int, total: int) returns (wants: bool)
      modifies this
      ensures reports == old(reports) + [(done, total)] && stopped == (old(stopped) || !wants)
    {
      reports := reports + [(done, total)];
      wants := *;
      stopped := stopped || !wants;
    }
  }

  /* ---- listing the ranges ---- */

  lemma CoveredEither(a: seq<Range>, b: seq<Range>, x: int)
    ensures Covered(a + b, x) <==> Covered(a, x) || Covered(b, x)
  {
    if Covered(a, x) {
      var j :| 0 <= j < |a| && a[j].Has(x);
      assert (a + b)[j].Has(x);
    }
    if Covered(b, x) {
      var j :| 0 <= j < |b| && b[j].Has(x);
      assert (a + b)[|a| + j].Has(x);
    }
  }

  lemma OrderedJoin(a: seq<Range>, b: seq<Range>, mid: int)
    requires Ordered(a, 0) && 0 <= EndOf(a, 0) <= mid && Ordered(b, mid)
    ensures Ordered(a + b, 0)
  {
    forall j | 0 <= j < |a| ensures a[j].End() <= mid {
      assert j < |a| - 1 ==> a[j].End() <= a[|a| - 1].offset;
    }
  }

  lemma PagesJoin(a: seq<Range>, b: seq<Range>, held: set<int>, mid: int, limit: int)
    requires Ordered(a, 0) && Within(a, held) && CoverAll(a, held, 0, mid) && 0 <= EndOf(a, 0) <= mid
    requires Ordered(b, mid) && Within(b, held) && CoverAll(b, held, mid, limit)
    ensures Ordered(a + b, 0) && Within(a + b, held) && CoverAll(a + b, held, 0, limit)
    ensures b != [] ==> EndOf(a + b, 0) == EndOf(b, mid)
  {
    OrderedJoin(a, b, mid);
    hide Ordered, Covered;
    forall x | x in held && 0 <= x < limit ensures Covered(a + b, x) {
      CoveredEither(a, b, x);
    }
  }

  /** The paged listing ends, and lists every allocated byte, unless the file system said that there was
      more and listed nothing. */
  method AllocatedRanges(s: Source, size: nat) returns (ok: bool, out: seq<Range>)
    requires size < TWO63 && !s.failed && !s.silent
    modifies s`failed, s`silent
    ensures ok <==> !s.failed
    ensures ok ==> Ordered(out, 0) && Within(out, s.held)
    ensures ok && !s.silent ==> CoverAll(out, s.held, 0, size)
  {
    out := [];
    if size == 0 {
      return true, out;
    }
    var query := Range(0, size);
    while true
      invariant 0 <= query.offset < size && query.End() == size && !s.failed && !s.silent
      invariant Ordered(out, 0) && Within(out, s.held) && CoverAll(out, s.held, 0, query.offset)
      invariant 0 <= EndOf(out, 0) <= query.offset
      decreases size - query.offset
    {
      var more, page;
      ok, more, page := s.Query(query);
      if !ok {
        return;
      }
      PagesJoin(out, page, s.held, query.offset, if more then EndOf(page, query.offset) else size);
      out := out + page;
      if !more || |page| == 0 {
        return;
      }
      var last := page[|page| - 1];
      var next := last.offset + last.length;
      if next >= size {
        return;
      }
      query := Range(next, size - next);
    }
  }

  /* ---- copying them ---- */

  function Total(rs: seq<Range>): int {
    if rs == [] then 0 else Total(rs[..|rs| - 1]) + rs[|rs| - 1].length
  }

  lemma {:induction false} TotalFits(rs: seq<Range>, i: int)
    requires Ordered(rs, 0) && 0 <= i <= |rs|
    ensures 0 <= Total(rs[..i]) <= EndOf(rs[..i], 0) < TWO63
  {
    if i > 0 {
      TotalFits(rs, i - 1);
      assert rs[..i][..i - 1] == rs[..i - 1];
    }
  }

  /** Whether byte `x` has been copied, with `i` ranges done and the next one up to `at`. */
  predicate Copied(rs: seq<Range>, i: int, at: int, x: int) {
    || (exists j :: 0 <= j < i && j < |rs| && rs[j].Has(x))
    || (0 <= i < |rs| && rs[i].offset <= x < at)
  }

  /** The copy so far: those bytes are the source's and take up space; the rest are holes. */
  ghost predicate CopiedTo(bytes: seq<byte>, held: seq<bool>, src: seq<byte>, rs: seq<Range>, i: int, at: int) {
    && |bytes| == |src| == |held|
    && (forall x :: 0 <= x < |src| ==> bytes[x] == if Copied(rs, i, at, x) then src[x] else 0)
    && (forall x :: 0 <= x < |src| ==> held[x] == Copied(rs, i, at, x))
    && (forall x :: Copied(rs, i, at, x) ==> 0 <= x < |src|)
  }

  lemma ChunkDone(rs: seq<Range>, i: int, at: int, k: int, x: int)
    requires 0 <= i < |rs| && rs[i].offset <= at && 0 <= k
    ensures Copied(rs, i, at + k, x) <==> Copied(rs, i, at, x) || at <= x < at + k
  {
  }

  lemma ChunkCopied(bytes: seq<byte>, held: seq<bool>, src: seq<byte>, rs: seq<Range>, i: int, at: int, k: int)
    requires 0 <= i < |rs| && 0 <= rs[i].offset <= at && 0 <= k && at + k <= |src|
    requires CopiedTo(bytes, held, src, rs, i, at)
    ensures CopiedTo(Overwritten(bytes, at, src[at..at + k]), Overwritten(held, at, Trues(k)), src, rs, i, at + k)
  {
    hide Copied;
    var upto := at + k;
    forall x ensures Copied(rs, i, upto, x) <==> Copied(rs, i, at, x) || at <= x < upto {
      ChunkDone(rs, i, at, k, x);
    }
    assert CopiedTo(Overwritten(bytes, at, src[at..upto]), Overwritten(held, at, Trues(k)), src, rs, i, upto);
  }

  lemma SameLength(bytes: seq<byte>, held: seq<bool>, src: seq<byte>, rs: seq<Range>, i: int, at: int)
    requires CopiedTo(bytes, held, src, rs, i, at)
    ensures |bytes| == |held| == |src|
  {
  }

  /** A range that is done is the same as having come to the start of the next. */
  lemma RangeDone(rs: seq<Range>, i: int, at: int, x: int)
    requires 0 <= i < |rs| && (i + 1 < |rs| ==> at == rs[i + 1].offset)
    ensures Copied(rs, i + 1, at, x) <==> Copied(rs, i, rs[i].End(), x)
  {
    if Copied(rs, i, rs[i].End(), x) && rs[i].Has(x) {
      assert Copied(rs, i + 1, at, x);
    }
  }

  lemma RangeCopied(bytes: seq<byte>, held: seq<bool>, src: seq<byte>, rs: seq<Range>, i: int, at: int)
    requires 0 <= i < |rs| && (i + 1 < |rs| ==> at == rs[i + 1].offset)
    requires CopiedTo(bytes, held, src, rs, i, rs[i].End())
    ensures CopiedTo(bytes, held, src, rs, i + 1, at)
  {
    hide Copied;
    var j, end := i + 1, rs[i].End();
    forall x ensures Copied(rs, j, at, x) <==> Copied(rs, i, end, x) {
      RangeDone(rs, i, at, x);
    }
    assert CopiedTo(bytes, held, src, rs, j, at);
  }

  datatype CopyResult =
    | NotStarted
    | Failed
    | Cancelled
    | Finished
    | NotClosed

  /** One read and one write; `read` bytes get copied. */
  method CopyChunk(s: Source, t: Target, offset: int, n: nat) returns (ok: bool, read: nat)
    requires 0 <= offset && |t.bytes| == |t.held| == |s.bytes| && !s.failed && !t.failed
    requires n <= COPY_CHUNK
    modifies s`pos, s`failed, t`bytes, t`held, t`pos, t`failed
    ensures ok <==> !s.failed && !t.failed
    ensures ok ==> 0 < read <= n && offset + read <= |s.bytes|
                   && t.bytes == Overwritten(old(t.bytes), offset, s.bytes[offset..offset + read])
                   && t.held == Overwritten(old(t.held), offset, Trues(read))
  {
    read := 0;
    ok := s.Seek(offset);
    if !ok {
      return;
    }
    ok := t.Seek(offset);
    if !ok {
      return;
    }
    var data;
    ok, data := s.Read(n);
    if !ok {
      return;
    }
    if |data| == 0 {
      return false, 0;
    }
    var written;
    ok, written := t.Write(data);
    if ok && written != |data| {
      ok := false;
    }
    assert ok ==> data[..written] == data;
    read := |data|;
  }

  /** Every report is of a copy that has moved on. */
  predicate Rising(reports: seq<(int, int)>, total: int) {
    && (forall i :: 0 <= i < |reports| ==> 0 < reports[i].0 <= total && reports[i].1 == total)
    && (forall i, j :: 0 <= i < j < |reports| ==> reports[i].0 < reports[j].0)
  }

  /** How far the reports say the copy has got. */
  function Reported(reports: seq<(int, int)>): int {
    if reports == [] then 0 else reports[|reports| - 1].0
  }

  ghost predicate Told(w: Watcher, done: int, total: int)
    reads w
  {
    Rising(w.reports, total) && (w.present ==> Reported(w.reports) == done)
  }

  /** Copies what is left of range `i`, from `at` on. */
  method CopyRange(s: Source, t: Target, w: Watcher, rs: seq<Range>, i: nat, total: int, before: int)
    returns (r: CopyResult, done: int)
    requires i < |rs| && rs[i].length >= 0 && rs[i].offset >= 0
    requires 0 <= before && before + rs[i].length <= total < TWO63
    requires CopiedTo(t.bytes, t.held, s.bytes, rs, i, rs[i].offset)
    requires Told(w, before, total) && !w.stopped && !s.failed && !t.failed
    modifies s`pos, s`failed, t`bytes, t`held, t`pos, t`failed, w
    ensures r.Failed? || (r.Cancelled? && w.present) || r.Finished?
    ensures r.Cancelled? <==> w.stopped
    ensures r.Failed? <==> s.failed || t.failed
    ensures Told(w, done, total)
    ensures r.Finished? ==>
              done == before + rs[i].length && CopiedTo(t.bytes, t.held, s.bytes, rs, i, rs[i].End())
  {
    hide CopiedTo;
    done := before;
    var offset := rs[i].offset;
    var remaining := rs[i].length;
    while remaining > 0
      invariant 0 <= remaining <= rs[i].length && offset + remaining == rs[i].End()
      invariant done == before + rs[i].length - remaining
      invariant CopiedTo(t.bytes, t.held, s.bytes, rs, i, offset)
      invariant Told(w, done, total) && !w.stopped && !s.failed && !t.failed
    {
      var n := COPY_CHUNK;
      if remaining < n {
        n := remaining;
      }
      SameLength(t.bytes, t.held, s.bytes, rs, i, offset);
      ghost var bytes, held := t.bytes, t.held;
      var ok, read := CopyChunk(s, t, offset, n);
      if !ok {
        return Failed, done;
      }
      ChunkCopied(bytes, held, s.bytes, rs, i, offset, read);
      offset := offset + read;
      remaining := remaining - read;
      done := (done + read) % TWO64;
      if w.present {
        var wants := w.Report(done, total);
        if !wants {
          return Cancelled, done;
        }
      }
    }
    r := Finished;
  }

  /** With every range done: the source's bytes in them and zeros elsewhere, and space taken up in
      them and nowhere else. */
  ghost predicate SparseImage(bytes: seq<byte>, held: seq<bool>, src: seq<byte>, rs: seq<Range>) {
    && |bytes| == |src| == |held|
    && (forall x :: 0 <= x < |src| ==> bytes[x] == if Covered(rs, x) then src[x] else 0)
    && (forall x :: 0 <= x < |src| ==> held[x] == Covered(rs, x))
    && (forall x :: Covered(rs, x) ==> 0 <= x < |src|)
  }

  lemma AllCopied(bytes: seq<byte>, held: seq<bool>, src: seq<byte>, rs: seq<Range>, at: int)
    requires CopiedTo(bytes, held, src, rs, |rs|, at)
    ensures SparseImage(bytes, held, src, rs)
  {
    forall x ensures Covered(rs, x) <==> Copied(rs, |rs|, at, x) {
    }
  }

  lemma NoneCopied(src: seq<byte>, rs: seq<Range>)
    ensures CopiedTo(Resized([], |src|, 0), Resized([], |src|, false), src, rs, 0, if rs == [] then 0 else rs[0].offset)
  {
  }

  /** A range before the end of the list, added to what comes before it. */
  lemma TotalNext(rs: seq<Range>, i: int)
    requires Ordered(rs, 0) && 0 <= i < |rs|
    ensures Total(rs[..i + 1]) == Total(rs[..i]) + rs[i].length
    ensures 0 <= Total(rs[..i]) && Total(rs[..i + 1]) <= Total(rs) < TWO63
  {
    assert rs[..i + 1][..i] == rs[..i];
    TotalFits(rs, i);
    TotalFits(rs, |rs|);
    assert rs[..|rs|] == rs;
    TotalRises(rs, i + 1);
  }

  lemma {:induction false} TotalRises(rs: seq<Range>, i: int)
    requires Ordered(rs, 0) && 0 <= i <= |rs|
    ensures Total(rs[..i]) <= Total(rs)
    decreases |rs| - i
  {
    if i < |rs| {
      TotalRises(rs, i + 1);
      assert rs[..i + 1][..i] == rs[..i];
    } else {
      assert rs[..|rs|] == rs;
    }
  }

  method TotalOf(rs: seq<Range>) returns (total: int)
    requires Ordered(rs, 0)
    ensures total == Total(rs)
  {
    total := 0;
    for i := 0 to |rs|
      invariant total == Total(rs[..i])
    {
      TotalNext(rs, i);
      total := (total + rs[i].length) % TWO64;
    }
    assert rs[..|rs|] == rs;
  }

  method CopyRanges(s: Source, t: Target, w: Watcher, rs: seq<Range>, total: int)
    returns (r: CopyResult, done: int)
    requires Ordered(rs, 0) && total == Total(rs)
    requires t.bytes == Resized([], |s.bytes|, 0) && t.held == Resized([], |s.bytes|, false)
    requires Told(w, 0, total) && !w.stopped && !s.failed && !t.failed
    modifies s`pos, s`failed, t`bytes, t`held, t`pos, t`failed, w
    ensures r.Failed? || (r.Cancelled? && w.present) || r.Finished?
    ensures r.Cancelled? <==> w.stopped
    ensures r.Failed? <==> s.failed || t.failed
    ensures Told(w, done, total)
    ensures r.Finished? ==> done == total && SparseImage(t.bytes, t.held, s.bytes, rs)
  {
    NoneCopied(s.bytes, rs);
    hide CopiedTo, SparseImage;
    done := 0;
    ghost var at := if rs == [] then 0 else rs[0].offset;
    for i := 0 to |rs|
      invariant i < |rs| ==> at == rs[i].offset
      invariant CopiedTo(t.bytes, t.held, s.bytes, rs, i, at)
      invariant done == Total(rs[..i]) && Told(w, done, total) && !w.stopped && !s.failed && !t.failed
    {
      TotalNext(rs, i);
      r, done := CopyRange(s, t, w, rs, i, total, done);
      if !r.Finished? {
        return;
      }
      at := if i + 1 < |rs| then rs[i + 1].offset else 0;
      RangeCopied(t.bytes, t.held, s.bytes, rs, i, at);
    }
    assert rs[..|rs|] == rs;
    AllCopied(t.bytes, t.held, s.bytes, rs, at);
    r := Finished;
  }

  /** With every allocated byte listed, the image is the source itself, as sparse as the source. */
  lemma ImageIsSource(s: Source, bytes: seq<byte>, held: seq<bool>, rs: seq<Range>)
    requires s.Valid() && Within(rs, s.held) && SparseImage(bytes, held, s.bytes, rs)
    requires CoverAll(rs, s.held, 0, |s.bytes|)
    ensures bytes == s.bytes
    ensures forall x :: 0 <= x < |s.bytes| ==> (held[x] <==> x in s.held)
  {
    forall x | 0 <= x < |s.bytes|
      ensures bytes[x] == s.bytes[x] && (held[x] <==> x in s.held)
    {
      assert x in s.held <==> Covered(rs, x);
    }
  }

  /** Copies a disk and removes what it made if anything goes wrong before the file is closed. */
  method CopySparse(s: Source, t: Target, w: Watcher, aclReadable: bool)
    returns (r: CopyResult, ghost rs: seq<Range>)
    requires s.Valid() && !s.failed && !s.silent && !t.failed && w.reports == [] && !w.stopped
    modifies s`pos, s`failed, s`silent, t, w
    // A file that was there is left alone.
    ensures r.NotStarted? ==>
              t.there == old(t.there) && t.bytes == old(t.bytes) && t.removals == old(t.removals)
    ensures old(t.there) ==> r.NotStarted?
    // After a failure or a cancelled copy the file is removed, once, and is there only if that failed.
    ensures r.Failed? || r.Cancelled? ==> exists b :: t.removals == old(t.removals) + [b] && t.there == !b
    // Success, and a file that did not close properly, leave the whole copy, holes and all.
    ensures r.Finished? || r.NotClosed? ==>
              && t.there && t.removals == old(t.removals) && t.closes == old(t.closes) + [r.Finished?]
              && SparseImage(t.bytes, t.held, s.bytes, rs)
              && (!s.silent ==> t.bytes == s.bytes && forall x :: 0 <= x < |s.bytes| ==> (t.held[x] <==> x in s.held))
    // It is not for nothing that it fails or stops.
    ensures r.NotStarted? || r.Failed? ==> s.failed || t.failed || (r.NotStarted? && !aclReadable)
    ensures r.Finished? || r.NotClosed? ==> !s.failed && !t.failed
    ensures r.Cancelled? <==> w.stopped
    ensures r.Cancelled? ==> w.present
    // Every report moves on, and the last one of a finished copy is of the whole.
    ensures Ordered(rs, 0) && Within(rs, s.held)
    ensures !r.NotStarted? && !s.silent ==> CoverAll(rs, s.held, 0, |s.bytes|)
    ensures Rising(w.reports, Total(rs))
    ensures w.present && (r.Finished? || r.NotClosed?) ==> Reported(w.reports) == Total(rs)
  {
    hide SparseImage, Within, CoverAll, Ordered;
    NothingListed(s.held);
    rs, r := [], NotStarted;
    var ok, size := s.Size();
    if !ok {
      return;
    }
    var ranges;
    ok, ranges := AllocatedRanges(s, size);
    if !ok || !aclReadable {
      return;
    }
    rs := ranges;
    var total := TotalOf(ranges);
    ok := t.Create();
    if !ok {
      return;
    }
    var done;
    r, done := Fill(s, t, w, ranges, total, size);
    var closed := t.Close();
    if !r.Finished? {
      var removed := t.Remove();
    } else {
      if !s.silent {
        ImageIsSource(s, t.bytes, t.held, ranges);
      }
      if !closed {
        r := NotClosed;
      }
    }
  }

  lemma NothingListed(held: set<int>)
    ensures Ordered([], 0) && Within([], held)
  {
  }

  /** What happens between the file's creation and its closing. */
  method Fill(s: Source, t: Target, w: Watcher, ranges: seq<Range>, total: int, size: nat)
    returns (r: CopyResult, done: int)
    requires Ordered(ranges, 0) && size == |s.bytes| && total == Total(ranges)
    requires t.bytes == [] && t.held == [] && Told(w, 0, total) && !w.stopped && !s.failed && !t.failed
    modifies s`pos, s`failed, t`sparse, t`bytes, t`held, t`pos, t`failed, w
    ensures r.Failed? || (r.Cancelled? && w.present) || r.Finished?
    ensures r.Cancelled? <==> w.stopped
    ensures r.Failed? <==> s.failed || t.failed
    ensures Told(w, done, total)
    ensures r.Finished? ==> done == total && SparseImage(t.bytes, t.held, s.bytes, ranges)
  {
    done := 0;
    var ok := t.SetSparse();
    if !ok {
      return Failed, done;
    }
    ok := t.SetLength(size);
    if !ok {
      return Failed, done;
    }
    r, done := CopyRanges(s, t, w, ranges, total);
  }
}
