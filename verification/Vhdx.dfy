/** Reading a VHDX file (internal/vhdx/vhdx.go): the block allocation table of [MS-VHDX] section 2.5
    and reads at virtual offsets. Go's fixed-width arithmetic is written out. */
module Vhdx {
  import opened Words

  const TWO20: int := 0x10_0000
  const TWO23: int := 0x80_0000
  const TWO25: int := 0x200_0000
  const TWO32: int := 0x1_0000_0000

  const FULLY_PRESENT: int := 6
  const PARTIALLY_PRESENT: int := 7

  function U64(x: int): (r: int)
    ensures 0 <= r < TWO64
  {
    x % TWO64
  }

  function I64(x: int): int {
    var y := x % TWO64;
    if y >= TWO63 then y - TWO64 else y
  }

  /** A file that can be read at an offset; any read may fail. */
  class ReaderAt {
    const bytes: seq<byte>
    /** How many reads have failed. */
    ghost var failures: nat

    constructor (bytes: seq<byte>)
      ensures this.bytes == bytes && failures == 0
    {
      this.bytes, failures := bytes, 0;
    }

    method ReadAt(off: int, len: nat) returns (ok: bool, data: seq<byte>)
      modifies this`failures
      ensures failures == old(failures) + if ok then 0 else 1
      ensures ok ==> 0 <= off && off + len <= |bytes| && data == bytes[off..off + len]
    {
      ok := *;
      ok := ok && 0 <= off && off + len <= |bytes|;
      data := if ok then bytes[off..off + len] else [];
      failures := failures + if ok then 0 else 1;
    }
  }

  /* ---- the block allocation table ---- */

  function LittleEndian(b: seq<byte>): (v: int)
    ensures 0 <= v
    ensures |b| == 8 ==> v < TWO64
  {
    if |b| != 8 then 0
    else b[0] as int + b[1] as int * 0x100 + b[2] as int * 0x1_0000 + b[3] as int * 0x100_0000
         + b[4] as int * 0x1_0000_0000 + b[5] as int * 0x100_0000_0000 + b[6] as int * 0x1_0000_0000_0000
         + b[7] as int * 0x100_0000_0000_0000
  }

  /** The number that bytes are, the lowest first. */
  function NumberOf(b: seq<byte>): int {
    if b == [] then 0 else b[0] as int + 0x100 * NumberOf(b[1..])
  }

  lemma LowestFirst(b: seq<byte>)
    requires |b| == 8
    ensures LittleEndian(b) == NumberOf(b)
  {
    forall i | 0 <= i < 8 ensures NumberOf(b[i..]) == b[i] as int + 0x100 * NumberOf(b[i + 1..]) {
      assert b[i..][1..] == b[i + 1..];
    }
    assert b[0..] == b && NumberOf(b[8..]) == 0;
    hide NumberOf;
  }

  function CeilDiv(a: int, b: int): int
    requires b > 0
  {
    (a + b - 1) / b
  }

  /** How many of the kept entries are in a state. */
  function CountState(bat: seq<int>, state: int): nat {
    if bat == [] then 0
    else CountState(bat[..|bat| - 1], state) + if bat[|bat| - 1] % 8 == state then 1 else 0
  }

  lemma {:induction false} CountStateBound(bat: seq<int>, state: int)
    ensures CountState(bat, state) <= |bat|
  {
    if bat != [] {
      CountStateBound(bat[..|bat| - 1], state);
    }
  }

  datatype BatResult =
    | ChunkRatioZero
    | RegionTooSmall
    | TooManyEntries
    | ReadFailed
    | Bat(keep: seq<int>, batEntries: int, allocatedBytes: int, partialBlocks: int)

  function ChunkRatio(logicalSector: int, blockSize: int): int
    requires blockSize > 0
  {
    TWO23 * (if logicalSector == 0 then 512 else logicalSector) / blockSize
  }

  /** The sums the code makes fit into 64 bits. */
  predicate Fits(virtualSize: int, blockSize: int, ratio: int)
    requires blockSize > 0 && ratio > 0
  {
    var blocks := CeilDiv(virtualSize, blockSize);
    virtualSize + blockSize - 1 < TWO64 && blocks + (blocks - 1) / ratio < TWO64
  }

  /* One sector-bitmap entry follows every `c` payload entries. */

  predicate IsBitmap(i: int, c: int)
    requires i >= 0 && c > 0
  {
    (i + 1) % (c + 1) == 0
  }

  /** How many of the first `i` raw entries are payload entries. */
  function PayloadsIn(i: int, c: int): int
    requires i >= 0 && c > 0
  {
    i - i / (c + 1)
  }

  /** Where payload entry `k` is among the raw ones. */
  function RawIndex(k: int, c: int): int
    requires k >= 0 && c > 0
  {
    k + k / c
  }

  lemma Interleaving(i: int, c: int)
    requires i >= 0 && c > 0
    ensures PayloadsIn(0, c) == 0 && 0 <= PayloadsIn(i, c) <= i
    ensures PayloadsIn(i + 1, c) == PayloadsIn(i, c) + if IsBitmap(i, c) then 0 else 1
    ensures !IsBitmap(i, c) ==> RawIndex(PayloadsIn(i, c), c) == i
  {
    var q, r := i / (c + 1), i % (c + 1);
    assert i == q * (c + 1) + r;
    var k := i - q;
    assert k == q * c + r;
    if r == c {
      assert i + 1 == (q + 1) * (c + 1);
      DivUnique(i + 1, c + 1, q + 1, 0);
    } else {
      assert i + 1 == q * (c + 1) + (r + 1);
      DivUnique(i + 1, c + 1, q, r + 1);
      DivUnique(k, c, q, r);
    }
    assert q >= 0;
    assert q * c >= 0;
  }

  lemma MulAtLeast(d: int, b: int)
    requires d >= 1 && b >= 0
    ensures d * b >= b
  {
  }

  lemma DivUnique(a: int, b: int, q: int, r: int)
    requires b > 0 && 0 <= r < b && a == q * b + r
    ensures a / b == q && a % b == r
  {
    var q', r' := a / b, a % b;
    assert a == b * q' + r';
    Distribute(q, q', b);
    if q > q' {
      MulAtLeast(q - q', b);
    } else if q < q' {
      Distribute(q', q, b);
      MulAtLeast(q' - q, b);
    }
  }

  lemma Distribute(x: int, y: int, b: int)
    ensures (x - y) * b == x * b - y * b
  {
  }

  /** The last raw entry read is a payload entry, and all payload entries are read. */
  lemma TotalIsExact(blocks: int, c: int)
    requires blocks >= 1 && c > 0
    ensures (blocks - 1) / c >= 0
    ensures var total := blocks + (blocks - 1) / c;
            PayloadsIn(total, c) == blocks && !IsBitmap(total - 1, c)
  {
    var q, r := (blocks - 1) / c, (blocks - 1) % c;
    QuotientAtMost(blocks - 1, c);
    assert blocks - 1 == q * c + r;
    var total := blocks + q;
    assert total == q * (c + 1) + (r + 1);
    DivUnique(total, c + 1, q, r + 1);
  }

  /** Raw entry `i` of a table. */
  function RawEntry(table: seq<byte>, i: int): int
    requires 0 <= i && 8 * i + 8 <= |table|
  {
    LittleEndian(table[8 * i..8 * i + 8])
  }

  /** Entry `k` is raw entry RawIndex(k), which is no sector bitmap. */
  ghost predicate Payload(keep: seq<int>, table: seq<byte>, total: int, c: int)
    requires c > 0 && total >= 0 && 8 * total <= |table|
  {
    && |keep| == PayloadsIn(total, c)
    && forall k :: 0 <= k < |keep| ==>
         0 <= RawIndex(k, c) < total && keep[k] == RawEntry(table, RawIndex(k, c)) && 0 <= keep[k] < TWO64
  }

  method KeepPayload(table: seq<byte>, total: nat, ratio: int)
    returns (keep: seq<int>, full: nat, partial: nat, payloadIdx: nat)
    requires ratio > 0 && |table| == 8 * total
    ensures Payload(keep, table, total, ratio) && payloadIdx == |keep| == PayloadsIn(total, ratio)
    ensures full == CountState(keep, FULLY_PRESENT) && partial == CountState(keep, PARTIALLY_PRESENT)
  {
    Interleaving(0, ratio);
    hide PayloadsIn, RawIndex, IsBitmap;
    full, partial, payloadIdx, keep := 0, 0, 0, [];
    var i := 0;
    while i < total
      invariant 0 <= i <= total
      invariant Payload(keep, table, i, ratio) && payloadIdx == |keep|
      invariant full == CountState(keep, FULLY_PRESENT) && partial == CountState(keep, PARTIALLY_PRESENT)
    {
      Interleaving(i, ratio);
      if !Skipped(i, ratio) {
        payloadIdx := payloadIdx + 1;
        var entry := LittleEndian(table[8 * i..8 * i + 8]);
        assert (keep + [entry])[..|keep|] == keep;
        keep := keep + [entry];
        var state := entry % 8;
        if state == FULLY_PRESENT {
          full := full + 1;
        } else if state == PARTIALLY_PRESENT {
          partial := partial + 1;
        }
      }
      i := i + 1;
    }
  }

  /** The code's own test for a sector-bitmap entry. */
  predicate Skipped(i: int, c: int)
    requires i >= 0 && c > 0
    ensures Skipped(i, c) <==> IsBitmap(i, c)
  {
    (i + 1) % (c + 1) == 0
  }

  /** Number of raw entries the code reads. */
  function TotalEntries(virtualSize: int, blockSize: int, c: int): int
    requires blockSize > 0 && c > 0
  {
    var dataBlocks := U64(virtualSize + blockSize - 1) / blockSize;
    U64(dataBlocks + U64(dataBlocks - 1) / c)
  }

  /** A region of `length` bytes has room for that many entries, and for one at least. */
  predicate HoldsTable(length: int, total: int) {
    length >= 8 && 8 * total <= length
  }

  method ReadBAT(r: ReaderAt, offset: int, length: int, virtualSize: int, blockSize: int, logicalSector: int)
    returns (o: BatResult, ghost total: nat, ghost table: seq<byte>)
    requires 0 < virtualSize < TWO64 && 0 < blockSize < TWO32
    requires 0 <= logicalSector < TWO32 && 0 <= length < TWO32 && 0 <= offset < TWO64
    modifies r`failures
    // Every refusal has its own cause.
    ensures ChunkRatio(logicalSector, blockSize) >= 0
    ensures o.ChunkRatioZero? <==> ChunkRatio(logicalSector, blockSize) == 0
    ensures var c := ChunkRatio(logicalSector, blockSize);
            c > 0 ==>
              && (o.RegionTooSmall? <==> !HoldsTable(length, TotalEntries(virtualSize, blockSize, c)))
              && (o.TooManyEntries? <==> HoldsTable(length, TotalEntries(virtualSize, blockSize, c))
                                         && TotalEntries(virtualSize, blockSize, c) > TWO25)
    ensures o.ReadFailed? <==> r.failures > old(r.failures)
    ensures o.Bat? ==>
              var c := ChunkRatio(logicalSector, blockSize);
              && total <= TWO25 && |table| == 8 * total
              && 0 <= I64(offset) && I64(offset) + 8 * total <= |r.bytes|
              && table == r.bytes[I64(offset)..I64(offset) + 8 * total]
              && Payload(o.keep, table, total, c)
              && o.batEntries == |o.keep|
              && o.allocatedBytes == blockSize * CountState(o.keep, FULLY_PRESENT)
              && o.partialBlocks == CountState(o.keep, PARTIALLY_PRESENT)
              // Exactly the blocks of the disk, unless a 64-bit sum wrapped.
              && (|o.keep| == CeilDiv(virtualSize, blockSize) <==> Fits(virtualSize, blockSize, c))
              && (Fits(virtualSize, blockSize, c) ==> total > 0 && !IsBitmap(total - 1, c))
  {
    hide U64, Fits, CeilDiv, IsBitmap, I64, CountState, Payload;
    total, table := 0, [];
    var sector := if logicalSector == 0 then 512 else logicalSector;
    var ratio := TWO23 * sector / blockSize;
    DivNonNegative(TWO23 * sector, blockSize);
    if ratio == 0 {
      return ChunkRatioZero, total, table;
    }
    var dataBlocks := U64(virtualSize + blockSize - 1) / blockSize;
    var totalEntries := U64(dataBlocks + U64(dataBlocks - 1) / ratio);
    assert totalEntries == TotalEntries(virtualSize, blockSize, ratio);
    assert ratio == ChunkRatio(logicalSector, blockSize);
    hide TotalEntries, ChunkRatio;
    if length < 8 || length / 8 < totalEntries {
      return RegionTooSmall, total, table;
    }
    if totalEntries > 32 * 1024 * 1024 {
      return TooManyEntries, total, table;
    }
    total := totalEntries;
    o, table := ReadTable(r, offset, totalEntries, virtualSize, blockSize, ratio);
  }

  method ReadTable(r: ReaderAt, offset: int, total: nat, ghost virtualSize: int, blockSize: int, ratio: int)
    returns (o: BatResult, ghost table: seq<byte>)
    requires 0 < virtualSize < TWO64 && 0 < blockSize < TWO32 && ratio > 0
    requires total == TotalEntries(virtualSize, blockSize, ratio) && total <= TWO25
    modifies r`failures
    ensures if r.failures > old(r.failures) then o.ReadFailed? else o.Bat?
    ensures o.Bat? ==>
              && |table| == 8 * total && 0 <= I64(offset) && I64(offset) + 8 * total <= |r.bytes|
              && table == r.bytes[I64(offset)..I64(offset) + 8 * total]
              && Payload(o.keep, table, total, ratio)
              && o.batEntries == |o.keep|
              && o.allocatedBytes == blockSize * CountState(o.keep, FULLY_PRESENT)
              && o.partialBlocks == CountState(o.keep, PARTIALLY_PRESENT)
              && (|o.keep| == CeilDiv(virtualSize, blockSize) <==> Fits(virtualSize, blockSize, ratio))
              && (Fits(virtualSize, blockSize, ratio) ==> total > 0 && !IsBitmap(total - 1, ratio))
  {
    hide Fits, CeilDiv, TotalEntries, PayloadsIn, RawIndex, IsBitmap, I64, RawEntry, CountState, Payload;
    var ok, buf := r.ReadAt(I64(offset), total * 8);
    table := buf;
    if !ok {
      return ReadFailed, table;
    }
    var keep, full, partial, payloadIdx := KeepPayload(buf, total, ratio);
    CountStateBound(keep, FULLY_PRESENT);
    CountStateBound(keep, PARTIALLY_PRESENT);
    Interleaving(total, ratio);
    KeptExactly(virtualSize, blockSize, ratio, total);
    NoWrap(full, blockSize);
    hide U64;
    o := Bat(keep, payloadIdx % TWO32, U64(full * blockSize), partial % TWO32);
  }

  lemma NoWrap(full: nat, blockSize: int)
    requires full <= TWO25 && 0 < blockSize < TWO32
    ensures U64(full * blockSize) == blockSize * full
  {
    MulMonotone(full, TWO25, blockSize);
    assert 0 <= full * blockSize;
  }

  lemma DivNonNegative(a: int, b: int)
    requires a >= 0 && b > 0
    ensures a / b >= 0
  {
  }

  /** The number of entries kept is the number of blocks, if and only if no sum wrapped. */
  lemma KeptExactly(virtualSize: int, blockSize: int, c: int, total: int)
    requires 0 < virtualSize < TWO64 && 0 < blockSize < TWO32 && c > 0
    requires total == TotalEntries(virtualSize, blockSize, c) && 0 <= total <= TWO25
    ensures Fits(virtualSize, blockSize, c) <==> PayloadsIn(total, c) == CeilDiv(virtualSize, blockSize)
    ensures Fits(virtualSize, blockSize, c) ==> total > 0 && !IsBitmap(total - 1, c)
  {
    var blocks := CeilDiv(virtualSize, blockSize);
    Interleaving(total, c);
    BlocksBounds(virtualSize, blockSize);
    QuotientAtMost(blocks - 1, c);
    TotalIsExact(blocks, c);
    if virtualSize + blockSize - 1 < TWO64 {
      Unwrapped(virtualSize, blockSize, c);
    }
    WrappedOrNot(virtualSize + blockSize - 1, blocks, (blocks - 1) / c, total, PayloadsIn(total, c), c);
  }

  lemma WrappedOrNot(sum: int, blocks: int, q: int, total: int, kept: int, c: int)
    requires 0 <= kept <= total <= TWO25 && 0 <= q <= blocks - 1 && c > 0
    requires sum < TWO64 ==> total == U64(blocks + q) && blocks < TWO64
    requires sum >= TWO64 ==> blocks > TWO25
    requires total == blocks + q ==> kept == blocks && total > 0
    ensures (sum < TWO64 && blocks + q < TWO64) <==> kept == blocks
    ensures sum < TWO64 && blocks + q < TWO64 ==> total == blocks + q
  {
  }

  /** With the first sum in range, the number of blocks is right. */
  lemma Unwrapped(virtualSize: int, blockSize: int, c: int)
    requires 0 < virtualSize && 0 < blockSize && c > 0 && virtualSize + blockSize - 1 < TWO64
    requires 1 <= CeilDiv(virtualSize, blockSize) < TWO64
    ensures var blocks := CeilDiv(virtualSize, blockSize);
            TotalEntries(virtualSize, blockSize, c) == U64(blocks + (blocks - 1) / c)
  {
    InRange(virtualSize + blockSize - 1);
    InRange(CeilDiv(virtualSize, blockSize) - 1);
    hide U64;
  }

  lemma InRange(x: int)
    requires 0 <= x < TWO64
    ensures U64(x) == x
  {
  }

  lemma QuotientAtMost(a: int, c: int)
    requires a >= 0 && c > 0
    ensures 0 <= a / c <= a
  {
    if a / c > a {
      assert c * (a / c) + a % c == a;
      MulAtLeast(c, a / c);
    }
  }

  /** A disk has a block, and one too big for the sum to fit has more blocks than are ever kept. */
  lemma BlocksBounds(virtualSize: int, blockSize: int)
    requires 0 < virtualSize < TWO64 && 0 < blockSize < TWO32
    ensures 1 <= CeilDiv(virtualSize, blockSize)
    ensures virtualSize + blockSize - 1 >= TWO64 ==> CeilDiv(virtualSize, blockSize) > TWO25
    ensures virtualSize + blockSize - 1 < TWO64 ==> CeilDiv(virtualSize, blockSize) < TWO64
  {
    var sum := virtualSize + blockSize - 1;
    var q := sum / blockSize;
    assert sum == blockSize * q + sum % blockSize;
    QuotientAtMost(sum, blockSize);
    assert q <= 0 ==> blockSize * q <= 0;
    if sum >= TWO64 && q <= TWO25 {
      MulMonotone(blockSize, TWO32, q);
    }
  }

  lemma MulMonotone(a: int, b: int, q: int)
    requires 0 <= a <= b && q >= 0
    ensures a * q <= b * q
  {
  }

  /** Sums that wrap, in a table that is accepted: 2047 entries are kept for 2^63 blocks. */
  lemma KeptTooFew()
    ensures var virtualSize, blockSize, logicalSector := TWO64 - 1, 2, TWO32 / 2;
            var c := ChunkRatio(logicalSector, blockSize);
            && c > 0 && !Fits(virtualSize, blockSize, c)
            && TotalEntries(virtualSize, blockSize, c) == 2047 == PayloadsIn(2047, c)
            && HoldsTable(8 * 2047, 2047) && 2047 <= TWO25
            && CeilDiv(virtualSize, blockSize) == TWO63
  {
    var c := ChunkRatio(TWO32 / 2, 2);
    assert c == 0x20_0000_0000_0000;
    assert U64(TWO64 - 1 + 2 - 1) == 0 && U64(0 - 1) == TWO64 - 1;
  }

  /* ---- reading at a virtual offset ---- */

  /** A parsed disk: the payload entries in block order, and the file they point into. */
  datatype Disk = Disk(bat: seq<int>, blockSize: int, virtualSize: int, fileSize: int, bytes: seq<byte>) {
    predicate Valid() {
      && 0 < blockSize < TWO32 && 0 <= virtualSize < TWO64 && 0 <= fileSize < TWO63
      && |bytes| < TWO63 && |bat| <= TWO25
      && forall k :: 0 <= k < |bat| ==> 0 <= bat[k] < TWO64
    }
  }

  /** Where in the file a payload entry puts a byte of its block, in 64-bit signed arithmetic. */
  function Addr(entry: int, within: int): int {
    I64(I64(entry / TWO20 * TWO20) + within)
  }

  /** That is the address of section 2.5.1.2 of [MS-VHDX], in megabytes, for every entry below 2^63;
      an entry above wraps round to a wrong place in the file. */
  lemma AddrIsExact(entry: int, within: int)
    requires 0 <= entry < TWO64 && 0 <= within < TWO32
    ensures Addr(entry, within) >= 0 ==>
              (Addr(entry, within) == entry / TWO20 * TWO20 + within <==> entry < TWO63)
  {
    var base := entry / TWO20 * TWO20;
    assert 0 <= base <= entry && entry - base < TWO20;
    assert entry < TWO63 <==> base < TWO63 by {
      assert TWO63 / TWO20 * TWO20 == TWO63;
    }
  }

  lemma AddrMoves(entry: int, within: int, k: int)
    requires 0 <= Addr(entry, within) && 0 <= k && Addr(entry, within) + k < TWO63
    ensures Addr(entry, within + k) == Addr(entry, within) + k
  {
  }

  /** What the guest sees at a virtual offset: the block's byte if the block is fully present, zero
      if it was never written. */
  function ByteAt(d: Disk, v: int): byte
    requires d.blockSize > 0
  {
    var block, within := v / d.blockSize, v % d.blockSize;
    if 0 <= block < |d.bat| && d.bat[block] % 8 == FULLY_PRESENT
       && 0 <= Addr(d.bat[block], within) < |d.bytes|
    then d.bytes[Addr(d.bat[block], within)]
    else 0
  }

  function Bytes(d: Disk, v: int, len: nat): seq<byte>
    requires d.blockSize > 0
  {
    seq(len, k requires 0 <= k < len => ByteAt(d, v + k))
  }

  lemma BytesAppend(d: Disk, v: int, a: nat, b: nat)
    requires d.blockSize > 0
    ensures Bytes(d, v, a + b) == Bytes(d, v, a) + Bytes(d, v + a, b)
  {
    hide ByteAt;
    var whole, parts := Bytes(d, v, a + b), Bytes(d, v, a) + Bytes(d, v + a, b);
    forall k | 0 <= k < a + b ensures whole[k] == parts[k] {
      if k >= a {
        assert v + k == (v + a) + (k - a);
      }
    }
    assert whole == parts;
  }

  /** How much of a read of `len` bytes at `v` falls into the block of `v`. */
  function Want(d: Disk, v: int, len: int): int
    requires d.blockSize > 0
  {
    var room := d.blockSize - v % d.blockSize;
    if len > room then room else len
  }

  /** The `want` bytes at `v`, all of one block, can be read. */
  predicate ChunkReads(d: Disk, v: int, want: int)
    requires d.blockSize > 0
  {
    var block := v / d.blockSize;
    && v < I64(d.virtualSize) && 0 <= block < |d.bat|
    && d.bat[block] % 8 != PARTIALLY_PRESENT
    && (d.bat[block] % 8 == FULLY_PRESENT ==>
          var at := Addr(d.bat[block], v % d.blockSize);
          0 <= at && at + want <= |d.bytes| && (d.fileSize > 0 ==> at + want <= d.fileSize))
  }

  /** Such a wrong place can be read: a fully present block far behind the end of a file of six bytes,
      and a read past the first megabyte of it that gives the last of them. */
  lemma EntryWraps()
    ensures var entry, v := TWO64 - 2, TWO20 + 5;
            var d := Disk([entry], 2 * TWO20, 2 * TWO20, 6, [0, 0, 0, 0, 0, 1]);
            && d.Valid() && entry % 8 == FULLY_PRESENT
            && entry / TWO20 * TWO20 + v > |d.bytes|
            && ChunkReads(d, v, 1) && ByteAt(d, v) == 1
  {
  }

  /** A read of `len` bytes at `v` succeeds, if the file can be read. */
  predicate Reads(d: Disk, v: int, len: nat)
    requires d.blockSize > 0
    decreases len
  {
    len > 0 ==>
      var want := Want(d, v, len);
      WantBounds(d, v, len);
      ChunkReads(d, v, want) && Reads(d, v + want, len - want)
  }

  lemma WantBounds(d: Disk, v: int, len: int)
    requires d.blockSize > 0 && len > 0
    ensures 0 < Want(d, v, len) <= len
    ensures v % d.blockSize + Want(d, v, len) <= d.blockSize
  {
  }

  /** A read that works goes on behind its first part. */
  lemma ReadsOn(d: Disk, v: int, len: nat)
    requires d.blockSize > 0 && len > 0
    ensures var want := Want(d, v, len);
            want <= len && (Reads(d, v, len) <==> ChunkReads(d, v, want) && Reads(d, v + want, len - want))
  {
    hide ChunkReads, Want;
    WantBounds(d, v, len);
  }

  lemma NothingRead(d: Disk, v: int)
    requires d.blockSize > 0
    ensures Bytes(d, v, 0) == [] && Reads(d, v, 0)
  {
  }

  datatype ReadError =
    | NoError
    | NegativeOffset
    | NoTable
    | EndOfDisk
    | OutsideFile
    | FileReadFailed
    | PartialBlock

  class Reader {
    const r: ReaderAt
    const bat: seq<int>
    const blockSize: int
    const virtualSize: int
    const fileSize: int

    function View(): Disk {
      Disk(bat, blockSize, virtualSize, fileSize, r.bytes)
    }

    constructor (r: ReaderAt, bat: seq<int>, blockSize: int, virtualSize: int, fileSize: int)
      ensures View() == Disk(bat, blockSize, virtualSize, fileSize, r.bytes)
    {
      this.r, this.bat, this.blockSize, this.virtualSize, this.fileSize := r, bat, blockSize, virtualSize, fileSize;
    }

    method ReadAt(p: array<byte>, off: int) returns (n: nat, err: ReadError)
      requires View().Valid() && off < TWO63
      modifies p, r`failures
      ensures n <= p.Length
      // Whatever is returned is what the guest sees.
      ensures p[..n] == Bytes(View(), off, n)
      ensures err == NoError ==> n == p.Length
      ensures err == NegativeOffset <==> off < 0
      ensures err == NoTable <==> off >= 0 && |bat| == 0
      // An error other than a failing file is the disk's own.
      ensures err == FileReadFailed <==> r.failures > old(r.failures)
      ensures off >= 0 && |bat| > 0 && err != FileReadFailed ==> (err == NoError <==> Reads(View(), off, p.Length))
      ensures err == EndOfDisk ==> I64(virtualSize) <= off + n || |bat| <= (off + n) / blockSize
      ensures err == PartialBlock ==>
                0 <= (off + n) / blockSize < |bat| && bat[(off + n) / blockSize] % 8 == PARTIALLY_PRESENT
    {
      hide ByteAt, ChunkReads, I64, Addr;
      if off < 0 {
        return 0, NegativeOffset;
      }
      if |bat| == 0 {
        return 0, NoTable;
      }
      ghost var d := View();
      n := 0;
      NothingRead(d, off);
      hide Reads, Want;
      while n < p.Length
        invariant 0 <= n <= p.Length && r.failures == old(r.failures)
        invariant p[..n] == Bytes(d, off, n)
        invariant Reads(d, off, p.Length) <==> Reads(d, off + n, p.Length - n)
      {
        ghost var n0, before := n, p[..n];
        var vo := off + n;
        var data;
        WantBounds(d, vo, p.Length - n);
        ReadsOn(d, vo, p.Length - n);
        data, err := ReadChunk(vo, p.Length - n);
        if err != NoError {
          return n, err;
        }
        CopyInto(p, n, data);
        n := n + |data|;
        BytesAppend(d, off, n0, |data|);
        assert p[..n] == before + data;
      }
      NothingRead(d, off + n);
      err := NoError;
    }

    /** The part of a read that falls into the block of `vo`. */
    method ReadChunk(vo: int, left: nat) returns (data: seq<byte>, err: ReadError)
      requires View().Valid() && vo >= 0 && left > 0
      modifies r`failures
      ensures r.failures == old(r.failures) + if err == FileReadFailed then 1 else 0
      ensures err == NoError ==>
                var want := Want(View(), vo, left);
                want >= 0 && data == Bytes(View(), vo, want) && ChunkReads(View(), vo, want)
      ensures err != NoError && err != FileReadFailed ==> !ChunkReads(View(), vo, Want(View(), vo, left))
      ensures err == EndOfDisk ==> I64(virtualSize) <= vo || |bat| <= vo / blockSize
      ensures err == PartialBlock ==> 0 <= vo / blockSize < |bat| && bat[vo / blockSize] % 8 == PARTIALLY_PRESENT
      ensures err != NegativeOffset && err != NoTable
    {
      data := [];
      if vo >= I64(virtualSize) {
        return data, EndOfDisk;
      }
      var block := vo / blockSize;
      if block >= |bat| {
        return data, EndOfDisk;
      }
      ghost var d := View();
      var within := vo % blockSize;
      var want := left;
      if want > blockSize - within {
        want := blockSize - within;
      }
      BlockBounds(vo, blockSize, block, within);
      assert want == Want(d, vo, left);
      WantBounds(d, vo, left);
      hide I64, Addr, Want, Bytes, ByteAt;
      var entry := bat[block];
      var state := entry % 8;
      if state == FULLY_PRESENT {
        var at := Addr(entry, within);
        EndInRange(at, want);
        if at < 0 || (fileSize > 0 && I64(at + want) > fileSize) {
          return data, OutsideFile;
        }
        var ok, read := r.ReadAt(at, want);
        if !ok {
          return data, FileReadFailed;
        }
        data := read;
        PresentBytes(d, vo, want);
      } else if state == PARTIALLY_PRESENT {
        return data, PartialBlock;
      } else {
        data := seq(want, _ => 0);
        AbsentBytes(d, vo, want);
      }
      err := NoError;
    }
  }

  lemma BlockBounds(v: int, blockSize: int, block: int, within: int)
    requires v >= 0 && blockSize > 0 && block == v / blockSize && within == v % blockSize
    ensures 0 <= block && 0 <= within < blockSize
  {
  }

  lemma EndInRange(at: int, want: int)
    ensures 0 <= at + want < TWO63 ==> I64(at + want) == at + want
    ensures 0 <= at < TWO63 && 0 <= want < TWO63 && at + want >= TWO63 ==> I64(at + want) < 0
    ensures forall entry, within :: Addr(entry, within) < TWO63
  {
  }

  method CopyInto(p: array<byte>, n: nat, data: seq<byte>)
    requires n + |data| <= p.Length
    modifies p
    ensures p[..] == old(p[..n]) + data + old(p[n + |data|..])
  {
    for i := 0 to |data|
      invariant p[..] == old(p[..n]) + data[..i] + old(p[n + i..])
    {
      p[n + i] := data[i];
    }
  }

  /** A later byte of the same block. */
  lemma SameBlock(v: int, k: int, blockSize: int)
    requires 0 < blockSize && v >= 0 && 0 <= k && v % blockSize + k < blockSize
    ensures (v + k) / blockSize == v / blockSize && (v + k) % blockSize == v % blockSize + k
  {
    var q := v / blockSize;
    assert v == q * blockSize + v % blockSize;
    DivUnique(v + k, blockSize, q, v % blockSize + k);
  }

  lemma PresentByte(d: Disk, v: int, k: int)
    requires d.Valid() && v >= 0 && 0 <= k && v % d.blockSize + k < d.blockSize
    requires 0 <= v / d.blockSize < |d.bat| && d.bat[v / d.blockSize] % 8 == FULLY_PRESENT
    requires var at := Addr(d.bat[v / d.blockSize], v % d.blockSize); 0 <= at && at + k < |d.bytes|
    ensures ByteAt(d, v + k) == d.bytes[Addr(d.bat[v / d.blockSize], v % d.blockSize) + k]
  {
    hide Addr;
    SameBlock(v, k, d.blockSize);
    AddrMoves(d.bat[v / d.blockSize], v % d.blockSize, k);
  }

  lemma PresentBytes(d: Disk, v: int, want: int)
    requires d.Valid() && v >= 0 && 0 < want && v % d.blockSize + want <= d.blockSize
    requires 0 <= v / d.blockSize < |d.bat| && d.bat[v / d.blockSize] % 8 == FULLY_PRESENT
    requires var at := Addr(d.bat[v / d.blockSize], v % d.blockSize); 0 <= at && at + want <= |d.bytes|
    ensures var at := Addr(d.bat[v / d.blockSize], v % d.blockSize); Bytes(d, v, want) == d.bytes[at..at + want]
  {
    hide Addr, ByteAt;
    var at := Addr(d.bat[v / d.blockSize], v % d.blockSize);
    var seen, held := Bytes(d, v, want), d.bytes[at..at + want];
    forall k | 0 <= k < want ensures seen[k] == held[k] {
      PresentByte(d, v, k);
    }
    assert seen == held;
  }

  lemma AbsentBytes(d: Disk, v: int, want: int)
    requires d.Valid() && v >= 0 && 0 < want && v % d.blockSize + want <= d.blockSize
    requires 0 <= v / d.blockSize < |d.bat| && d.bat[v / d.blockSize] % 8 != FULLY_PRESENT
    ensures Bytes(d, v, want) == seq(want, _ => 0)
  {
    hide Addr;
    forall k | 0 <= k < want ensures Bytes(d, v, want)[k] == 0 {
      SameBlock(v, k, d.blockSize);
      assert ByteAt(d, v + k) == 0;
    }
  }

  /* ---- splitting a read ---- */

  /** A shorter read of the same chunk, from the same byte. */
  lemma ChunkShrinks(d: Disk, v: int, want: int, less: int)
    requires d.blockSize > 0 && 0 <= less <= want && ChunkReads(d, v, want)
    ensures ChunkReads(d, v, less)
  {
  }

  /** The rest of a chunk, as far as the disk reaches. */
  lemma ChunkRest(d: Disk, v: int, want: int, k: int)
    requires d.Valid() && v >= 0 && 0 <= k < want && v % d.blockSize + want <= d.blockSize
    requires ChunkReads(d, v, want)
    ensures ChunkReads(d, v + k, want - k) <==> v + k < I64(d.virtualSize)
  {
    SameBlock(v, k, d.blockSize);
    var entry := d.bat[v / d.blockSize];
    if entry % 8 == FULLY_PRESENT {
      AddrMoves(entry, v % d.blockSize, k);
    }
    hide Addr, I64;
  }

  /** Splitting a read anywhere gives the same bytes (BytesAppend), and succeeds in both parts
      whenever it did in one, except that the second part must start inside the disk: the last
      block is read to its end, past the disk's size, but no read may start there. */
  lemma {:induction false} SplitRead(d: Disk, v: int, a: nat, b: nat)
    requires d.Valid() && v >= 0 && Reads(d, v, a + b)
    ensures Reads(d, v, a)
    ensures Reads(d, v + a, b) <==> b == 0 || v + a < I64(d.virtualSize)
    decreases a
  {
    hide ChunkReads, Addr, I64;
    if a > 0 {
      WantBounds(d, v, a + b);
      WantBounds(d, v, a);
      var want := Want(d, v, a + b);
      if a >= want {
        assert Want(d, v, a) == want;
        SplitRead(d, v + want, a - want, b);
      } else {
        SplitInChunk(d, v, a, b);
      }
    } else {
      StartsInside(d, v, b);
    }
  }

  lemma StartsInside(d: Disk, v: int, len: nat)
    requires d.blockSize > 0 && Reads(d, v, len)
    ensures len == 0 || v < I64(d.virtualSize)
  {
  }

  lemma SplitInChunk(d: Disk, v: int, a: nat, b: nat)
    requires d.Valid() && v >= 0 && 0 < a < Want(d, v, a + b) && Reads(d, v, a + b)
    ensures Reads(d, v, a)
    ensures Reads(d, v + a, b) <==> v + a < I64(d.virtualSize)
  {
    hide Addr, I64;
    var want := Want(d, v, a + b);
    WantBounds(d, v, a + b);
    assert Want(d, v, a) == a;
    ChunkShrinks(d, v, want, a);
    ChunkRest(d, v, want, a);
    SameBlock(v, a, d.blockSize);
    assert Want(d, v + a, b) == want - a;
    hide ChunkReads;
    assert v + a + (want - a) == v + want && b - (want - a) == a + b - want;
  }

  /** A read that touches a partially present block, or leaves the table, is an error. */
  lemma {:induction false} NoPartialBlock(d: Disk, v: int, len: nat, x: int)
    requires d.Valid() && v >= 0 && Reads(d, v, len) && v <= x < v + len
    ensures 0 <= x / d.blockSize < |d.bat| && d.bat[x / d.blockSize] % 8 != PARTIALLY_PRESENT
    decreases len
  {
    hide Addr, I64;
    WantBounds(d, v, len);
    var want := Want(d, v, len);
    if x < v + want {
      SameBlock(v, x - v, d.blockSize);
    } else {
      NoPartialBlock(d, v + want, len - want, x);
    }
  }

  /** A disk of five bytes in a block of eight: eight can be read at once, but not five and three. */
  lemma LastBlockIsNotClipped()
    ensures var d := Disk([0], 8, 5, 0, []);
            d.Valid() && Reads(d, 0, 8) && Reads(d, 0, 5) && !Reads(d, 5, 3)
  {
    var d := Disk([0], 8, 5, 0, []);
    assert Want(d, 0, 8) == 8 && ChunkReads(d, 0, 8) && Reads(d, 8, 0);
    SplitRead(d, 0, 5, 3);
  }
}
