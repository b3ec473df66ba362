/** Decoding the output of wsl.exe (internal/wslout/wslout.go): lines of UTF-16LE (section 2 of
    RFC 2781), then the guest's UTF-8 (section 3 of RFC 3629). Text is a sequence of code points. */
module WslOut {
  import opened Words

  const NEWLINE: int := 10
  const REPLACEMENT: int := 0xFFFD

  /** A code point that can be encoded. */
  predicate IsScalar(r: int) {
    0 <= r < 0xD800 || 0xE000 <= r <= 0x10FFFF
  }

  predicate IsText(rs: seq<int>) {
    forall i :: 0 <= i < |rs| ==> IsScalar(rs[i])
  }

  /* ---- UTF-8 ---- */

  function Utf8Char(r: int): seq<byte>
    requires IsScalar(r)
  {
    if r < 0x80 then [r as byte]
    else if r < 0x800 then [(0xC0 + r / 0x40) as byte, (0x80 + r % 0x40) as byte]
    else if r < 0x1_0000 then
      [(0xE0 + r / 0x1000) as byte, (0x80 + r / 0x40 % 0x40) as byte, (0x80 + r % 0x40) as byte]
    else
      [(0xF0 + r / 0x4_0000) as byte, (0x80 + r / 0x1000 % 0x40) as byte, (0x80 + r / 0x40 % 0x40) as byte,
       (0x80 + r % 0x40) as byte]
  }

  function Utf8(rs: seq<int>): seq<byte>
    requires IsText(rs)
  {
    if rs == [] then [] else Utf8Char(rs[0]) + Utf8(rs[1..])
  }

  predicate IsTail(b: byte) {
    0x80 <= b <= 0xBF
  }

  /** The length of the valid character that bytes start with, or 0: the table of section 4 of RFC 3629. */
  function CharLength(b: seq<byte>): (n: nat)
    ensures n <= |b| && n <= 4
  {
    if b == [] then 0
    else if b[0] < 0x80 then 1
    else if 0xC2 <= b[0] <= 0xDF && |b| >= 2 && IsTail(b[1]) then 2
    else if |b| >= 3 && IsTail(b[1]) && IsTail(b[2])
            && ((b[0] == 0xE0 && b[1] >= 0xA0) || 0xE1 <= b[0] <= 0xEC || (b[0] == 0xED && b[1] <= 0x9F)
                || 0xEE <= b[0] <= 0xEF) then 3
    else if |b| >= 4 && IsTail(b[1]) && IsTail(b[2]) && IsTail(b[3])
            && ((b[0] == 0xF0 && b[1] >= 0x90) || 0xF1 <= b[0] <= 0xF3 || (b[0] == 0xF4 && b[1] <= 0x8F))
         then 4
    else 0
  }

  predicate ValidUtf8(b: seq<byte>) {
    b == [] || (CharLength(b) > 0 && ValidUtf8(b[CharLength(b)..]))
  }

  lemma TailByte(x: int)
    requires 0 <= x
    ensures IsTail((0x80 + x % 0x40) as byte)
  {
  }

  lemma TwoBytes(r: int)
    requires 0x80 <= r < 0x800
    ensures CharLength(Utf8Char(r)) == 2
  {
    TailByte(r);
  }

  lemma ThreeBytes(r: int)
    requires IsScalar(r) && 0x800 <= r < 0x1_0000
    ensures CharLength(Utf8Char(r)) == 3
  {
    TailByte(r);
    TailByte(r / 0x40);
  }

  lemma FourBytes(r: int)
    requires IsScalar(r) && 0x1_0000 <= r
    ensures CharLength(Utf8Char(r)) == 4
  {
    TailByte(r);
    TailByte(r / 0x40);
    TailByte(r / 0x1000);
  }

  lemma LengthStays(b: seq<byte>, rest: seq<byte>)
    requires CharLength(b) == |b| > 0
    ensures CharLength(b + rest) == |b|
  {
  }

  lemma CharIsValid(r: int, rest: seq<byte>)
    requires IsScalar(r)
    ensures CharLength(Utf8Char(r) + rest) == |Utf8Char(r)| > 0
  {
    if 0x80 <= r < 0x800 {
      TwoBytes(r);
    } else if 0x800 <= r < 0x1_0000 {
      ThreeBytes(r);
    } else if 0x1_0000 <= r {
      FourBytes(r);
    }
    assert |Utf8Char(r)| == if r < 0x80 then 1 else if r < 0x800 then 2 else if r < 0x1_0000 then 3 else 4;
    assert r < 0x80 ==> CharLength(Utf8Char(r)) == 1;
    hide CharLength, Utf8Char;
    LengthStays(Utf8Char(r), rest);
  }

  /** Text in UTF-8 is valid. */
  lemma {:induction false} TextIsValid(rs: seq<int>)
    requires IsText(rs)
    ensures ValidUtf8(Utf8(rs))
  {
    hide CharLength, Utf8Char;
    if rs != [] {
      var rest := Utf8(rs[1..]);
      CharIsValid(rs[0], rest);
      TextIsValid(rs[1..]);
      var b := Utf8Char(rs[0]) + rest;
      assert b[|Utf8Char(rs[0])|..] == rest;
    }
  }

  predicate NoNul(b: seq<byte>) {
    0 !in b
  }

  lemma CharNoNul(r: int)
    requires IsScalar(r) && r != 0
    ensures NoNul(Utf8Char(r))
  {
  }

  lemma {:induction false} TextNoNul(rs: seq<int>)
    requires IsText(rs) && 0 !in rs
    ensures NoNul(Utf8(rs))
  {
    hide Utf8Char;
    if rs != [] {
      CharNoNul(rs[0]);
      TextNoNul(rs[1..]);
    }
  }

  lemma {:induction false} Utf8Append(a: seq<int>, b: seq<int>)
    requires IsText(a) && IsText(b)
    ensures Utf8(a + b) == Utf8(a) + Utf8(b)
  {
    if a == [] {
      assert a + b == b;
    } else {
      assert (a + b)[1..] == a[1..] + b;
      Utf8Append(a[1..], b);
    }
  }

  /* ---- UTF-16 ---- */

  type Unit = x: int | 0 <= x < 0x1_0000

  predicate IsHigh(u: int) { 0xD800 <= u < 0xDC00 }
  predicate IsLow(u: int) { 0xDC00 <= u < 0xE000 }

  function UnitsOf(r: int): seq<Unit>
    requires IsScalar(r)
  {
    if r < 0x1_0000 then [r]
    else [0xD800 + (r - 0x1_0000) / 0x400, 0xDC00 + (r - 0x1_0000) % 0x400]
  }

  function Utf16(rs: seq<int>): seq<Unit>
    requires IsText(rs)
  {
    if rs == [] then [] else UnitsOf(rs[0]) + Utf16(rs[1..])
  }

  /** unicode/utf16.Decode: half a pair becomes the replacement character. */
  function FromUtf16(us: seq<Unit>): (rs: seq<int>)
    ensures IsText(rs)
  {
    if us == [] then []
    else if IsHigh(us[0]) && |us| > 1 && IsLow(us[1]) then
      [(us[0] - 0xD800) * 0x400 + (us[1] - 0xDC00) + 0x1_0000] + FromUtf16(us[2..])
    else if IsHigh(us[0]) || IsLow(us[0]) then [REPLACEMENT] + FromUtf16(us[1..])
    else [us[0]] + FromUtf16(us[1..])
  }

  /** Decoding undoes encoding. */
  lemma {:induction false} Utf16Undone(rs: seq<int>)
    requires IsText(rs)
    ensures FromUtf16(Utf16(rs)) == rs
  {
    if rs != [] {
      Utf16Undone(rs[1..]);
      var r := rs[0];
      var us := Utf16(rs);
      if r < 0x1_0000 {
        assert us[1..] == Utf16(rs[1..]);
      } else {
        assert us[2..] == Utf16(rs[1..]);
      }
      assert [r] + rs[1..] == rs;
    }
  }

  /** Two bytes a unit, the low one first. */
  function Le(us: seq<Unit>): (b: seq<byte>)
    ensures |b| == 2 * |us|
  {
    if us == [] then [] else [(us[0] % 0x100) as byte, (us[0] / 0x100) as byte] + Le(us[1..])
  }

  function UnitAt(b: seq<byte>, i: nat): Unit
    requires 2 * i + 1 < |b|
  {
    b[2 * i] as int + b[2 * i + 1] as int * 0x100
  }

  /** Two bytes a unit; half a unit is ignored. */
  function Units(b: seq<byte>): seq<Unit> {
    seq(|b| / 2, i requires 0 <= i < |b| / 2 => UnitAt(b, i))
  }

  lemma {:induction false} LeUnit(us: seq<Unit>, rest: seq<byte>, i: nat)
    requires i < |us|
    ensures UnitAt(Le(us) + rest, i) == us[i]
  {
    var b := Le(us) + rest;
    if i == 0 {
      assert b[0] == (us[0] % 0x100) as byte && b[1] == (us[0] / 0x100) as byte;
    } else {
      LeUnit(us[1..], rest, i - 1);
      assert b[2..] == Le(us[1..]) + rest;
      assert b[2 * i] == b[2..][2 * (i - 1)] && b[2 * i + 1] == b[2..][2 * (i - 1) + 1];
    }
  }

  lemma UnitsUndone(us: seq<Unit>)
    ensures Units(Le(us)) == us
  {
    forall i | 0 <= i < |us| ensures Units(Le(us))[i] == us[i] {
      LeUnit(us, [], i);
      assert Le(us) + [] == Le(us);
    }
  }

  /* ---- the code ---- */

  /** Unit `i` is a line feed. */
  predicate FeedAt(b: seq<byte>, i: nat)
    requires 2 * i + 1 < |b|
  {
    UnitAt(b, i) == NEWLINE
  }


  method Utf16Line(b: seq<byte>) returns (n: nat)
    ensures n == LineLength(b, 0)
  {
    var i := 0;
    ghost var k := 0;
    while i + 1 < |b|
      invariant i == 2 * k && LineLength(b, 0) == LineLength(b, k)
      decreases |b| - i
    {
      if b[i] == 10 && b[i + 1] == 0 {
        return i + 2;
      }
      i := i + 2;
      k := k + 1;
    }
    n := |b|;
  }

  /** The length of the first line, when none of the first `i` units ends it. */
  function LineLength(b: seq<byte>, i: nat): (n: nat)
    ensures n <= |b| && (b != [] ==> n > 0)
    decreases |b| - 2 * i
  {
    if 2 * i + 1 >= |b| then |b|
    else if FeedAt(b, i) then 2 * i + 2
    else LineLength(b, i + 1)
  }

  method DecodeUTF16(b: seq<byte>) returns (r: seq<byte>)
    ensures r == Utf8(FromUtf16(Units(b)))
  {
    var u := new Unit[|b| / 2];
    for i := 0 to |b| / 2
      invariant forall k: nat :: k < i ==> u[k] == UnitAt(b, k)
    {
      u[i] := b[2 * i] as int + b[2 * i + 1] as int * 0x100;
    }
    assert u[..] == Units(b);
    r := Utf8(FromUtf16(u[..]));
  }

  /** What the lines and the rest of a stream say. */
  function Said(b: seq<byte>): seq<byte>
    decreases |b|
  {
    if b == [] then []
    else if NoNul(b) && ValidUtf8(b) then b
    else
      var n := LineLength(b, 0);
      Utf8(FromUtf16(Units(b[..n]))) + Said(b[n..])
  }

  function TrimNuls(b: seq<byte>): seq<byte> {
    if b != [] && b[|b| - 1] == 0 then TrimNuls(b[..|b| - 1]) else b
  }

  function Nuls(k: nat): seq<byte> {
    seq(k, _ => 0)
  }

  /** All the NULs at the end go, and nothing else. */
  lemma {:induction false} OnlyNulsGo(b: seq<byte>)
    ensures TrimNuls(b) == [] || TrimNuls(b)[|TrimNuls(b)| - 1] != 0
    ensures exists k: nat :: b == TrimNuls(b) + Nuls(k)
  {
    if b != [] && b[|b| - 1] == 0 {
      var c := b[..|b| - 1];
      OnlyNulsGo(c);
      var k: nat :| c == TrimNuls(c) + Nuls(k);
      assert Nuls(k + 1) == Nuls(k) + [0] && b == c + [0];
      assert b == TrimNuls(b) + Nuls(k + 1);
    } else {
      assert b == b + Nuls(0);
    }
  }

  function Decoded(b: seq<byte>): seq<byte> {
    if NoNul(b) then b else TrimNuls(Said(b))
  }

  /** Ends on every stream. */
  method Decode(b: seq<byte>) returns (r: seq<byte>)
    ensures r == Decoded(b)
  {
    hide ValidUtf8, LineLength, Utf8, FromUtf16, Units;
    if NoNul(b) {
      return b;
    }
    var out, rest := [], b;
    while |rest| > 0
      invariant Said(b) == out + Said(rest)
      decreases |rest|
    {
      if NoNul(rest) && ValidUtf8(rest) {
        assert Said(rest) == rest;
        out, rest := out + rest, [];
        assert Said(b) == out;
        break;
      }
      var n := Utf16Line(rest);
      var line := DecodeUTF16(rest[..n]);
      out := out + line;
      rest := rest[n..];
    }
    assert out + Said([]) == out;
    assert Said(b) == out;
    r := TrimNuls(out);
  }

  /* ---- a mixed stream ---- */

  /** A line of text, without its line feed. */
  predicate IsLineText(l: seq<int>) {
    IsText(l) && 0 !in l && NEWLINE !in l
  }

  predicate AreLines(ls: seq<seq<int>>) {
    forall i :: 0 <= i < |ls| ==> IsLineText(ls[i])
  }

  function Ended(l: seq<int>): (r: seq<int>)
    requires IsLineText(l)
    ensures IsText(r) && 0 !in r
  {
    l + [NEWLINE]
  }

  /** The text of some lines, and the bytes wsl.exe writes for them. */
  function TextOf(ls: seq<seq<int>>): (r: seq<int>)
    requires AreLines(ls)
    ensures IsText(r) && 0 !in r
  {
    if ls == [] then [] else Ended(ls[0]) + TextOf(ls[1..])
  }

  function Written(ls: seq<seq<int>>): seq<byte>
    requires AreLines(ls)
  {
    if ls == [] then [] else Le(Utf16(Ended(ls[0]))) + Written(ls[1..])
  }

  lemma {:induction false} Utf16Append(a: seq<int>, b: seq<int>)
    requires IsText(a) && IsText(b)
    ensures Utf16(a + b) == Utf16(a) + Utf16(b)
  {
    if a == [] {
      assert a + b == b;
    } else {
      assert (a + b)[1..] == a[1..] + b;
      Utf16Append(a[1..], b);
    }
  }

  lemma {:induction false} NoFeedUnit(l: seq<int>)
    requires IsText(l) && NEWLINE !in l
    ensures NEWLINE !in Utf16(l)
  {
    if l != [] {
      NoFeedUnit(l[1..]);
    }
  }

  /** The units of an ended line: a line feed at the end and nowhere else. */
  lemma LineUnits(l: seq<int>)
    requires IsLineText(l)
    ensures var us := Utf16(Ended(l)); |us| > 0 && us[|us| - 1] == NEWLINE && NEWLINE !in us[..|us| - 1]
  {
    Utf16Append(l, [NEWLINE]);
    NoFeedUnit(l);
    assert Utf16([NEWLINE]) == [NEWLINE];
    assert Utf16(Ended(l)) == Utf16(l) + [NEWLINE];
    assert (Utf16(l) + [NEWLINE])[..|Utf16(l)|] == Utf16(l);
  }

  lemma {:induction false} LineFound(us: seq<Unit>, rest: seq<byte>, i: nat)
    requires i < |us| && us[|us| - 1] == NEWLINE && NEWLINE !in us[..|us| - 1]
    ensures LineLength(Le(us) + rest, i) == 2 * |us|
    decreases |us| - i
  {
    LeUnit(us, rest, i);
    hide Le, UnitAt;
    if i < |us| - 1 {
      assert us[i] == us[..|us| - 1][i];
      LineFound(us, rest, i + 1);
    }
  }

  /** A line feed in UTF-16 has a NUL. */
  lemma LineHasNul(us: seq<Unit>, rest: seq<byte>)
    requires |us| > 0 && us[|us| - 1] == NEWLINE
    ensures !NoNul(Le(us) + rest)
  {
    var k := |us| - 1;
    LeUnit(us, rest, k);
    hide Le;
    var b := Le(us) + rest;
    assert b[2 * k + 1] == 0 && b[2 * k + 1] in b;
  }

  lemma SaidLine(l: seq<int>, rest: seq<byte>)
    requires IsLineText(l)
    ensures Said(Le(Utf16(Ended(l))) + rest) == Utf8(Ended(l)) + Said(rest)
    ensures !NoNul(Le(Utf16(Ended(l))) + rest)
  {
    var us := Utf16(Ended(l));
    var b := Le(us) + rest;
    LineUnits(l);
    LineFound(us, rest, 0);
    LineHasNul(us, rest);
    UnitsUndone(us);
    Utf16Undone(Ended(l));
    hide Le, Utf16, LineLength, Units, FromUtf16, NoNul, ValidUtf8, Utf8, Ended;
    assert b[..2 * |us|] == Le(us) && b[2 * |us|..] == rest;
  }

  lemma SaidGuest(guest: seq<byte>)
    requires ValidUtf8(guest) && NoNul(guest)
    ensures Said(guest) == guest
  {
    hide ValidUtf8, LineLength;
  }

  lemma Joined(a: seq<byte>, b: seq<byte>, c: seq<byte>)
    ensures (a + b) + c == a + (b + c)
  {
  }

  lemma {:induction false} SaidLines(ls: seq<seq<int>>, guest: seq<byte>)
    requires AreLines(ls) && ValidUtf8(guest) && NoNul(guest)
    ensures Said(Written(ls) + guest) == Utf8(TextOf(ls)) + guest
    ensures ls != [] ==> !NoNul(Written(ls) + guest)
  {
    assert Utf8([]) == [];
    assert Written(ls) == if ls == [] then [] else Le(Utf16(Ended(ls[0]))) + Written(ls[1..]);
    assert TextOf(ls) == if ls == [] then [] else Ended(ls[0]) + TextOf(ls[1..]);
    hide Written, TextOf, IsLineText, IsText, ValidUtf8, Said, Utf8, Le, Utf16, NoNul, Ended;
    if ls == [] {
      SaidGuest(guest);
      assert Written(ls) + guest == guest && Utf8(TextOf(ls)) + guest == guest;
    } else {
      SaidLines(ls[1..], guest);
      SaidLine(ls[0], Written(ls[1..]) + guest);
      Utf8Append(Ended(ls[0]), TextOf(ls[1..]));
      Joined(Le(Utf16(Ended(ls[0]))), Written(ls[1..]), guest);
      Joined(Utf8(Ended(ls[0])), Utf8(TextOf(ls[1..])), guest);
    }
  }

  lemma NotTrimmed(b: seq<byte>)
    requires NoNul(b)
    ensures TrimNuls(b) == b
  {
    assert b != [] ==> b[|b| - 1] in b;
  }

  /** Lines of wsl.exe followed by what the guest wrote decode to the two texts, one after the other. */
  lemma MixedStream(ls: seq<seq<int>>, guest: seq<byte>)
    requires AreLines(ls) && ValidUtf8(guest) && NoNul(guest)
    ensures Decoded(Written(ls) + guest) == Utf8(TextOf(ls)) + guest
  {
    SaidLines(ls, guest);
    TextNoNul(TextOf(ls));
    NotTrimmed(Utf8(TextOf(ls)) + guest);
    if ls == [] {
      assert Written(ls) + guest == guest && Utf8(TextOf(ls)) + guest == guest;
    }
    hide Said, Utf8, TextOf, Written, ValidUtf8, TrimNuls;
  }

  /** Valid UTF-8 is the UTF-8 of some text, and nothing else is: with TextIsValid. */
  lemma {:induction false} ValidIsText(b: seq<byte>) returns (rs: seq<int>)
    requires ValidUtf8(b)
    ensures IsText(rs) && Utf8(rs) == b
  {
    hide CharLength, Utf8Char;
    rs := [];
    if b != [] {
      var n := CharLength(b);
      var rest := ValidIsText(b[n..]);
      var r := CharIsText(b);
      rs := [r] + rest;
      hide ValidUtf8;
      assert b == b[..n] + b[n..];
      assert rs[1..] == rest;
    }
  }

  /** The base-64 digits of a number. */
  lemma Digits(h: int, x: int, y: int, z: int)
    requires 0 <= h && 0 <= x < 0x40 && 0 <= y < 0x40 && 0 <= z < 0x40
    ensures var r := h * 0x4_0000 + x * 0x1000 + y * 0x40 + z;
            r / 0x4_0000 == h && r / 0x1000 == h * 0x40 + x && r / 0x1000 % 0x40 == x && r / 0x40 % 0x40 == y
            && r % 0x40 == z
    ensures (x * 0x40 + y) / 0x40 == x
  {
  }

  lemma OneIsText(b: seq<byte>) returns (r: int)
    requires CharLength(b) == 1
    ensures IsScalar(r) && Utf8Char(r) == b[..1]
  {
    r := b[0] as int;
  }

  lemma TwoIsText(b: seq<byte>) returns (r: int)
    requires CharLength(b) == 2
    ensures IsScalar(r) && Utf8Char(r) == b[..2]
  {
    var h, z := b[0] as int - 0xC0, b[1] as int - 0x80;
    r := h * 0x40 + z;
    assert 0x80 <= r < 0x800 && r / 0x40 == h && r % 0x40 == z;
    assert Utf8Char(r) == [b[0], b[1]];
  }

  lemma ThreeIsText(b: seq<byte>) returns (r: int)
    requires CharLength(b) == 3
    ensures IsScalar(r) && Utf8Char(r) == b[..3]
  {
    var h, y, z := b[0] as int - 0xE0, b[1] as int - 0x80, b[2] as int - 0x80;
    assert 0 <= h < 0x10 && (h == 0 ==> y >= 0x20) && (h == 0xD ==> y <= 0x1F);
    Digits(0, h, y, z);
    r := h * 0x1000 + y * 0x40 + z;
    hide CharLength;
    assert 0x800 <= r < 0x1_0000 && IsScalar(r) && r / 0x1000 == h;
    assert Utf8Char(r) == [b[0], b[1], b[2]];
  }

  lemma FourIsText(b: seq<byte>) returns (r: int)
    requires CharLength(b) == 4
    ensures IsScalar(r) && Utf8Char(r) == b[..4]
  {
    var h, x, y, z := b[0] as int - 0xF0, b[1] as int - 0x80, b[2] as int - 0x80, b[3] as int - 0x80;
    assert 0 <= h <= 4 && (h == 0 ==> x >= 0x10) && (h == 4 ==> x <= 0xF);
    Digits(h, x, y, z);
    r := h * 0x4_0000 + x * 0x1000 + y * 0x40 + z;
    hide CharLength;
    assert 0x1_0000 <= r <= 0x10FFFF;
    assert Utf8Char(r) == [b[0], b[1], b[2], b[3]];
  }

  lemma CharIsText(b: seq<byte>) returns (r: int)
    requires CharLength(b) > 0
    ensures IsScalar(r) && Utf8Char(r) == b[..CharLength(b)]
  {
    hide CharLength, Utf8Char;
    var n := CharLength(b);
    if n == 1 {
      r := OneIsText(b);
    } else if n == 2 {
      r := TwoIsText(b);
    } else if n == 3 {
      r := ThreeIsText(b);
    } else {
      r := FourIsText(b);
    }
  }
}
