/** Managed blocks in a user's file (Merge and Unmerge in internal/proxy/files.go). */
module Managed {
  import opened Text

  const BEGIN := "# >>> wslkit proxy >>>"
  const END := "# <<< wslkit proxy <<<"

  /* ---- finding a text in another ---- */

  predicate Has(s: string, sep: string) {
    Find(s, sep).Some?
  }

  /** There, and nowhere before. */
  predicate FirstAt(s: string, sep: string, i: nat) {
    && i <= |s| && sep <= s[i..]
    && forall k :: 0 <= k < i ==> !(sep <= s[k..])
  }

  lemma {:induction false} FindFirst(s: string, sep: string)
    ensures Find(s, sep).Some? ==> FirstAt(s, sep, Find(s, sep).value)
    ensures Find(s, sep).None? ==> forall k :: 0 <= k <= |s| ==> !(sep <= s[k..])
  {
    if sep <= s {
      assert s[0..] == s;
    } else if s != "" {
      FindFirst(s[1..], sep);
      assert s[0..] == s;
      forall k | 0 < k <= |s| ensures s[1..][k - 1..] == s[k..] {
      }
    }
  }

  lemma {:induction false} FirstFound(s: string, sep: string, i: nat)
    requires FirstAt(s, sep, i)
    ensures Find(s, sep) == Some(i)
  {
    FindFirst(s, sep);
    assert sep <= s[i..];
  }

  lemma CharOf(s: string, sep: string, k: nat, p: nat)
    requires k <= |s| && sep <= s[k..] && p < |s|
    ensures k <= p < k + |sep| ==> sep[p - k] == s[p]
  {
  }

  /** What is found before the end of a text is found in the text, and the other way round. */
  lemma InPrefix(a: string, rest: string, sep: string, k: nat)
    requires k + |sep| <= |a|
    ensures sep <= (a + rest)[k..] <==> sep <= a[k..]
  {
    assert (a + rest)[k..] == a[k..] + rest;
  }

  /** A one-line text that begins in a text ended by a line break lies in it. */
  lemma InFront(a: string, rest: string, sep: string, k: nat)
    requires '\n' !in sep && EndsWith(a, '\n') && k < |a| && sep <= (a + rest)[k..]
    ensures k + |sep| < |a| && sep <= a[k..]
  {
    CharOf(a + rest, sep, k, |a| - 1);
    InPrefix(a, rest, sep, k);
  }

  /** After a text that ends in a line break, or none at all, a one-line text is first found where it
      was put: it cannot begin before the break. */
  lemma FoundAfterBreak(a: string, sep: string, rest: string)
    requires sep != "" && '\n' !in sep && !Has(a, sep) && (a == "" || EndsWith(a, '\n'))
    ensures Find(a + sep + rest, sep) == Some(|a|)
  {
    var s := a + sep + rest;
    assert s == a + (sep + rest) && s[|a|..] == sep + rest;
    FindFirst(a, sep);
    forall k | 0 <= k < |a| ensures !(sep <= s[k..]) {
      if sep <= s[k..] {
        InFront(a, sep + rest, sep, k);
      }
    }
    FirstFound(s, sep, |a|);
  }

  /** Only what comes before the end of the first occurrence decides where it is. */
  lemma FoundAgain(a: string, sep: string, rest: string, other: string)
    requires Find(a + sep + rest, sep) == Some(|a|)
    ensures Find(a + sep + other, sep) == Some(|a|)
  {
    var s, t := a + sep + rest, a + sep + other;
    assert t[|a|..] == sep + other;
    FindFirst(s, sep);
    forall k | 0 <= k < |a| ensures !(sep <= t[k..]) {
      InPrefix(a + sep, rest, sep, k);
      InPrefix(a + sep, other, sep, k);
    }
    FirstFound(t, sep, |a|);
  }

  /* ---- merging ---- */

  function TrimBreaks(s: string): string {
    if EndsWith(s, '\n') then TrimBreaks(s[..|s| - 1]) else s
  }

  function Breaks(k: nat): string {
    seq(k, _ => '\n')
  }

  /** All the line breaks at the end are taken off, and nothing else. */
  lemma {:induction false} OnlyBreaksGo(s: string)
    ensures !EndsWith(TrimBreaks(s), '\n') && exists k: nat :: s == TrimBreaks(s) + Breaks(k)
  {
    if EndsWith(s, '\n') {
      var t := s[..|s| - 1];
      OnlyBreaksGo(t);
      var k: nat :| t == TrimBreaks(t) + Breaks(k);
      assert Breaks(k + 1) == Breaks(k) + "\n" && s == t + "\n";
      assert s == TrimBreaks(s) + Breaks(k + 1);
    } else {
      assert s == s + Breaks(0);
    }
  }

  function Block(block: string): string {
    BEGIN + "\n" + TrimBreaks(block) + "\n" + END + "\n"
  }

  /** A file in three parts: what comes before the block, whether there is one, what comes after. */
  datatype Split = NoBlock | Truncated(before: string) | Complete(before: string, after: string)

  function Parts(s: string): Split {
    var b := Find(s, BEGIN);
    if b.None? then NoBlock
    else
      var rest := s[b.value + |BEGIN|..];
      var e := Find(rest, END);
      if e.None? then Truncated(s[..b.value])
      else Complete(s[..b.value], TrimPrefix(rest[e.value + |END|..], "\n"))
  }

  function LineEnded(s: string): string {
    if s != "" && !EndsWith(s, '\n') then s + "\n" else s
  }

  function Merge(existing: string, block: string): string {
    match Parts(existing)
    case NoBlock => LineEnded(existing) + Block(block)
    case Truncated(before) => before + Block(block)
    case Complete(before, after) => before + Block(block) + after
  }

  function Unmerge(existing: string): (string, bool) {
    match Parts(existing)
    case NoBlock => (existing, false)
    case Truncated(before) => (before, true)
    case Complete(before, after) => (before + after, true)
  }

  /** The user's own lines: what stands outside a block. */
  function Own(s: string): (string, string) {
    match Parts(s)
    case NoBlock => (LineEnded(s), "")
    case Truncated(before) => (before, "")
    case Complete(before, after) => (before, after)
  }

  /** A block begins after `before` and goes on with `inside`; `after` is what follows its end and the line
      break there. A block that does not end has nothing after it. */
  predicate Surrounds(x: string, before: string, inside: string, after: string) {
    && FirstAt(x, BEGIN, |before|)
    && if Has(x[|before| + |BEGIN|..], END) then
         && FirstAt(x[|before| + |BEGIN|..], END, |inside|)
         && (x == before + BEGIN + inside + END + "\n" + after
             || (x == before + BEGIN + inside + END + after && !("\n" <= after)))
       else x == before + BEGIN + inside && after == ""
  }

  /** What stands before and after the block of a text; one without a block stands before it, its last line
      ended. */
  ghost predicate Around(x: string, before: string, after: string) {
    if Has(x, BEGIN) then exists inside :: Surrounds(x, before, inside, after)
    else after == "" && before == if x == "" || EndsWith(x, '\n') then x else x + "\n"
  }

  lemma Enclosed(front: string, rest: string, e: nat)
    requires e <= |rest| && END <= rest[e..]
    ensures var tail := rest[e + |END|..];
            && front + rest == front + rest[..e] + END + tail
            && ("\n" <= tail ==> front + rest == front + rest[..e] + END + "\n" + tail[1..])
  {
    var tail := rest[e + |END|..];
    assert rest == rest[..e] + END + tail;
    hide *;
    assert "\n" <= tail ==> tail == "\n" + tail[1..];
  }

  lemma BlockInside(x: string, b: nat)
    requires FirstAt(x, BEGIN, b)
    ensures var rest := x[b + |BEGIN|..];
            var e := Find(rest, END);
            if e.None? then Surrounds(x, x[..b], rest, "")
            else Surrounds(x, x[..b], rest[..e.value], TrimPrefix(rest[e.value + |END|..], "\n"))
  {
    var rest := x[b + |BEGIN|..];
    FindFirst(rest, END);
    var e := Find(rest, END);
    hide Find, FirstAt;
    assert x == x[..b] + BEGIN + rest;
    if e.Some? {
      assert END <= rest[e.value..] by { hide *; FindFirst(rest, END); }
      Enclosed(x[..b] + BEGIN, rest, e.value);
    }
  }

  lemma OwnIs(x: string)
    ensures Around(x, Own(x).0, Own(x).1)
  {
    FindFirst(x, BEGIN);
    hide Find, FirstAt, Surrounds, TrimPrefix, EndsWith;
    if Has(x, BEGIN) {
      BlockInside(x, Find(x, BEGIN).value);
    }
  }

  lemma MergeIs(x: string, b: string)
    ensures Merge(x, b) == Own(x).0 + Block(b) + Own(x).1
  {
  }

  /** A block that holds the end marker itself ends there. */
  predicate Clean(block: string) {
    !Has(TrimBreaks(block), END)
  }

  lemma OneLineMarkers()
    ensures '\n' !in BEGIN && '\n' !in END && BEGIN != "" && END != ""
  {
  }

  /** The begin marker of a merged file is where the block was put. */
  lemma BeginFound(x: string, tail: string)
    ensures Find(Own(x).0 + BEGIN + tail, BEGIN) == Some(|Own(x).0|)
  {
    OneLineMarkers();
    var b := Find(x, BEGIN);
    if b.None? {
      NoneInEnded(x);
      FoundAfterBreak(LineEnded(x), BEGIN, tail);
    } else {
      FindFirst(x, BEGIN);
      var rest := x[b.value + |BEGIN|..];
      assert x == x[..b.value] + BEGIN + rest;
      FoundAgain(x[..b.value], BEGIN, rest, tail);
      assert Own(x).0 == x[..b.value];
    }
  }

  /** A line break at either end does not make a one-line text appear. */
  lemma NoneWithBreak(x: string, sep: string)
    requires sep != "" && '\n' !in sep && !Has(x, sep)
    ensures !Has(x + "\n", sep) && !Has("\n" + x, sep)
  {
    var s, t := x + "\n", "\n" + x;
    FindFirst(x, sep);
    FindFirst(s, sep);
    FindFirst(t, sep);
    if Has(s, sep) {
      BeforeBreak(x, sep, Find(s, sep).value);
    }
    if Has(t, sep) {
      AfterBreak(x, sep, Find(t, sep).value);
    }
  }

  lemma BeforeBreak(x: string, sep: string, k: nat)
    requires sep != "" && '\n' !in sep && k <= |x| + 1 && sep <= (x + "\n")[k..]
    ensures k <= |x| && sep <= x[k..]
  {
    CharOf(x + "\n", sep, k, |x|);
    if k <= |x| {
      InFront(x + "\n", "", sep, k);
      assert x + "\n" + "" == x + "\n";
      InPrefix(x, "\n", sep, k);
    }
  }

  lemma AfterBreak(x: string, sep: string, k: nat)
    requires sep != "" && '\n' !in sep && k <= |x| + 1 && sep <= ("\n" + x)[k..]
    ensures k > 0 && sep <= x[k - 1..]
  {
    CharOf("\n" + x, sep, k, 0);
    assert k > 0 ==> ("\n" + x)[k..] == x[k - 1..];
  }

  lemma NoneInEnded(x: string)
    requires !Has(x, BEGIN)
    ensures !Has(LineEnded(x), BEGIN)
  {
    OneLineMarkers();
    NoneWithBreak(x, BEGIN);
  }

  /** What follows the begin marker in a merged file. */
  function Tail(block: string, after: string): string {
    "\n" + TrimBreaks(block) + "\n" + END + "\n" + after
  }

  lemma FoundInLines(b: string, sep: string, rest: string)
    requires sep != "" && '\n' !in sep
    ensures !Has(b, sep) ==> Find("\n" + b + "\n" + sep + rest, sep) == Some(|b| + 2)
    ensures Has(b, sep) ==> Has("\n" + b + "\n" + sep + rest, sep)
                            && Find("\n" + b + "\n" + sep + rest, sep).value + |sep| <= |b| + 1
  {
    var front := "\n" + b + "\n";
    if !Has(b, sep) {
      NoneWithBreak(b, sep);
      NoneWithBreak(b + "\n", sep);
      assert "\n" + (b + "\n") == front;
      FoundAfterBreak(front, sep, rest);
    } else {
      FindFirst(b, sep);
      var k := Find(b, sep).value;
      var s := front + sep + rest;
      assert s[k + 1..] == b[k..] + s[|b| + 1..];
      FoundBy(s, sep, k + 1);
    }
  }

  /** The end marker is found after the block, if and only if the block does not hold it. */
  lemma EndFound(block: string, after: string)
    ensures Clean(block) ==> Find(Tail(block, after), END) == Some(|TrimBreaks(block)| + 2)
    ensures !Clean(block) ==> Has(Tail(block, after), END)
                              && Find(Tail(block, after), END).value + |END| <= |TrimBreaks(block)| + 1
  {
    OneLineMarkers();
    hide Find, TrimBreaks;
    var b := TrimBreaks(block);
    assert "\n" + b + "\n" + END + ("\n" + after) == Tail(block, after);
    FoundInLines(b, END, "\n" + after);
  }

  /** A text that occurs is found there or before. */
  lemma FoundBy(s: string, sep: string, i: nat)
    requires i <= |s| && sep <= s[i..]
    ensures Has(s, sep) && Find(s, sep).value <= i
  {
    FindFirst(s, sep);
  }

  lemma MergedIs(x: string, b: string)
    ensures Merge(x, b) == Own(x).0 + BEGIN + Tail(b, Own(x).1)
  {
    MergeIs(x, b);
    var before, after := Own(x).0, Own(x).1;
    hide Merge, Own, TrimBreaks;
    assert before + Block(b) + after == before + BEGIN + Tail(b, after);
  }

  /** What comes after the first end marker of a text, without one line break. */
  function After(rest: string): string
    requires Has(rest, END)
  {
    TrimPrefix(rest[Find(rest, END).value + |END|..], "\n")
  }

  lemma PartsAt(s: string, before: string, tail: string)
    requires Find(s, BEGIN) == Some(|before|) && |before| + |BEGIN| <= |s| && Has(tail, END)
    requires s[..|before|] == before && s[|before| + |BEGIN|..] == tail
    ensures Parts(s) == Complete(before, After(tail))
  {
    hide Find;
  }

  lemma Pieces(a: string, sep: string, b: string)
    ensures (a + sep + b)[|a| + |sep|..] == b && (a + sep + b)[..|a|] == a
  {
  }

  lemma AfterTail(b: string, after: string)
    ensures Has(Tail(b, after), END)
    ensures Clean(b) ==> After(Tail(b, after)) == after
    ensures !Clean(b) ==> |After(Tail(b, after))| > |after|
  {
    EndFound(b, after);
    OneLineMarkers();
    var tail := Tail(b, after);
    var e := Find(tail, END).value;
    if Clean(b) {
      assert tail[e + |END|..] == "\n" + after;
      assert ("\n" + after)[1..] == after;
    } else {
      hide Find, TrimBreaks;
      assert |tail[e + |END|..]| >= |"\n" + END + "\n" + after|;
    }
  }

  /** The parts of a merged file: the user's own lines, unless the block ends early. */
  lemma MergedParts(x: string, b: string)
    ensures Parts(Merge(x, b)).Complete? && Parts(Merge(x, b)).before == Own(x).0
    ensures if Clean(b) then Parts(Merge(x, b)).after == Own(x).1
            else |Parts(Merge(x, b)).after| > |Own(x).1|
  {
    hide Find, Own, Merge, Parts, After, Clean, Tail;
    MergedIs(x, b);
    BeginFound(x, Tail(b, Own(x).1));
    AfterTail(b, Own(x).1);
    Pieces(Own(x).0, BEGIN, Tail(b, Own(x).1));
    PartsAt(Merge(x, b), Own(x).0, Tail(b, Own(x).1));
  }

  /** Merging again replaces what the first merge put in, if and only if the first block did not hold
      the end marker. */
  lemma MergeReplaces(x: string, a: string, b: string)
    ensures Merge(Merge(x, a), b) == Merge(x, b) <==> Clean(a)
  {
    MergedParts(x, a);
    MergeIs(Merge(x, a), b);
    MergeIs(x, b);
  }

  /** Applying the same block twice changes nothing the second time. */
  lemma MergeTwice(x: string, b: string)
    ensures Merge(Merge(x, b), b) == Merge(x, b) <==> Clean(b)
  {
    MergeReplaces(x, b, b);
  }

  /** Unmerging a merged file gives the user's own lines back: the file as it was, with its last line
      ended if there was no block in it, and without the block there was, if and only if the block
      that was merged did not hold the end marker. */
  lemma UnmergeRestores(x: string, b: string)
    ensures Unmerge(Merge(x, b)).1
    ensures Unmerge(Merge(x, b)).0 == Own(x).0 + Own(x).1 <==> Clean(b)
  {
    MergedParts(x, b);
  }

  /** A block with the end marker in it, merged into an empty file twice, is there one and a half times. */
  lemma EndMarkerInBlock()
    ensures !Clean(END) && Merge(Merge("", END), END) != Merge("", END)
  {
    OneLineMarkers();
    assert END[|END| - 1] == '<' && TrimBreaks(END) == END;
    MergeTwice("", END);
  }

  /* ---- the code ---- */

  method Cut(s: string, sep: string) returns (before: string, after: string, found: bool)
    ensures found == Has(s, sep)
    ensures found ==> before == s[..Find(s, sep).value] && after == s[Find(s, sep).value + |sep|..]
    ensures !found ==> before == s && after == ""
  {
    var i := Find(s, sep);
    found := i.Some?;
    before := if found then s[..i.value] else s;
    after := if found then s[i.value + |sep|..] else "";
  }

  method MergeBlock(existing: string, block: string) returns (r: string)
    ensures r == Merge(existing, block)
  {
    hide Find;
    var managed := BEGIN + "\n" + TrimBreaks(block) + "\n" + END + "\n";
    var before, rest, found := Cut(existing, BEGIN);
    if !found {
      var e := existing;
      if existing != "" && !EndsWith(existing, '\n') {
        e := e + "\n";
      }
      return e + managed;
    }
    var _, after, ok := Cut(rest, END);
    if !ok {
      return before + managed;
    }
    r := before + managed + TrimPrefix(after, "\n");
  }

  method UnmergeBlock(existing: string) returns (r: string, had: bool)
    ensures (r, had) == Unmerge(existing)
  {
    hide Find;
    var before, rest, found := Cut(existing, BEGIN);
    if !found {
      return existing, false;
    }
    var _, after, ok := Cut(rest, END);
    if !ok {
      return before, true;
    }
    r, had := before + TrimPrefix(after, "\n"), true;
  }
}
