/** Repointing a registration (repoint and Relink in internal/disk/relink.go). */
module Relink {
  import opened Text
  import opened Paths
  import opened World
  import opened Undo

  /** The registry once `g` points at `target`. An entry that never carried a file name gets none. */
  function Pointed(s: State, g: Guid, target: Path, base: string): State
    requires g in s.keys
  {
    var k := s.keys[g];
    var strings := k.strings[BasePath := base];
    s.(keys := s.keys[g := k.(strings :=
      if VhdFileName in strings then strings[VhdFileName := BaseOf(target)] else strings)])
  }

  /** Only the registration under `g` may differ. */
  predicate OnlyKey(s: State, t: State, g: Guid) {
    && t.files == s.files && t.default == s.default
    && g in t.keys && t.keys - {g} == s.keys - {g}
  }

  /** The name the repointed registration will open is the target's own. */
  predicate NameFits(s: State, g: Guid, target: Path)
    requires g in s.keys
  {
    VhdFileName in s.keys[g].strings || SamePath(BaseOf(target), DEFAULT_VHD_NAME)
  }

  predicate PutsBack(e: Entry, g: Guid) {
    e.call.WriteString? && e.call.guid == g && !e.unlessHeld
  }

  /** The registry as a rollback leaves it: a BasePath that was not there is now there and empty. */
  function Based(s: State, g: Guid): State
    requires g in s.keys
  {
    var k := s.keys[g];
    if BasePath in k.strings then s else s.(keys := s.keys[g := k.(strings := k.strings[BasePath := ""])])
  }

  /** That is the registry as it was if and only if there was a BasePath; either way every value reads
      as it did. */
  lemma BasedReadsTheSame(s: State, g: Guid)
    requires g in s.keys
    ensures Based(s, g) == s <==> BasePath in s.keys[g].strings
    ensures OnlyKey(s, Based(s, g), g)
    ensures forall n :: Based(s, g).keys[g].Str(n) == s.keys[g].Str(n)
    ensures Based(s, g).keys[g].numbers == s.keys[g].numbers
  {
    var t := Based(s, g);
    assert BasePath !in s.keys[g].strings ==> BasePath in t.keys[g].strings;
    assert t.keys - {g} == s.keys - {g};
  }

  /** The value read before the first write, written back. */
  lemma BaseInverse(s: State, g: Guid, v: string)
    requires g in s.keys
    ensures var t := Effect(s, WriteString(g, BasePath, v));
            Effect(t, WriteString(g, BasePath, s.keys[g].Str(BasePath))) == Based(s, g)
  {
    hide CanonicalPath;
    var b := Based(s, g);
    WriteInverse(b, g, BasePath, v);
    assert b.keys[g].strings[BasePath := v] == s.keys[g].strings[BasePath := v];
    assert Effect(b, WriteString(g, BasePath, v)) == Effect(s, WriteString(g, BasePath, v));
  }

  /** How many values were written. */
  function Writes(steps: seq<Step>): nat {
    if steps == [] then 0
    else Writes(steps[..|steps| - 1]) + if steps[|steps| - 1].call.WriteString? && steps[|steps| - 1].ok then 1 else 0
  }

  lemma WritesSnoc(steps: seq<Step>, step: Step)
    ensures Writes(steps + [step]) == Writes(steps) + if step.call.WriteString? && step.ok then 1 else 0
  {
    assert (steps + [step])[..|steps|] == steps;
  }

  lemma {:induction false} WritesAppend(a: seq<Step>, b: seq<Step>)
    ensures Writes(a + b) == Writes(a) + Writes(b)
  {
    if b == [] {
      assert a + b == a;
    } else {
      var last := |b| - 1;
      WritesAppend(a, b[..last]);
      assert (a + b)[..|a + b| - 1] == a + b[..last];
    }
  }

  /** What puts the values back that repointing writes, in the order it writes them. */
  function Reverts(s: State, g: Guid): seq<Entry>
    requires g in s.keys
  {
    var k := s.keys[g];
    [Entry(WriteString(g, BasePath, k.Str(BasePath)), false)]
    + if VhdFileName in k.strings then [Entry(WriteString(g, VhdFileName, k.strings[VhdFileName]), false)] else []
  }

  lemma RevertsPutBack(s: State, g: Guid, first: seq<Entry>, j: nat)
    requires g in s.keys && j <= |Reverts(s, g)|
    ensures var es := first + Reverts(s, g)[..j]; forall i :: |first| <= i < |es| ==> PutsBack(es[i], g)
  {
  }

  lemma NoneWritten(s: State, g: Guid, before: seq<Entry>)
    requires g in s.keys
    ensures Writes([]) == 0 && before + Reverts(s, g)[..0] == before && |Reverts(s, g)| > 0
  {
  }

  lemma OneWritten(s: State, g: Guid, before: seq<Entry>, a: Step)
    requires g in s.keys && a.call.WriteString?
    ensures Writes([a]) == if a.ok then 1 else 0
    ensures before + Reverts(s, g)[..1] == before + [Entry(WriteString(g, BasePath, s.keys[g].Str(BasePath)), false)]
  {
    WritesSnoc([], a);
    assert [] + [a] == [a];
  }

  lemma TwoWritten(s: State, g: Guid, before: seq<Entry>, a: Step, b: Step)
    requires g in s.keys && a.call.WriteString? && b.call.WriteString? && a.ok && VhdFileName in s.keys[g].strings
    ensures Writes([a, b]) == if b.ok then 2 else 1
    ensures var base := Entry(WriteString(g, BasePath, s.keys[g].Str(BasePath)), false);
            && |Reverts(s, g)| == 2
            && before + Reverts(s, g)[..2]
               == before + [base] + [Entry(WriteString(g, VhdFileName, s.keys[g].strings[VhdFileName]), false)]
  {
    OneWritten(s, g, before, a);
    WritesSnoc([a], b);
    assert [a] + [b] == [a, b];
  }

  method Repoint(w: Machine, r: Registration, target: Path, intendedBase: string, undo: UndoStack)
    returns (ok: bool)
    requires w.st.Registered(r)
    requires AllAtomic(undo.entries)
    modifies w`st, w`trace, w`refusals, undo
    // It fails for a reason.
    ensures w.refusals >= old(w.refusals)
    ensures ok <==> AllWorked(w.trace, |old(w.trace)|) && w.refusals == old(w.refusals)
                    && NameFits(old(w.st), r.guid, target)
    // What the stack would put back is unchanged, however far this got, but for a BasePath that was
    // not there.
    ensures Undone(undo.entries, w.st)
            == Undone(old(undo.entries),
                      if undo.entries == old(undo.entries) then old(w.st) else Based(old(w.st), r.guid))
    ensures old(w.trace) <= w.trace && StateAt(old(w.st), w.trace, |old(w.trace)|, |w.trace|) == w.st
    // One entry for each value that was written.
    ensures var j := Writes(w.trace[|old(w.trace)|..]);
            && j <= |Reverts(old(w.st), r.guid)|
            && undo.entries == old(undo.entries) + Reverts(old(w.st), r.guid)[..j]
    ensures forall i :: |old(w.trace)| <= i < |w.trace| ==>
              OnlyKey(old(w.st), w.trace[i].after, r.guid) && w.trace[i].call.WriteString?
    ensures OnlyKey(old(w.st), w.st, r.guid)
    ensures ok ==> w.st == Pointed(old(w.st), r.guid, target, intendedBase)
  {
    hide CanonicalPath, BaseOf, Based, Effect, Enabled, Undone, Writes, Reverts;
    ghost var s, n, before := w.st, |w.trace|, undo.entries;
    NoneWritten(s, r.guid, before);
    assert w.trace[n..] == [];
    // What a rollback will write back.
    var read, prevBase := w.ReadString(r.guid, BasePath);
    if !read {
      return false;
    }
    var readName, prevName := w.ReadString(r.guid, VhdFileName);
    if !readName {
      return false;
    }
    BaseInverse(old(w.st), r.guid, intendedBase);
    ok := Rewrite(w, r.guid, BasePath, intendedBase, if prevBase.Some? then prevBase.value else "", undo,
                  Based(old(w.st), r.guid));
    assert w.trace[n..] == [w.trace[n]];
    OneWritten(s, r.guid, before, w.trace[n]);
    if !ok {
      return;
    }
    ghost var mid := w.st;
    WrittenBase(old(w.st), mid, r.guid, intendedBase);
    if prevName.Some? {
      WriteInverse(mid, r.guid, VhdFileName, BaseOf(target));
      ok := Rewrite(w, r.guid, VhdFileName, BaseOf(target), prevName.value, undo, mid);
      assert w.trace[n..] == [w.trace[n], w.trace[n + 1]];
      TwoWritten(s, r.guid, before, w.trace[n], w.trace[n + 1]);
      WrittenName(old(w.st), mid, w.st, r.guid, target, intendedBase, ok);
    } else if !SamePath(BaseOf(target), DEFAULT_VHD_NAME) {
      ok := false;
    }
  }

  /** One value written, and what puts `back` on the stack. */
  method Rewrite(w: Machine, g: Guid, n: StringValue, v: string, prev: string, undo: UndoStack, ghost back: State)
    returns (ok: bool)
    requires g in w.st.keys
    requires Effect(Effect(w.st, WriteString(g, n, v)), WriteString(g, n, prev)) == back
    modifies w`st, w`trace, undo
    ensures w.trace == old(w.trace) + [Step(WriteString(g, n, v), ok, old(w.st), w.st)]
    ensures OnlyKey(old(w.st), w.st, g)
    ensures !ok ==> w.st == old(w.st) && undo.entries == old(undo.entries)
    ensures ok ==>
              && w.st == Effect(old(w.st), WriteString(g, n, v))
              && undo.entries == old(undo.entries) + [Entry(WriteString(g, n, prev), false)]
              && Undone(undo.entries, w.st) == Undone(old(undo.entries), back)
  {
    hide CanonicalPath, Undone;
    ok := w.Do(WriteString(g, n, v));
    if ok {
      PushInverse(undo.entries, Entry(WriteString(g, n, prev), false), back, w.st);
      undo.Push(WriteString(g, n, prev), false);
    }
  }

  lemma WrittenBase(s: State, mid: State, g: Guid, base: string)
    requires g in s.keys && mid == Effect(s, WriteString(g, BasePath, base))
    ensures g in mid.keys && OnlyKey(s, mid, g)
    ensures VhdFileName in mid.keys[g].strings <==> VhdFileName in s.keys[g].strings
    ensures VhdFileName in s.keys[g].strings ==> mid.keys[g].strings[VhdFileName] == s.keys[g].strings[VhdFileName]
    ensures forall target :: VhdFileName !in s.keys[g].strings ==> mid == Pointed(s, g, target, base)
  {
    hide CanonicalPath, BaseOf;
  }

  lemma WrittenName(s: State, mid: State, t: State, g: Guid, target: Path, base: string, ok: bool)
    requires g in s.keys && mid == Effect(s, WriteString(g, BasePath, base)) && VhdFileName in s.keys[g].strings
    requires if ok then t == Effect(mid, WriteString(g, VhdFileName, BaseOf(target))) else t == mid
    ensures OnlyKey(s, t, g) && (ok ==> t == Pointed(s, g, target, base))
  {
    hide CanonicalPath, BaseOf;
  }

  /** Where a repointed registration leads. */
  lemma PointedNames(s: State, g: Guid, target: Path, dir: Path)
    requires g in s.keys && s.keys[g].Num(Version) == 2
    requires NameFits(s, g, target)
    requires PlainName(BaseOf(target)) && TrimSeparators(TrimPrefix(dir, EXTENDED)) != ""
    requires Repointable(dir) && SamePath(JoinWindows(dir, BaseOf(target)), target)
    ensures var k := Pointed(s, g, target, WithSamePrefixAs(s.keys[g].Str(BasePath), dir)).keys[g];
            k.VhdPath() != "" && SamePath(k.VhdPath(), target)
  {
    var k := Pointed(s, g, target, WithSamePrefixAs(s.keys[g].Str(BasePath), dir)).keys[g];
    RepointedDisk(s.keys[g].Str(BasePath), dir, k.Str(VhdFileName), BaseOf(target));
  }

  lemma RelinkReaches(s: State, g: Guid, target: Path)
    requires g in s.keys && s.keys[g].Num(Version) == 2 && NameFits(s, g, target)
    ensures FileTarget(target) && Repointable(DirOf(target)) ==>
              var t := Pointed(s, g, target, WithSamePrefixAs(s.keys[g].Str(BasePath), DirOf(target)));
              SamePath(t.keys[g].VhdPath(), target)
  {
    if FileTarget(target) && Repointable(DirOf(target)) {
      DirAndBaseRejoin(target);
      PointedNames(s, g, target, DirOf(target));
    }
  }

  datatype RelinkOutcome =
    | Relinked
    | RepointFailed(rolledBack: seq<bool>)
    | WouldNotStart(rolledBack: seq<bool>)
    | ReadsBackWrong

  /** A run that ends with a rollback from step `k` on: what was first done to the files is undone, and
      every value that was written before is written back. */
  ghost predicate TakenBack(s0: State, trace: seq<Step>, n: nat, k: nat, first: seq<Entry>, g: Guid,
                            oks: seq<bool>, held: bool)
  {
    && n <= k <= |trace| && g in s0.keys
    && Writes(trace[n..k]) <= |Reverts(s0, g)|
    && Unwound(trace, k, first + Reverts(s0, g)[..Writes(trace[n..k])], oks, held, StateAt(s0, trace, n, k))
  }

  ghost predicate EndsTakenBack(s0: State, trace: seq<Step>, n: nat, first: seq<Entry>, g: Guid, oks: seq<bool>,
                                held: bool)
  {
    exists k: nat :: TakenBack(s0, trace, n, k, first, g, oks, held)
  }

  lemma UndoneNothing()
    ensures forall s :: Undone([], s) == s
  {
  }

  method TakeBack(w: Machine, undo: UndoStack, ghost g: Guid, ghost s0: State, ghost n: nat) returns (oks: seq<bool>)
    requires g in s0.keys && OnlyKey(s0, w.st, g)
    requires n <= |w.trace| && StateAt(s0, w.trace, n, |w.trace|) == w.st
    requires Writes(w.trace[n..]) <= |Reverts(s0, g)| && undo.entries == Reverts(s0, g)[..Writes(w.trace[n..])]
    requires Undone(undo.entries, w.st) == if undo.entries == [] then s0 else Based(s0, g)
    modifies undo, w`st, w`trace
    ensures old(w.trace) <= w.trace
    ensures forall i :: |old(w.trace)| <= i < |w.trace| ==> OnlyKey(s0, w.trace[i].after, g)
    ensures TakenBack(s0, w.trace, n, |old(w.trace)|, [], g, oks, false)
    ensures AllOk(oks) ==> w.st == if oks == [] then s0 else Based(s0, g)
  {
    hide CanonicalPath, Based, Writes, Effect, Enabled, Undone, OnlyKey;
    ghost var es, s, k := undo.entries, w.st, |w.trace|;
    oks := undo.Unwind(w, false);
    assert w.trace[n..k] == old(w.trace)[n..] && w.trace[k..] == Steps(es, oks, false, s);
    assert [] + es == es;
    OnlyKeyKept(es, oks, s, s0, g);
    hide Steps, Answers, After, Reverts;
    forall i | k <= i < |w.trace| ensures OnlyKey(s0, w.trace[i].after, g) {
      assert w.trace[i] == Steps(es, oks, false, s)[i - k];
    }
    if AllOk(oks) {
      AllOkIsUndone(es, oks, s);
    }
  }

  /** Makes the registration of a distribution name a disk file that was moved by hand. */
  method Relink(w: Machine, r: Registration, target: Path) returns (o: RelinkOutcome)
    requires w.st.Registered(r) && r.key.Num(Version) == 2
    modifies w`st, w`trace, w`refusals
    ensures old(w.trace) <= w.trace
    ensures forall i :: |old(w.trace)| <= i < |w.trace| ==> OnlyKey(old(w.st), w.trace[i].after, r.guid)
    // It succeeds if everything that it asks for works.
    ensures !o.ReadsBackWrong?
    ensures AllWorked(w.trace, |old(w.trace)|) && w.refusals == old(w.refusals) ==>
              (o.Relinked? <==> NameFits(old(w.st), r.guid, target))
    ensures o.Relinked? ==>
              && w.st == Pointed(old(w.st), r.guid, target, WithSamePrefixAs(r.key.Str(BasePath), DirOf(target)))
              && NameFits(old(w.st), r.guid, target) && AllWorked(w.trace, |old(w.trace)|)
              && FormKept(r.key.Str(BasePath), DirOf(target), w.st.keys[r.guid].Str(BasePath))
              && |w.trace| > |old(w.trace)| && w.trace[|w.trace| - 1] == Step(Start(r.key.Name()), true, w.st, w.st)
              && (FileTarget(target) && Repointable(DirOf(target)) ==> SamePath(w.st.keys[r.guid].VhdPath(), target))
    // Otherwise what was written is taken back, after the start that failed if there was one.
    ensures !o.Relinked? ==>
              exists k: nat :: TakenBack(old(w.st), w.trace, |old(w.trace)|, k, [], r.guid, o.rolledBack, false)
                          && (o.WouldNotStart? <==> k > |old(w.trace)| && w.trace[k - 1].call == Start(r.key.Name()))
    // A rollback in which every call worked is exact, for a registration with a BasePath.
    ensures !o.Relinked? && AllOk(o.rolledBack) ==>
              w.st == if o.rolledBack == [] then old(w.st) else Based(old(w.st), r.guid)
  {
    hide CanonicalPath, DirOf, BaseOf, JoinWindows, TrimSeparators, Based, Writes, Reverts, Effect, Enabled, Undone,
      WithSamePrefixAs;
    ghost var s0, n := w.st, |w.trace|;
    var undo := new UndoStack();
    UndoneNothing();
    var intendedBase := WithSamePrefixAs(r.key.Str(BasePath), DirOf(target));
    var pointed := Repoint(w, r, target, intendedBase, undo);
    assert undo.entries == Reverts(s0, r.guid)[..Writes(w.trace[n..])];
    var up := false;
    ghost var before := w.trace;
    if pointed {
      up := w.Do(Start(r.key.Name()));
      assert w.trace[n..] == before[n..] + [w.trace[|w.trace| - 1]];
      WritesSnoc(before[n..], w.trace[|w.trace| - 1]);
    }
    if !up {
      var oks := TakeBack(w, undo, r.guid, s0, n);
      return if pointed then WouldNotStart(oks) else RepointFailed(oks);
    }
    RelinkReaches(s0, r.guid, target);
    PrefixFollows(r.key.Str(BasePath), DirOf(target));
    var read, got := w.ReadString(r.guid, BasePath);
    o := if read && got != Some(intendedBase) then ReadsBackWrong else Relinked;
  }

  lemma OnlyKeyKept(es: seq<Entry>, oks: seq<bool>, s: State, s0: State, g: Guid)
    requires |oks| == |es| && Answers(es, oks, false, s)
    requires forall i :: 0 <= i < |es| ==> PutsBack(es[i], g)
    requires OnlyKey(s0, s, g)
    ensures forall i :: 0 <= i < |Steps(es, oks, false, s)| ==> OnlyKey(s0, Steps(es, oks, false, s)[i].after, g)
  {
    UnwindKeeps(es, oks, false, s, x => OnlyKey(s0, x, g));
  }
}
