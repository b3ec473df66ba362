/** Rollbacks (UndoStack in internal/disk/relink.go): recorded as the port calls they make, unwound
    newest first. */
module Undo {
  import opened Text
  import opened Paths
  import opened World

  /** One rollback entry. A copy that WSL still holds is left in place, which counts as a failure. */
  datatype Entry = Entry(call: Call, unlessHeld: bool)

  /** The state once the newest |oks| entries of `es` have run, oldest of them first in `oks`. */
  function After(es: seq<Entry>, oks: seq<bool>, s: State): State
    requires |oks| <= |es|
    decreases |oks|
  {
    if oks == [] then s
    else
      var before := After(es, oks[1..], s);
      if oks[0] then Effect(before, es[|es| - |oks|].call) else before
  }

  /** The calls those entries made. */
  function Steps(es: seq<Entry>, oks: seq<bool>, held: bool, s: State): seq<Step>
    requires |oks| <= |es|
    decreases |oks|
  {
    if oks == [] then []
    else
      var e := es[|es| - |oks|];
      Steps(es, oks[1..], held, s)
      + if held && e.unlessHeld then []
        else [Step(e.call, oks[0], After(es, oks[1..], s), After(es, oks, s))]
  }

  /** An entry answers success only if it ran and its call could. */
  predicate Answers(es: seq<Entry>, oks: seq<bool>, held: bool, s: State)
    requires |oks| <= |es|
    decreases |oks|
  {
    oks != [] ==>
      && Answers(es, oks[1..], held, s)
      && (oks[0] ==> Enabled(After(es, oks[1..], s), es[|es| - |oks|].call)
                     && !(held && es[|es| - |oks|].unlessHeld))
  }

  predicate AllOk(oks: seq<bool>) {
    forall i :: 0 <= i < |oks| ==> oks[i]
  }

  predicate AllAtomic(es: seq<Entry>) {
    forall i :: 0 <= i < |es| ==> Atomic(es[i].call)
  }

  class UndoStack {
    var entries: seq<Entry>

    constructor ()
      ensures entries == []
    {
      entries := [];
    }

    method Push(c: Call, unlessHeld: bool)
      modifies this
      ensures entries == old(entries) + [Entry(c, unlessHeld)]
    {
      entries := entries + [Entry(c, unlessHeld)];
    }

    /** Runs every entry exactly once, newest first, whatever fails; `oks` says which succeeded. */
    method Unwind(w: Machine, held: bool) returns (oks: seq<bool>)
      requires AllAtomic(entries)
      modifies this, w`st, w`trace
      ensures entries == []
      ensures |oks| == |old(entries)|
      ensures w.st == After(old(entries), oks, old(w.st))
      ensures w.trace == old(w.trace) + Steps(old(entries), oks, held, old(w.st))
      ensures Answers(old(entries), oks, held, old(w.st))
    {
      hide Effect, Enabled, CanonicalPath;
      oks := [];
      var i := |entries|;
      while i > 0
        invariant 0 <= i <= |entries| && entries == old(entries)
        invariant |oks| == |entries| - i
        invariant w.st == After(entries, oks, old(w.st))
        invariant w.trace == old(w.trace) + Steps(entries, oks, held, old(w.st))
        invariant Answers(entries, oks, held, old(w.st))
      {
        i := i - 1;
        var e := entries[i];
        var ok := false;
        ghost var done := oks;
        if !(held && e.unlessHeld) {
          ok := w.Do(e.call);
        }
        oks := [ok] + oks;
        assert oks[1..] == done;
      }
      entries := [];
    }
  }

  /** Every entry succeeding, in one go. */
  function Undone(es: seq<Entry>, s: State): State {
    if es == [] then s
    else Undone(es[..|es| - 1], Effect(s, es[|es| - 1].call))
  }

  lemma {:induction false} AfterSnoc(es: seq<Entry>, e: Entry, oks: seq<bool>, b: bool, s: State)
    requires |oks| <= |es|
    ensures After(es + [e], oks + [b], s) == After(es, oks, if b then Effect(s, e.call) else s)
    decreases |oks|
  {
    hide Effect;
    if oks == [] {
      assert (oks + [b])[1..] == [];
    } else {
      assert (oks + [b])[1..] == oks[1..] + [b];
      AfterSnoc(es, e, oks[1..], b, s);
    }
  }

  /** A complete unwind in which everything succeeds is what the entries say together. */
  lemma {:induction false} AllOkIsUndone(es: seq<Entry>, oks: seq<bool>, s: State)
    requires |oks| == |es| && AllOk(oks)
    ensures After(es, oks, s) == Undone(es, s)
  {
    hide Effect;
    if es != [] {
      var n := |es| - 1;
      AfterSnoc(es[..n], es[n], oks[..n], true, s);
      assert es[..n] + [es[n]] == es && oks[..n] + [true] == oks;
      AllOkIsUndone(es[..n], oks[..n], Effect(s, es[n].call));
    }
  }

  /** Pushing the inverse of what was just done keeps what the stack puts back. */
  lemma PushInverse(es: seq<Entry>, e: Entry, s: State, t: State)
    requires Effect(t, e.call) == s
    ensures Undone(es + [e], t) == Undone(es, s)
  {
    hide Effect;
    assert (es + [e])[..|es|] == es;
  }

  lemma RenameInverse(s: State, from: Path, to: Path)
    requires Enabled(s, Rename(from, to))
    ensures Effect(Effect(s, Rename(from, to)), Rename(to, from)) == s
  {
    hide CanonicalPath;
    var f, t := CanonicalPath(from), CanonicalPath(to);
    var m := (s.files - {f})[t := s.files[f]];
    assert (m - {t})[f := m[t]] == s.files;
  }

  lemma CopyInverse(s: State, from: Path, to: Path)
    requires Enabled(s, CopySparse(from, to))
    ensures Effect(Effect(s, CopySparse(from, to)), Remove(to)) == s
  {
    hide CanonicalPath;
    var t := CanonicalPath(to);
    assert s.files[t := s.files[CanonicalPath(from)]] - {t} == s.files;
  }

  lemma WriteInverse(s: State, g: Guid, n: StringValue, v: string)
    requires g in s.keys && n in s.keys[g].strings
    ensures Effect(Effect(s, WriteString(g, n, v)), WriteString(g, n, s.keys[g].strings[n])) == s
  {
    hide CanonicalPath;
    var k := s.keys[g];
    assert k.strings[n := v][n := k.strings[n]] == k.strings;
    assert s.keys[g := k.(strings := k.strings[n := v])][g := k] == s.keys;
  }

  /** A property that no call of the entries run can break holds in every state of an unwind. */
  lemma {:induction false} UnwindKeeps(es: seq<Entry>, oks: seq<bool>, held: bool, s: State, inv: State -> bool)
    requires |oks| <= |es| && Answers(es, oks, held, s)
    requires inv(s)
    requires forall i, x: State {:trigger Effect(x, es[i].call)} ::
               |es| - |oks| <= i < |es| && inv(x) && Enabled(x, es[i].call) ==> inv(Effect(x, es[i].call))
    ensures inv(After(es, oks, s))
    ensures forall i :: 0 <= i < |Steps(es, oks, held, s)| ==> inv(Steps(es, oks, held, s)[i].after)
    decreases |oks|
  {
    hide Effect, Enabled;
    if oks != [] {
      UnwindKeeps(es, oks[1..], held, s, inv);
    }
  }

  /** The steps from `k` on are an unwind of `es` and nothing else, with these answers. */
  ghost predicate Unwound(trace: seq<Step>, k: nat, es: seq<Entry>, oks: seq<bool>, held: bool, s: State) {
    && k <= |trace| && |oks| == |es|
    && trace[k..] == Steps(es, oks, held, s) && Answers(es, oks, held, s)
  }

  /** So every entry was called, newest first, and the answers are what its call answered. */
  lemma UnwoundCalls(trace: seq<Step>, k: nat, es: seq<Entry>, oks: seq<bool>, s: State)
    requires Unwound(trace, k, es, oks, false, s)
    ensures var done := trace[k..];
            && |done| == |es|
            && forall j :: 0 <= j < |es| ==>
                 done[j].call == es[|es| - 1 - j].call && done[j].ok == oks[|es| - 1 - j]
  {
    hide Steps, Answers;
    StepsCall(es, oks, s);
  }

  lemma {:induction false} StepsCall(es: seq<Entry>, oks: seq<bool>, s: State)
    requires |oks| <= |es|
    ensures var steps := Steps(es, oks, false, s);
            && |steps| == |oks|
            && forall j :: 0 <= j < |oks| ==>
                 steps[j].call == es[|es| - 1 - j].call && steps[j].ok == oks[|oks| - 1 - j]
    decreases |oks|
  {
    hide Effect;
    if oks != [] {
      StepsCall(es, oks[1..], s);
    }
  }

  /** An unwind makes the entries' calls and no others. */
  lemma {:induction false} StepCalls(es: seq<Entry>, oks: seq<bool>, held: bool, s: State)
    requires |oks| <= |es|
    ensures forall step | step in Steps(es, oks, held, s) :: exists e | e in es :: step.call == e.call
    decreases |oks|
  {
    hide Effect;
    if oks != [] {
      StepCalls(es, oks[1..], held, s);
      assert es[|es| - |oks|] in es;
    }
  }

  /** An entry that has nothing to do with some files. */
  ghost predicate Elsewhere(e: Entry, fs: set<FileId>) {
    && !e.unlessHeld
    && match e.call
       case Rename(from, to) => CanonicalPath(from) !in fs && CanonicalPath(to) !in fs
       case Remove(p) => CanonicalPath(p) !in fs
       case _ => false
  }

  lemma {:induction false} UndoneElsewhere(es: seq<Entry>, s: State, t: State, f: FileId)
    requires forall i :: 0 <= i < |es| ==> Elsewhere(es[i], {f})
    requires SameFilesBut(s, t, {f}) && t.keys == s.keys && t.default == s.default
    ensures SameFilesBut(Undone(es, s), Undone(es, t), {f})
    ensures Undone(es, t).keys == Undone(es, s).keys && Undone(es, t).default == Undone(es, s).default
  {
    if es != [] {
      var e := es[|es| - 1];
      EffectElsewhere(e, s, t, f);
      hide Effect, Elsewhere, SameFilesBut;
      UndoneElsewhere(es[..|es| - 1], Effect(s, e.call), Effect(t, e.call), f);
    }
  }

  lemma EffectElsewhere(e: Entry, s: State, t: State, f: FileId)
    requires Elsewhere(e, {f}) && SameFilesBut(s, t, {f}) && t.keys == s.keys && t.default == s.default
    ensures SameFilesBut(Effect(s, e.call), Effect(t, e.call), {f})
    ensures Effect(t, e.call).keys == Effect(s, e.call).keys
    ensures Effect(t, e.call).default == Effect(s, e.call).default
  {
    hide CanonicalPath;
  }

  /* ---- short stacks, spelled out ---- */

  lemma OneEntry(a: Entry, oks: seq<bool>, s: State)
    requires |oks| == 1 && Answers([a], oks, false, s)
    ensures var t := if oks[0] then Effect(s, a.call) else s;
            && After([a], oks, s) == t
            && Steps([a], oks, false, s) == [Step(a.call, oks[0], s, t)]
            && (oks[0] ==> Enabled(s, a.call))
  {
    hide Effect, Enabled;
    assert oks == [oks[0]] && oks[1..] == [];
  }

  lemma TwoEntries(a: Entry, b: Entry, oks: seq<bool>, s: State)
    requires |oks| == 2 && Answers([a, b], oks, false, s)
    ensures var t := if oks[1] then Effect(s, b.call) else s;
            var u := if oks[0] then Effect(t, a.call) else t;
            && After([a, b], oks, s) == u
            && Steps([a, b], oks, false, s) == [Step(b.call, oks[1], s, t), Step(a.call, oks[0], t, u)]
            && (oks[0] ==> Enabled(t, a.call))
  {
    hide Effect, Enabled;
    var es, one := [a, b], oks[1..];
    assert one == [oks[1]] && one[1..] == [];
    assert After(es, [], s) == s && Steps(es, [], false, s) == [];
    var t := After(es, one, s);
    assert t == if oks[1] then Effect(s, b.call) else s;
    assert Steps(es, one, false, s) == [Step(b.call, oks[1], s, t)];
    assert After(es, oks, s) == if oks[0] then Effect(t, a.call) else t;
    assert Steps(es, oks, false, s) == Steps(es, one, false, s) + [Step(a.call, oks[0], t, After(es, oks, s))];
  }
}
