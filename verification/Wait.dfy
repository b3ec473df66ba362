/** Asking again and again whether a disk is still locked (WaitForDisk in internal/disk/compact.go).
    Times are in milliseconds. */
module Wait {
  import opened Text
  import opened Paths
  import opened World

  const UNLOCK_POLL: nat := 500
  const DEFAULT_UNLOCK_TIMEOUT: nat := 90_000
  const MAX_UNLOCK_TIMEOUT: nat := 3_600_000

  datatype WaitOutcome =
    | Free
    | HeldBy(others: seq<string>)
    | HeldAfterShutdown
    | HeldPast(timeout: nat, suggested: nat)

  function EffectiveTimeout(asked: int): (t: nat)
    ensures 0 < t <= MAX_UNLOCK_TIMEOUT
    ensures 0 < asked <= MAX_UNLOCK_TIMEOUT ==> t == asked
  {
    if asked <= 0 then DEFAULT_UNLOCK_TIMEOUT
    else if asked > MAX_UNLOCK_TIMEOUT then MAX_UNLOCK_TIMEOUT
    else asked
  }

  /** Whether the answer names a distribution other than the one being waited for. */
  predicate OthersUp(p: Probe, exclude: string) {
    p.AskedRunning? && p.answered && exists n | n in p.names :: !EqualFold(n, exclude)
  }

  /** The names of others, in order. */
  function Others(names: seq<string>, exclude: string): seq<string> {
    if names == [] then []
    else
      var last := names[|names| - 1];
      Others(names[..|names| - 1], exclude) + if EqualFold(last, exclude) then [] else [last]
  }

  lemma {:induction false} OthersAre(names: seq<string>, exclude: string)
    ensures forall n :: n in Others(names, exclude) <==> n in names && !EqualFold(n, exclude)
  {
    hide EqualFold;
    if names != [] {
      OthersAre(names[..|names| - 1], exclude);
    }
  }

  /** The timeout a refusal suggests. */
  function Suggested(timeout: nat): nat {
    if timeout > MAX_UNLOCK_TIMEOUT / 2 then MAX_UNLOCK_TIMEOUT else 2 * timeout
  }

  /** The disk at `path` was asked about after `at` calls, and seen unlocked or not. */
  predicate AsksLock(p: Probe, path: Path, at: nat, free: bool) {
    p.AskedLocked? && p.path == path && p.at == at && (free <==> p.answered && !p.locked)
  }

  /** The last question was a lock question, and the disk was seen unlocked. */
  predicate SeenFree(ps: seq<Probe>) {
    ps != [] && var last := ps[|ps| - 1]; last.AskedLocked? && last.answered && !last.locked
  }

  lemma NothingSeen()
    ensures !SeenFree([])
  {
  }

  /** One round after another: a lock question about the disk, then a sleep of one poll; `k` rounds in all. */
  predicate Rounds(ps: seq<Probe>, k: nat, path: Path, at: nat) {
    && |ps| == 2 * k
    && forall i {:trigger ps[2 * i]} :: 0 <= i < k ==>
         AsksLock(ps[2 * i], path, at, false) && ps[2 * i + 1] == Slept(UNLOCK_POLL)
  }

  lemma RoundsSnoc(ps: seq<Probe>, k: nat, p: Probe, path: Path, at: nat)
    requires Rounds(ps, k, path, at) && AsksLock(p, path, at, false)
    ensures Rounds(ps + [p, Slept(UNLOCK_POLL)], k + 1, path, at)
  {
    var qs := ps + [p, Slept(UNLOCK_POLL)];
    forall i | 0 <= i < k + 1
      ensures AsksLock(qs[2 * i], path, at, false) && qs[2 * i + 1] == Slept(UNLOCK_POLL)
    {
      if i < k {
        assert qs[2 * i] == ps[2 * i] && qs[2 * i + 1] == ps[2 * i + 1];
      }
    }
  }

  /** A whole wait of `passed` milliseconds for the disk at `path`, after `at` calls: once the question
      who else is up, then rounds, then the last lock question. With another distribution up there is no
      round; without, it is given up only when the time is over. */
  ghost predicate WaitIs(ps: seq<Probe>, running: Probe, rounds: seq<Probe>, last: Probe, exclude: string, path: Path,
                         at: nat, asked: int, passed: int, free: bool)
  {
    && ps == [running] + rounds + [last]
    && running.AskedRunning? && running.at == at
    && Rounds(rounds, |rounds| / 2, path, at) && AsksLock(last, path, at, free)
    && (OthersUp(running, exclude) ==> rounds == [])
    && (!free && !OthersUp(running, exclude) ==> passed >= EffectiveTimeout(asked))
    // One question more than the polls that fit into the timeout, rounded up.
    && |rounds| / 2 + 1 <= (EffectiveTimeout(asked) + UNLOCK_POLL - 1) / UNLOCK_POLL + 1
  }

  ghost predicate Waits(ps: seq<Probe>, exclude: string, path: Path, at: nat, asked: int, passed: int, free: bool) {
    exists running, rounds, last :: WaitIs(ps, running, rounds, last, exclude, path, at, asked, passed, free)
  }

  /** The answer of a wait is that of its last question. */
  lemma WaitsOnce(ps: seq<Probe>, exclude: string, path: Path, at: nat, asked: int, passed: int, free: bool)
    requires Waits(ps, exclude, path, at, asked, passed, free)
    ensures ps != [] && AsksLock(ps[|ps| - 1], path, at, free) && (free <==> SeenFree(ps))
  {
  }

  lemma WaitsLonger(ps: seq<Probe>, exclude: string, path: Path, at: nat, asked: int, passed: int, longer: int,
                    free: bool)
    requires Waits(ps, exclude, path, at, asked, passed, free) && passed <= longer
    ensures Waits(ps, exclude, path, at, asked, longer, free)
  {
    hide Rounds, EffectiveTimeout;
    var running, rounds, last :| WaitIs(ps, running, rounds, last, exclude, path, at, asked, passed, free);
    assert WaitIs(ps, running, rounds, last, exclude, path, at, asked, longer, free);
  }

  /** The call that stops a distribution, or all of WSL. */
  function StopCall(r: Registration, shutdown: bool): Call {
    if shutdown then Shutdown else Terminate(r.key.Name())
  }

  /** Step `n` is the stop, if there is one, and unless it failed the disk is then waited for. */
  ghost predicate DiskAwaited(trace: seq<Step>, n: nat, wait: seq<Probe>, r: Registration, stops: bool, shutdown: bool,
                              asked: int, passed: int)
  {
    var m := n + if stops then 1 else 0;
    && m <= |trace| && (stops ==> trace[n].call == StopCall(r, shutdown))
    && if stops && !trace[n].ok then wait == []
       else Waits(wait, r.key.Name(), r.key.VhdPath(), m, asked, passed, SeenFree(wait))
  }

  lemma AwaitedOn(before: seq<Step>, after: seq<Step>, n: nat, wait: seq<Probe>, r: Registration, stops: bool,
                  shutdown: bool, asked: int, passed: int, longer: int)
    requires before <= after && passed <= longer
    requires DiskAwaited(before, n, wait, r, stops, shutdown, asked, passed)
    ensures DiskAwaited(after, n, wait, r, stops, shutdown, asked, longer)
  {
    hide Waits, SeenFree;
    assert n < |before| ==> after[n] == before[n];
    if !stops || before[n].ok {
      WaitsLonger(wait, r.key.Name(), r.key.VhdPath(), n + if stops then 1 else 0, asked, passed, longer,
                  SeenFree(wait));
    }
  }

  method OthersRunning(w: Machine, exclude: string) returns (ok: bool, others: seq<string>)
    modifies w`probes
    ensures |w.probes| == |old(w.probes)| + 1 && old(w.probes) <= w.probes
    ensures var p := w.probes[|old(w.probes)|];
            && p.AskedRunning? && p.at == |w.trace| && p.answered == ok
            && (ok ==> others == Others(p.names, exclude) && (OthersUp(p, exclude) <==> others != []))
  {
    hide EqualFold;
    var names;
    ok, names := w.Running();
    others := [];
    for i := 0 to |names|
      invariant others == Others(names[..i], exclude)
    {
      assert names[..i + 1][..i] == names[..i];
      if !EqualFold(names[i], exclude) {
        others := others + [names[i]];
      }
    }
    assert names[..|names|] == names;
    OthersAre(names, exclude);
    assert others != [] ==> others[0] in Others(names, exclude);
  }

  /** Answers Free only right after the disk was reported unlocked; with another distribution up it
      asks once and never sleeps; otherwise it gives up only at the deadline. */
  method WaitForDisk(w: Machine, exclude: string, path: Path, shutdown: bool, asked: int) returns (r: WaitOutcome)
    modifies w`now, w`probes
    ensures w.now >= old(w.now)
    ensures old(w.probes) < w.probes && w.probes[|old(w.probes)|].AskedRunning?
    ensures Waits(w.probes[|old(w.probes)|..], exclude, path, |w.trace|, asked, w.now - old(w.now), r.Free?)
    // What it says of a disk that is held.
    ensures var running := w.probes[|old(w.probes)|];
            && (r.HeldBy? ==> OthersUp(running, exclude) && r.others == Others(running.names, exclude))
            && (r.HeldAfterShutdown? ==> !OthersUp(running, exclude) && shutdown)
            && (r.HeldPast? ==>
                  && !OthersUp(running, exclude) && !shutdown && r.timeout == EffectiveTimeout(asked)
                  && r.suggested == Suggested(r.timeout))
  {
    var known, blockers := OthersRunning(w, exclude);
    ghost var running := w.probes[|w.probes| - 1];
    if !known {
      blockers := [];
    }
    var waitingCanHelp := |blockers| == 0;
    var timeout := EffectiveTimeout(asked);
    var start := w.Now();
    var deadline := start + timeout;
    ghost var k := 0;
    ghost var rounds: seq<Probe> := [];
    while true
      invariant Rounds(rounds, k, path, |w.trace|)
      invariant w.probes == old(w.probes) + [running] + rounds
      invariant w.now >= start + k * UNLOCK_POLL
      invariant k * UNLOCK_POLL < timeout + UNLOCK_POLL
      invariant !waitingCanHelp ==> k == 0
      decreases timeout + UNLOCK_POLL - k * UNLOCK_POLL
    {
      var ok, locked := w.Locked(path);
      ghost var last := AskedLocked(path, ok, locked, |w.trace|);
      assert w.probes[|old(w.probes)|..] == [running] + rounds + [last];
      if ok && !locked {
        assert WaitIs([running] + rounds + [last], running, rounds, last, exclude, path, |w.trace|, asked,
                      w.now - old(w.now), true);
        return Free;
      }
      var now := w.Now();
      if !waitingCanHelp || now >= deadline {
        assert WaitIs([running] + rounds + [last], running, rounds, last, exclude, path, |w.trace|, asked,
                      w.now - old(w.now), false);
        if |blockers| > 0 {
          return HeldBy(blockers);
        } else if shutdown {
          return HeldAfterShutdown;
        }
        return HeldPast(timeout, if timeout * 2 > MAX_UNLOCK_TIMEOUT then MAX_UNLOCK_TIMEOUT else timeout * 2);
      }
      w.Sleep(UNLOCK_POLL);
      RoundsSnoc(rounds, k, last, path, |w.trace|);
      rounds := rounds + [last, Slept(UNLOCK_POLL)];
      k := k + 1;
    }
  }
}
