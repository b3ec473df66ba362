/** Recovering a WSL that hangs when the computer wakes up (internal/guard/guard.go, run.go). */
module Guard {
  import opened Text

  const DEFAULT_SKEW_THRESHOLD: int := 5_000

  datatype Rung = NoRung | Shutdown | ForceShutdown | KillService | RestartService {
    function Level(): nat {
      match this
      case NoRung => 0
      case Shutdown => 1
      case ForceShutdown => 2
      case KillService => 3
      case RestartService => 4
    }
    predicate NeedsElevation() { Level() >= KillService.Level() }
  }

  /** Skews and thresholds are in milliseconds. */
  datatype Health = Health(
    serviceAnswered: bool, serviceHung: bool, distroAnswered: bool, distroHung: bool, distro: string,
    wasRunning: bool, wasRunningKnown: bool, skew: int, skewKnown: bool)
  {
    predicate Healthy() { serviceAnswered && distroAnswered }
  }

  datatype Options = Options(elevated: bool, maxRung: Rung, skewThreshold: int, dryRun: bool)

  datatype Decision = Decision(ladder: seq<Rung>, fixClock: bool)

  const FULL_LADDER := [Shutdown, ForceShutdown, KillService, RestartService]

  /* ---- deciding ---- */

  predicate Permits(o: Options, r: Rung) {
    && (o.maxRung == NoRung || r.Level() <= o.maxRung.Level())
    && (r.NeedsElevation() ==> o.elevated)
  }

  function Filtered(ladder: seq<Rung>, o: Options): seq<Rung> {
    if ladder == [] then []
    else Filtered(ladder[..|ladder| - 1], o)
         + if Permits(o, ladder[|ladder| - 1]) then [ladder[|ladder| - 1]] else []
  }

  /** The rungs the options allow, in order. */
  function Permitted(o: Options): seq<Rung> {
    Filtered(FULL_LADDER, o)
  }

  predicate Rising(ladder: seq<Rung>) {
    forall i, j :: 0 <= i < j < |ladder| ==> ladder[i].Level() < ladder[j].Level()
  }

  lemma {:induction false} FilteredIs(ladder: seq<Rung>, o: Options)
    requires Rising(ladder)
    ensures Rising(Filtered(ladder, o))
    ensures forall r :: r in Filtered(ladder, o) <==> r in ladder && Permits(o, r)
  {
    if ladder != [] {
      var before, last := ladder[..|ladder| - 1], ladder[|ladder| - 1];
      FilteredIs(before, o);
      var kept := Filtered(before, o);
      hide Permits;
      assert forall i :: 0 <= i < |kept| ==> kept[i] in kept;
    }
  }

  /** The permitted ladder climbs, and holds just the rungs the options permit. */
  lemma PermittedIs(o: Options)
    ensures Rising(Permitted(o))
    ensures forall r :: r in Permitted(o) <==> r != NoRung && Permits(o, r)
  {
    assert Rising(FULL_LADDER);
    assert forall r: Rung :: r in FULL_LADDER <==> r != NoRung by {
      forall r: Rung ensures r in FULL_LADDER <==> r != NoRung {
        if r != NoRung {
          assert FULL_LADDER[r.Level() - 1] == r;
        }
      }
    }
    FilteredIs(FULL_LADDER, o);
  }

  /** There is evidence that WSL is stuck rather than stopped. */
  predicate Stuck(h: Health) {
    !h.Healthy() && (h.serviceHung || (h.serviceAnswered && h.wasRunningKnown && h.wasRunning))
  }

  method Cap(ladder: seq<Rung>, o: Options) returns (out: seq<Rung>)
    ensures out == Filtered(ladder, o)
  {
    out := [];
    for i := 0 to |ladder|
      invariant out == Filtered(ladder[..i], o)
    {
      assert ladder[..i + 1][..i] == ladder[..i];
      var r := ladder[i];
      if o.maxRung != NoRung && r.Level() > o.maxRung.Level() {
        continue;
      }
      if r.NeedsElevation() && !o.elevated {
        continue;
      }
      out := out + [r];
    }
    assert ladder[..|ladder|] == ladder;
  }

  /** How far the clock may be out. */
  function Threshold(o: Options): int {
    if o.skewThreshold <= 0 then DEFAULT_SKEW_THRESHOLD else o.skewThreshold
  }

  method Decide(h: Health, o: Options) returns (d: Decision)
    // Something is restarted only on evidence, and then just what the options permit.
    ensures d.ladder == if Stuck(h) then Permitted(o) else []
    ensures d.fixClock <==> h.skewKnown && (h.skew > Threshold(o) || -h.skew > Threshold(o))
  {
    var threshold := if o.skewThreshold <= 0 then DEFAULT_SKEW_THRESHOLD else o.skewThreshold;
    var fixClock := h.skewKnown && (h.skew > threshold || h.skew < -threshold);
    var ladder := [];
    if h.Healthy() {
    } else if !h.serviceAnswered && !h.serviceHung {
    } else if h.serviceHung {
      ladder := Cap(FULL_LADDER, o);
    } else if !h.distroAnswered && !h.wasRunningKnown {
    } else if !h.distroAnswered && !h.wasRunning {
    } else if !h.distroAnswered {
      ladder := Cap(FULL_LADDER, o);
    }
    d := Decision(ladder, fixClock);
  }

  /* ---- what is done to the machine ---- */

  datatype Answer = Good | TimedOut | Refused

  datatype Event =
    | Status(answer: Answer)
    | DefaultDistro(ok: bool, name: string)
    | Exec(distro: string, answer: Answer)
    | ReadClock(distro: string, ok: bool, skew: int)
    | StepClock(distro: string, ok: bool)
    | Stop(force: bool, ok: bool)
    | Kill(ok: bool)
    | Restart(ok: bool)

  /** A call that changes something. */
  predicate Mutates(e: Event) {
    e.StepClock? || e.Stop? || e.Kill? || e.Restart?
  }

  function Mutations(es: seq<Event>): seq<Event> {
    if es == [] then [] else (if Mutates(es[0]) then [es[0]] else []) + Mutations(es[1..])
  }

  /** The one call a rung is. */
  function RungCall(r: Rung, ok: bool): Event
    requires r != NoRung
  {
    match r
    case Shutdown => Stop(false, ok)
    case ForceShutdown => Stop(true, ok)
    case KillService => Kill(ok)
    case RestartService => Restart(ok)
  }

  /** The machine, and everything it was asked. */
  class Runner {
    ghost var events: seq<Event>

    constructor ()
      ensures events == []
    {
      events := [];
    }

    method AskStatus() returns (a: Answer)
      modifies this
      ensures events == old(events) + [Status(a)]
    {
      a := *;
      events := events + [Status(a)];
    }

    method AskDefaultDistro() returns (ok: bool, name: string)
      modifies this
      ensures events == old(events) + [DefaultDistro(ok, name)]
    {
      ok, name := *, *;
      events := events + [DefaultDistro(ok, name)];
    }

    method RunIn(distro: string) returns (a: Answer)
      modifies this
      ensures events == old(events) + [Exec(distro, a)]
    {
      a := *;
      events := events + [Exec(distro, a)];
    }

    /** How far the guest's clock is ahead. */
    method AskClock(distro: string) returns (ok: bool, skew: int)
      modifies this
      ensures events == old(events) + [ReadClock(distro, ok, skew)]
    {
      ok, skew := *, *;
      events := events + [ReadClock(distro, ok, skew)];
    }

    method SetClock(distro: string) returns (ok: bool)
      modifies this
      ensures events == old(events) + [StepClock(distro, ok)]
    {
      ok := *;
      events := events + [StepClock(distro, ok)];
    }

    method StopAll(force: bool) returns (ok: bool)
      modifies this
      ensures events == old(events) + [Stop(force, ok)]
    {
      ok := *;
      events := events + [Stop(force, ok)];
    }

    method EndService() returns (ok: bool)
      modifies this
      ensures events == old(events) + [Kill(ok)]
    {
      ok := *;
      events := events + [Kill(ok)];
    }

    method StartServiceAgain() returns (ok: bool)
      modifies this
      ensures events == old(events) + [Restart(ok)]
    {
      ok := *;
      events := events + [Restart(ok)];
    }
  }

  /* ---- probing ---- */

  /** A whole probe and what it found: WSL answers if the service does and the default distribution
      does too, where there is one. */
  predicate IsProbe(es: seq<Event>, healthy: bool) {
    && |es| > 0 && es[0].Status?
    && if es[0].answer != Good then |es| == 1 && !healthy
       else
         && |es| > 1 && es[1].DefaultDistro?
         && if !es[1].ok || es[1].name == "" then |es| == 2 && healthy
            else
              && |es| > 2 && es[2].Exec? && es[2].distro == es[1].name
              && if es[2].answer != Good then |es| == 3 && !healthy
                 else |es| == 4 && es[3].ReadClock? && es[3].distro == es[1].name && healthy
  }

  /** A report holds what the probe was answered: of the service, of the default distribution, and of its
      clock. */
  predicate Tells(h: Health, es: seq<Event>, wasRunning: seq<string>, known: bool)
    requires IsProbe(es, h.Healthy())
  {
    && (h.serviceAnswered <==> es[0].answer == Good) && (h.serviceHung <==> es[0].answer == TimedOut)
    && h.wasRunningKnown == known && (h.wasRunning <==> wasRunning != [])
    && h.distro == (if |es| > 1 && es[1].ok then es[1].name else "")
    && (h.distroAnswered <==> |es| == 2 || (|es| > 2 && es[2].answer == Good))
    && (h.distroHung <==> |es| > 2 && es[2].answer == TimedOut)
    && (h.skewKnown <==> |es| > 3 && es[3].ok) && h.skew == (if h.skewKnown then es[3].skew else 0)
  }

  /** The probe read a clock that is out by more than the threshold. */
  predicate SkewBeyond(es: seq<Event>, healthy: bool, threshold: int)
    requires IsProbe(es, healthy)
  {
    |es| > 3 && es[3].ok && (es[3].skew > threshold || -es[3].skew > threshold)
  }

  method Check(r: Runner, wasRunning: seq<string>, known: bool) returns (h: Health, ghost probe: seq<Event>)
    modifies r
    ensures r.events == old(r.events) + probe && IsProbe(probe, h.Healthy())
    ensures Tells(h, probe, wasRunning, known)
  {
    h := Health(false, false, false, false, "", |wasRunning| > 0, known, 0, false);
    var status := r.AskStatus();
    probe := [Status(status)];
    match status {
      case Good => h := h.(serviceAnswered := true);
      case TimedOut =>
        h := h.(serviceHung := true);
        return;
      case Refused =>
        return;
    }
    var ok, distro := r.AskDefaultDistro();
    probe := probe + [DefaultDistro(ok, distro)];
    if !ok || distro == "" {
      h := h.(distroAnswered := true);
      return;
    }
    h := h.(distro := distro);
    var answer := r.RunIn(distro);
    probe := probe + [Exec(distro, answer)];
    match answer {
      case Good => h := h.(distroAnswered := true);
      case TimedOut => h := h.(distroHung := true);
      case Refused =>
    }
    if h.distroAnswered {
      var read, skew := r.AskClock(distro);
      probe := probe + [ReadClock(distro, read, skew)];
      if read {
        h := h.(skew := skew, skewKnown := true);
      }
    }
  }

  /* ---- climbing ---- */

  datatype Attempt = Attempt(rung: Rung, ok: bool, healthy: bool)

  datatype Report =
    Report(health: Health, decision: Decision, attempted: seq<Attempt>, recovered: bool, clockStepped: bool)

  predicate RealRungs(attempts: seq<Attempt>) {
    forall i :: 0 <= i < |attempts| ==> attempts[i].rung != NoRung
  }

  /** The last attempt and the probe after it. */
  ghost predicate EndsWithAttempt(es: seq<Event>, before: seq<Event>, probe: seq<Event>, a: Attempt)
    requires a.rung != NoRung
  {
    es == before + [RungCall(a.rung, a.ok)] + probe && IsProbe(probe, a.healthy)
  }

  /** The attempts, as calls: a rung, then a probe, and so on. */
  ghost predicate Climbed(es: seq<Event>, attempts: seq<Attempt>)
    requires RealRungs(attempts)
    decreases |attempts|
  {
    if attempts == [] then es == []
    else
      var rest, last := attempts[..|attempts| - 1], attempts[|attempts| - 1];
      exists before, probe :: EndsWithAttempt(es, before, probe, last) && Climbed(before, rest)
  }

  /** The rungs tried are the first of the ladder, in order, up to the first after which WSL answered. */
  predicate Climbs(ladder: seq<Rung>, attempts: seq<Attempt>) {
    && |attempts| <= |ladder|
    && (forall i :: 0 <= i < |attempts| ==> attempts[i].rung == ladder[i])
    && (forall i :: 0 <= i < |attempts| - 1 ==> !attempts[i].healthy)
  }

  /** Whether the last probe found WSL answering. */
  predicate LastHealthy(h: Health, attempts: seq<Attempt>) {
    if attempts == [] then h.Healthy() else attempts[|attempts| - 1].healthy
  }

  method TakeRung(r: Runner, rung: Rung) returns (ok: bool)
    requires rung != NoRung
    modifies r
    ensures r.events == old(r.events) + [RungCall(rung, ok)]
  {
    match rung {
      case Shutdown => ok := r.StopAll(false);
      case ForceShutdown => ok := r.StopAll(true);
      case KillService => ok := r.EndService();
      case RestartService => ok := r.StartServiceAgain();
    }
  }

  method ClimbLadder(r: Runner, ladder: seq<Rung>, wasRunning: seq<string>, known: bool)
    returns (attempted: seq<Attempt>, recovered: bool, ghost climb: seq<Event>)
    requires NoRung !in ladder
    modifies r
    ensures r.events == old(r.events) + climb
    ensures RealRungs(attempted) && Climbed(climb, attempted) && Climbs(ladder, attempted)
    ensures |attempted| < |ladder| ==> recovered
    ensures recovered <==> attempted != [] && attempted[|attempted| - 1].healthy
  {
    NothingClimbed();
    hide IsProbe, Climbed;
    attempted, recovered, climb := [], false, [];
    for i := 0 to |ladder|
      invariant r.events == old(r.events) + climb && |attempted| == i && !recovered
      invariant RealRungs(attempted) && Climbed(climb, attempted)
      invariant forall k :: 0 <= k < i ==> attempted[k].rung == ladder[k] && !attempted[k].healthy
    {
      var rung := ladder[i];
      var ok := TakeRung(r, rung);
      var h, probe := Check(r, wasRunning, known);
      var a := Attempt(rung, ok, h.Healthy());
      ClimbedNext(climb, attempted, a, probe);
      climb := climb + [RungCall(rung, ok)] + probe;
      attempted := attempted + [a];
      if a.healthy {
        recovered := true;
        break;
      }
    }
  }

  lemma NothingClimbed()
    ensures Climbed([], [])
  {
  }

  lemma ClimbedNext(es: seq<Event>, attempts: seq<Attempt>, a: Attempt, probe: seq<Event>)
    requires RealRungs(attempts) && a.rung != NoRung && Climbed(es, attempts) && IsProbe(probe, a.healthy)
    ensures Climbed(es + [RungCall(a.rung, a.ok)] + probe, attempts + [a])
  {
    hide IsProbe, RungCall;
    var all := attempts + [a];
    assert all[..|all| - 1] == attempts && all[|all| - 1] == a;
    assert EndsWithAttempt(es + [RungCall(a.rung, a.ok)] + probe, es, probe, a);
  }

  method Run(r: Runner, o: Options, wasRunning: seq<string>, known: bool)
    returns (rep: Report, ghost probe: seq<Event>, ghost clock: seq<Event>, ghost climb: seq<Event>)
    modifies r
    ensures r.events == old(r.events) + probe + clock + climb
    ensures IsProbe(probe, rep.health.Healthy()) && Tells(rep.health, probe, wasRunning, known)
    ensures RealRungs(rep.attempted) && Climbed(climb, rep.attempted)
    // Only on evidence, only what the options permit, cheapest first, no further than needed.
    ensures rep.decision.ladder == if Stuck(rep.health) then Permitted(o) else []
    ensures Climbs(rep.decision.ladder, rep.attempted)
    ensures !o.dryRun && |rep.attempted| < |rep.decision.ladder| ==> rep.recovered
    ensures rep.clockStepped <==> clock == [StepClock(rep.health.distro, true)]
    ensures rep.recovered <==> LastHealthy(rep.health, rep.attempted)
    ensures rep.decision.fixClock <==>
              rep.health.skewKnown && (rep.health.skew > Threshold(o) || -rep.health.skew > Threshold(o))
    // The clock is stepped at most once, before the ladder, and only when WSL answers and it is out.
    ensures clock == [] || clock == [StepClock(rep.health.distro, rep.clockStepped)]
    ensures clock != [] <==> !o.dryRun && SkewBeyond(probe, rep.health.Healthy(), Threshold(o))
    ensures clock != [] ==> rep.health.Healthy()
    ensures clock == [] ==> !rep.clockStepped
    ensures o.dryRun ==> clock == [] && climb == []
  {
    NothingClimbed();
    PermittedIs(o);
    hide Climbed, Permits, Filtered;
    var health, decision;
    health, probe := Check(r, wasRunning, known);
    decision := Decide(health, o);
    rep := Report(health, decision, [], false, false);
    clock, climb := [], [];
    if decision.fixClock && !o.dryRun && health.distro != "" {
      var ok := r.SetClock(health.distro);
      clock := [StepClock(health.distro, ok)];
      rep := rep.(clockStepped := ok);
    }
    if |decision.ladder| == 0 {
      rep := rep.(recovered := health.Healthy());
    } else if !o.dryRun {
      var attempted, recovered;
      attempted, recovered, climb := ClimbLadder(r, decision.ladder, wasRunning, known);
      rep := rep.(attempted := attempted, recovered := recovered);
    }
  }

  /* ---- what a run changes ---- */

  lemma {:induction false} MutationsAppend(a: seq<Event>, b: seq<Event>)
    ensures Mutations(a + b) == Mutations(a) + Mutations(b)
  {
    hide Mutates;
    if a == [] {
      assert a + b == b;
    } else {
      assert (a + b)[1..] == a[1..] + b;
      MutationsAppend(a[1..], b);
    }
  }

  lemma {:induction false} QuietEvents(es: seq<Event>)
    requires forall i :: 0 <= i < |es| ==> !Mutates(es[i])
    ensures Mutations(es) == []
  {
    if es != [] {
      QuietEvents(es[1..]);
    }
  }

  /** A probe changes nothing. */
  lemma ProbeIsQuiet(es: seq<Event>, healthy: bool)
    requires IsProbe(es, healthy)
    ensures Mutations(es) == []
  {
    QuietEvents(es);
  }

  function RungCalls(attempts: seq<Attempt>): seq<Event>
    requires RealRungs(attempts)
  {
    if attempts == [] then []
    else
      var last := attempts[|attempts| - 1];
      RungCalls(attempts[..|attempts| - 1]) + [RungCall(last.rung, last.ok)]
  }

  lemma {:induction false} ClimbMutates(es: seq<Event>, attempts: seq<Attempt>)
    requires RealRungs(attempts) && Climbed(es, attempts)
    ensures Mutations(es) == RungCalls(attempts)
    decreases |attempts|
  {
    if attempts != [] {
      var a := attempts[|attempts| - 1];
      var before, probe :| EndsWithAttempt(es, before, probe, a) && Climbed(before, attempts[..|attempts| - 1]);
      hide IsProbe, Climbed, RungCall;
      ClimbMutates(before, attempts[..|attempts| - 1]);
      ProbeIsQuiet(probe, a.healthy);
      CallMutates(a.rung, a.ok);
      MutationsAppend(before + [RungCall(a.rung, a.ok)], probe);
      MutationsAppend(before, [RungCall(a.rung, a.ok)]);
    }
  }

  lemma CallMutates(r: Rung, ok: bool)
    requires r != NoRung
    ensures Mutations([RungCall(r, ok)]) == [RungCall(r, ok)]
  {
  }

  lemma AttemptsPermitted(h: Health, o: Options, attempts: seq<Attempt>)
    requires Climbs(if Stuck(h) then Permitted(o) else [], attempts)
    ensures forall i :: 0 <= i < |attempts| ==> Permits(o, attempts[i].rung)
  {
    PermittedIs(o);
    hide Filtered, Stuck, Permits, Permitted;
    var ladder := if Stuck(h) then Permitted(o) else [];
    forall i | 0 <= i < |attempts| ensures Permits(o, attempts[i].rung) {
      assert ladder[i] in ladder;
    }
  }

  lemma ClockMutates(distro: string, ok: bool)
    ensures Mutations([StepClock(distro, ok)]) == [StepClock(distro, ok)] && Mutations([]) == []
  {
  }

  /** All a run changes is the clock, if it steps it, and what the rungs it tries change; without
      administrator rights the service is neither killed nor restarted. */
  lemma RunChangesOnly(rep: Report, o: Options, probe: seq<Event>, clock: seq<Event>, climb: seq<Event>)
    requires IsProbe(probe, rep.health.Healthy()) && RealRungs(rep.attempted) && Climbed(climb, rep.attempted)
    requires Climbs(if Stuck(rep.health) then Permitted(o) else [], rep.attempted)
    requires clock == [] || clock == [StepClock(rep.health.distro, rep.clockStepped)]
    ensures Mutations(probe + clock + climb) == clock + RungCalls(rep.attempted)
    ensures forall i :: 0 <= i < |rep.attempted| ==> Permits(o, rep.attempted[i].rung)
    ensures forall e | e in Mutations(probe + clock + climb) && (e.Kill? || e.Restart?) :: o.elevated
  {
    AttemptsPermitted(rep.health, o, rep.attempted);
    hide *;
    ProbeIsQuiet(probe, rep.health.Healthy());
    ClimbMutates(climb, rep.attempted);
    ClockMutates(rep.health.distro, rep.clockStepped);
    AllMutations(probe, clock, climb, RungCalls(rep.attempted));
    CallsPermitted(rep.attempted, o);
    OnlyCallsEnd(clock, RungCalls(rep.attempted));
  }

  lemma AllMutations(probe: seq<Event>, clock: seq<Event>, climb: seq<Event>, calls: seq<Event>)
    requires Mutations(probe) == [] && Mutations(clock) == clock && Mutations(climb) == calls
    ensures Mutations(probe + clock + climb) == clock + calls
  {
    hide Mutations;
    MutationsAppend(probe + clock, climb);
    MutationsAppend(probe, clock);
    assert [] + clock == clock;
  }

  /** Stepping the clock neither kills nor restarts the service. */
  lemma OnlyCallsEnd(clock: seq<Event>, calls: seq<Event>)
    requires clock == [] || (|clock| == 1 && clock[0].StepClock?)
    ensures forall e | e in clock + calls && (e.Kill? || e.Restart?) :: e in calls
  {
  }

  lemma {:induction false} CallsPermitted(attempts: seq<Attempt>, o: Options)
    requires RealRungs(attempts) && forall i :: 0 <= i < |attempts| ==> Permits(o, attempts[i].rung)
    ensures forall e | e in RungCalls(attempts) && (e.Kill? || e.Restart?) :: o.elevated
  {
    if attempts != [] {
      CallsPermitted(attempts[..|attempts| - 1], o);
    }
  }
}
