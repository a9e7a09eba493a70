/**
 * Scheduled jobs under a lease: any number of runners that acquire, renew, finish, crash and lose
 * answers. Spans are counted in steps of the history, so two events never share one.
 */
module JobLeases {
  type JobName = string

  datatype Lease = Lease(holder: nat, expiresAt: int)
  type Leases = map<JobName, Lease>

  datatype Outcome = Succeeded | Failed | RefusedOverlap
  datatype Renewal = Nothing | InFlight | Answered(ok: bool)
  datatype Phase = Refused | Working | Ending | Recorded(outcome: Outcome) | Released(outcome: Outcome) | Crashed

  /**
   * One run. `lost`, `pending` and `threw` are its variables; the rest is history: whether, when its
   * work ended, the store had already answered the renewal that it then awaited, how many renewals
   * failed, whether it gave up on one in flight, and the steps of its acquire, its latest confirmed
   * renewal and the end of its work.
   */
  datatype Run = Run(
    job: JobName, ms: int, phase: Phase, lost: bool, pending: Renewal, threw: bool,
    stale: bool, failures: nat, abandoned: bool, start: nat, confirmed: nat, workEnd: nat)

  datatype Record = Record(run: nat, job: JobName, outcome: Outcome, finishedAt: int)

  // ---------------------------------------------------------------- the lease table

  predicate Holds(leases: Leases, job: JobName, id: nat) { job in leases && leases[job].holder == id }

  predicate Acquirable(leases: Leases, job: JobName, now: int) { job !in leases || leases[job].expiresAt <= now }

  predicate Renewable(leases: Leases, job: JobName, id: nat, now: int) {
    Holds(leases, job, id) && leases[job].expiresAt > now
  }

  function Without(leases: Leases, job: JobName, id: nat): Leases {
    if Holds(leases, job, id) then leases - {job} else leases
  }

  // ---------------------------------------------------------------- the run's own steps

  /** `renew()`: an earlier one still in flight is reused, a lost run starts none. */
  function StartRenewal(run: Run): Run {
    if run.pending != Nothing || run.lost then run else run.(pending := InFlight)
  }

  /** The renewal's answer, or its failure, reaches the run. */
  function FinishRenewal(run: Run, ok: bool): Run {
    if ok then run.(pending := Nothing)
    else
      var abandons := run.abandoned || run.pending == InFlight;
      run.(pending := Nothing, lost := true, failures := run.failures + 1, abandoned := abandons)
  }

  /** The work returned or threw: the timer stops and a last renewal is awaited. */
  function EndWork(run: Run, threw: bool, tick: nat): Run {
    StartRenewal(run.(phase := Ending, threw := threw, workEnd := tick, stale := run.pending.Answered?))
  }

  function Verdict(run: Run): Outcome { if run.threw || run.lost then Failed else Succeeded }

  // ---------------------------------------------------------------- histories

  datatype State = State(leases: Leases, now: int, tick: nat, runs: seq<Run>, records: seq<Record>)

  datatype Step =
    | Wait(elapsed: nat)
    | Acquire(job: JobName, ms: int)
    | StartRenew(run: nat)
    | ServeRenew(run: nat)             // the store handles a renewal in flight
    | ServeStray(run: nat)             // or one whose sender gave up on it
    | FinishRenew(run: nat)
    | FailRenew(run: nat)              // the call throws, handled or not
    | Ends(run: nat, threw: bool)
    | Records(run: nat, written: bool)
    | Releases(run: nat)
    | Crashes(run: nat)

  function Init(): State { State(map[], 0, 0, [], []) }

  function With(s: State, i: nat, run: Run): State
    requires i < |s.runs|
  {
    s.(runs := s.runs[i := run])
  }

  /** The store confirms or refuses a renewal of run `i`. */
  function Serve(s: State, i: nat, pending: bool): State
    requires i < |s.runs|
  {
    var run := s.runs[i];
    var ok := Renewable(s.leases, run.job, i, s.now);
    var told := if pending then run.(pending := Answered(ok)) else run;
    if ok then With(s, i, told.(confirmed := s.tick)).(leases := s.leases[run.job := Lease(i, s.now + run.ms)])
    else With(s, i, told)
  }

  function Act(s: State, step: Step): State {
    match step
    case Wait(elapsed) => s.(now := s.now + elapsed)
    case Acquire(job, ms) =>
      var id := |s.runs|;
      var run := Run(job, ms, Working, false, Nothing, false, false, 0, false, s.tick, s.tick, s.tick);
      if Acquirable(s.leases, job, s.now) then
        s.(runs := s.runs + [run], leases := s.leases[job := Lease(id, s.now + ms)])
      else
        s.(runs := s.runs + [run.(phase := Refused)],
           records := s.records + [Record(id, job, RefusedOverlap, s.now)])
    case StartRenew(i) =>
      if i < |s.runs| && s.runs[i].phase.Working? then With(s, i, StartRenewal(s.runs[i])) else s
    case ServeRenew(i) => if i < |s.runs| && s.runs[i].pending.InFlight? then Serve(s, i, true) else s
    case ServeStray(i) => if i < |s.runs| && s.runs[i].abandoned then Serve(s, i, false) else s
    case FinishRenew(i) =>
      if i < |s.runs| && s.runs[i].phase in {Working, Ending} && s.runs[i].pending.Answered? then
        With(s, i, FinishRenewal(s.runs[i], s.runs[i].pending.ok))
      else s
    case FailRenew(i) =>
      if i < |s.runs| && s.runs[i].phase in {Working, Ending} && s.runs[i].pending != Nothing then
        With(s, i, FinishRenewal(s.runs[i], false))
      else s
    case Ends(i, threw) =>
      if i < |s.runs| && s.runs[i].phase.Working? then With(s, i, EndWork(s.runs[i], threw, s.tick)) else s
    case Records(i, written) =>
      if i < |s.runs| && s.runs[i].phase.Ending? && s.runs[i].pending == Nothing then
        var outcome := Verdict(s.runs[i]);
        var next := With(s, i, s.runs[i].(phase := Recorded(outcome)));
        if written then next.(records := s.records + [Record(i, s.runs[i].job, outcome, s.now)]) else next
      else s
    case Releases(i) =>
      if i < |s.runs| && s.runs[i].phase.Recorded? then
        var released := s.runs[i].(phase := Released(s.runs[i].phase.outcome));
        With(s, i, released).(leases := Without(s.leases, s.runs[i].job, i))
      else s
    case Crashes(i) =>
      if i < |s.runs| && s.runs[i].phase in {Working, Ending} then With(s, i, s.runs[i].(phase := Crashed)) else s
  }

  function Next(s: State, step: Step): State { Act(s, step).(tick := s.tick + 1) }

  function Play(s: State, steps: seq<Step>): State {
    if |steps| == 0 then s else Next(Play(s, steps[..|steps| - 1]), steps[|steps| - 1])
  }

  // ---------------------------------------------------------------- what every step keeps

  /** `a` took the lease before `b`, and its last confirmed renewal came before `b` did. */
  predicate Before(a: Run, b: Run) { a.start < b.start && a.confirmed < b.start }

  /** The work is over, and not by a crash. */
  predicate Concluding(run: Run) { run.phase.Ending? || run.phase.Recorded? || run.phase.Released? }

  /** Its outcome is settled. */
  predicate Told(run: Run) { run.phase.Recorded? || run.phase.Released? }

  predicate RunOk(run: Run, tick: nat) {
    && run.start <= run.confirmed && run.start <= run.workEnd && run.confirmed < tick && run.workEnd < tick
    && (run.failures > 0 <==> run.lost)
    && (run.phase.Working? ==> !run.stale && !run.threw)
    && (run.pending == Answered(true) && !run.stale ==> run.workEnd < run.confirmed)
    && (Concluding(run) && !run.stale && !run.lost && run.pending == Nothing ==> run.workEnd < run.confirmed)
    && (Told(run) ==> (run.phase.outcome == Succeeded <==> !run.threw && !run.lost)
                      && run.phase.outcome in {Succeeded, Failed} && run.pending == Nothing)
  }

  /** A run of the job that once held its lease. */
  predicate Acquired(run: Run, job: JobName) { run.job == job && run.phase != Refused }

  /** Two runs of one job that were both let in took turns. */
  predicate InOrder(a: Run, b: Run) { a.job == b.job && a.phase != Refused && b.phase != Refused ==> Before(a, b) }

  predicate RunsOk(s: State) { forall i :: 0 <= i < |s.runs| ==> RunOk(s.runs[i], s.tick) }

  predicate Ordered(runs: seq<Run>) { forall i, k :: 0 <= i < k < |runs| ==> InOrder(runs[i], runs[k]) }

  ghost predicate LeasesOk(s: State) { forall job :: job in s.leases ==> LatestHolds(s, job) }

  predicate RecordsOk(s: State) { forall r :: 0 <= r < |s.records| ==> RecordOk(s, s.records[r]) }

  ghost predicate Valid(s: State) { RunsOk(s) && Ordered(s.runs) && LeasesOk(s) && RecordsOk(s) }

  /** The holder is a run of that job and nobody acquired after it. */
  ghost predicate LatestHolds(s: State, job: JobName)
    requires job in s.leases
  {
    var h := s.leases[job].holder;
    && h < |s.runs| && Acquired(s.runs[h], job)
    && forall k :: h < k < |s.runs| ==> !Acquired(s.runs[k], job)
  }

  predicate RecordOk(s: State, r: Record) {
    && r.run < |s.runs| && r.job == s.runs[r.run].job
    && if r.outcome == RefusedOverlap then s.runs[r.run].phase == Refused
       else Told(s.runs[r.run]) && s.runs[r.run].phase.outcome == r.outcome
  }

  /** A change to one run that keeps what others rely on. */
  predicate Keeps(a: Run, b: Run) {
    && a.job == b.job && a.start == b.start && (a.phase == Refused <==> b.phase == Refused)
    && (Told(a) ==> Told(b) && a.phase.outcome == b.phase.outcome)
  }

  lemma OrderKept(s: State, i: nat, run: Run)
    requires i < |s.runs| && Ordered(s.runs) && LeasesOk(s) && Keeps(s.runs[i], run)
    requires run.confirmed == s.runs[i].confirmed || Holds(s.leases, run.job, i)
    ensures Ordered(s.runs[i := run])
  {
    var runs := s.runs[i := run];
    forall j, k | 0 <= j < k < |runs| ensures InOrder(runs[j], runs[k]) {
      assert InOrder(s.runs[j], s.runs[k]);
      if j == i && run.confirmed != s.runs[i].confirmed {
        assert LatestHolds(s, run.job) && !Acquired(s.runs[k], run.job);
      }
    }
  }

  lemma LeasesKept(s: State, next: State)
    requires LeasesOk(s) && |next.runs| == |s.runs|
    requires forall k :: 0 <= k < |s.runs| ==> Keeps(s.runs[k], next.runs[k])
    requires forall job :: job in next.leases ==> job in s.leases && next.leases[job].holder == s.leases[job].holder
    ensures LeasesOk(next)
  {
    forall job | job in next.leases ensures LatestHolds(next, job) {
      assert LatestHolds(s, job);
      forall k | next.leases[job].holder < k < |next.runs| ensures !Acquired(next.runs[k], job) {
        assert !Acquired(s.runs[k], job);
      }
    }
  }

  lemma RecordsKept(s: State, next: State)
    requires RecordsOk(s) && |next.runs| == |s.runs| && next.records == s.records
    requires forall k :: 0 <= k < |s.runs| ==> Keeps(s.runs[k], next.runs[k])
    ensures RecordsOk(next)
  {
    forall r | 0 <= r < |next.records| ensures RecordOk(next, next.records[r]) { assert RecordOk(s, s.records[r]); }
  }

  lemma ChangeKeeps(s: State, next: State, i: nat, run: Run)
    requires Valid(s) && i < |s.runs| && Keeps(s.runs[i], run) && RunOk(run, next.tick)
    requires next.runs == s.runs[i := run] && next.tick == s.tick + 1 && next.records == s.records
    requires run.confirmed == s.runs[i].confirmed || Holds(s.leases, run.job, i)
    requires forall job :: job in next.leases ==> job in s.leases && next.leases[job].holder == s.leases[job].holder
    ensures Valid(next)
  {
    OrderKept(s, i, run);
    LeasesKept(s, next);
    RecordsKept(s, next);
  }

  lemma RecordAdded(s: State, next: State, r: Record)
    requires Valid(s) && next == s.(records := s.records + [r]) && RecordOk(s, r)
    ensures Valid(next)
  {
    LeasesKept(s, next);
    forall k | 0 <= k < |next.records| ensures RecordOk(next, next.records[k]) {
      if k < |s.records| { assert RecordOk(s, s.records[k]); }
    }
  }

  lemma RunAdded(s: State, next: State, run: Run)
    requires Valid(s) && next.runs == s.runs + [run] && next.tick == s.tick + 1 && next.records == s.records
    requires run.start == run.confirmed == s.tick && RunOk(run, next.tick)
    requires (next.leases == s.leases && run.phase == Refused)
          || (run.phase != Refused && exists e :: next.leases == s.leases[run.job := Lease(|s.runs|, e)])
    ensures Valid(next)
  {
    forall j, k | 0 <= j < k < |next.runs| ensures InOrder(next.runs[j], next.runs[k]) {
      assert RunOk(s.runs[j], s.tick);
      if k < |s.runs| { assert InOrder(s.runs[j], s.runs[k]); }
    }
    forall name | name in next.leases ensures LatestHolds(next, name) {
      if run.phase == Refused || name != run.job { assert LatestHolds(s, name); }
      forall k | next.leases[name].holder < k < |next.runs| ensures !Acquired(next.runs[k], name) {
        if k < |s.runs| { assert !Acquired(s.runs[k], name); }
      }
    }
    forall r | 0 <= r < |next.records| ensures RecordOk(next, next.records[r]) { assert RecordOk(s, s.records[r]); }
  }

  lemma AcquireKeeps(s: State, job: JobName, ms: int)
    requires Valid(s)
    ensures Valid(Next(s, Acquire(job, ms)))
  {
    var next := Next(s, Acquire(job, ms));
    var id := |s.runs|;
    var run := next.runs[id];
    if Acquirable(s.leases, job, s.now) {
      assert next.leases == s.leases[run.job := Lease(id, s.now + ms)];
      RunAdded(s, next, run);
    } else {
      var middle := next.(records := s.records);
      RunAdded(s, middle, run);
      RecordAdded(middle, next, Record(id, job, RefusedOverlap, s.now));
    }
  }

  lemma ServeKeeps(s: State, i: nat, pending: bool)
    requires Valid(s) && i < |s.runs| && (pending ==> s.runs[i].pending.InFlight?)
    ensures Valid(Serve(s, i, pending).(tick := s.tick + 1))
  {
    assert RunOk(s.runs[i], s.tick);
    var next := Serve(s, i, pending).(tick := s.tick + 1);
    ChangeKeeps(s, next, i, next.runs[i]);
  }

  lemma RecordsKeeps(s: State, i: nat, written: bool)
    requires Valid(s) && i < |s.runs| && s.runs[i].phase.Ending? && s.runs[i].pending == Nothing
    ensures Valid(Next(s, Records(i, written)))
  {
    assert RunOk(s.runs[i], s.tick);
    var next := Next(s, Records(i, written));
    var middle := next.(records := s.records);
    ChangeKeeps(s, middle, i, next.runs[i]);
    if written { RecordAdded(middle, next, next.records[|s.records|]); }
  }

  /** The steps that move one run on by itself. */
  lemma RunStepKeeps(s: State, step: Step)
    requires Valid(s) && (step.StartRenew? || step.Ends? || step.Crashes?)
    requires step.run < |s.runs|
    ensures Valid(Next(s, step))
  {
    var i := step.run;
    assert RunOk(s.runs[i], s.tick);
    ChangeKeeps(s, Next(s, step), i, Next(s, step).runs[i]);
  }

  lemma AnswerKeeps(s: State, step: Step)
    requires Valid(s) && (step.FinishRenew? || step.FailRenew?)
    requires step.run < |s.runs|
    ensures Valid(Next(s, step))
  {
    var i := step.run;
    assert RunOk(s.runs[i], s.tick);
    ChangeKeeps(s, Next(s, step), i, Next(s, step).runs[i]);
  }

  lemma ReleaseKeeps(s: State, i: nat)
    requires Valid(s) && i < |s.runs|
    ensures Valid(Next(s, Releases(i)))
  {
    assert RunOk(s.runs[i], s.tick);
    ChangeKeeps(s, Next(s, Releases(i)), i, Next(s, Releases(i)).runs[i]);
  }

  lemma TimeKeeps(s: State, next: State)
    requires Valid(s) && next == s.(now := next.now, tick := s.tick + 1)
    ensures Valid(next)
  {
    forall i | 0 <= i < |next.runs| ensures RunOk(next.runs[i], next.tick) { assert RunOk(s.runs[i], s.tick); }
    LeasesKept(s, next);
    RecordsKept(s, next);
  }

  lemma NextKeepsValid(s: State, step: Step)
    requires Valid(s)
    ensures Valid(Next(s, step))
  {
    match step
    case Wait(_) => TimeKeeps(s, Next(s, step));
    case Acquire(job, ms) => AcquireKeeps(s, job, ms);
    case _ => if step.run < |s.runs| { OneRunKeeps(s, step); } else { TimeKeeps(s, Next(s, step)); }
  }

  lemma OneRunKeeps(s: State, step: Step)
    requires Valid(s) && !step.Wait? && !step.Acquire? && step.run < |s.runs|
    ensures Valid(Next(s, step))
  {
    match step
    case ServeRenew(i) =>
      if s.runs[i].pending.InFlight? { ServeKeeps(s, i, true); } else { TimeKeeps(s, Next(s, step)); }
    case ServeStray(i) => if s.runs[i].abandoned { ServeKeeps(s, i, false); } else { TimeKeeps(s, Next(s, step)); }
    case Records(i, written) =>
      if s.runs[i].phase.Ending? && s.runs[i].pending == Nothing { RecordsKeeps(s, i, written); }
      else { TimeKeeps(s, Next(s, step)); }
    case Releases(i) => ReleaseKeeps(s, i);
    case FinishRenew(_) => AnswerKeeps(s, step);
    case FailRenew(_) => AnswerKeeps(s, step);
    case _ => RunStepKeeps(s, step);
  }

  lemma {:induction false} PlayValid(steps: seq<Step>)
    ensures Valid(Play(Init(), steps))
    decreases |steps|
  {
    if |steps| > 0 {
      PlayValid(steps[..|steps| - 1]);
      NextKeepsValid(Play(Init(), steps[..|steps| - 1]), steps[|steps| - 1]);
    }
  }

  // ---------------------------------------------------------------- whole histories

  /**
   * The spans of two runs of a job that were let in never meet; a run recorded as succeeded had every
   * renewal confirmed.
   */
  lemma SpansDisjoint(steps: seq<Step>, i: nat, k: nat)
    requires i < k < |Play(Init(), steps).runs|
    ensures var runs := Play(Init(), steps).runs; InOrder(runs[i], runs[k])
  {
    PlayValid(steps);
  }

  lemma SucceededWasConfirmed(steps: seq<Step>, r: nat)
    requires r < |Play(Init(), steps).records| && Play(Init(), steps).records[r].outcome == Succeeded
    ensures var s := Play(Init(), steps); var i := s.records[r].run;
            && i < |s.runs| && s.runs[i].phase != Refused && s.runs[i].job == s.records[r].job
            && s.runs[i].failures == 0 && !s.runs[i].lost
            && (!s.runs[i].stale ==> s.runs[i].workEnd < s.runs[i].confirmed)
  {
    PlayValid(steps);
    var s := Play(Init(), steps);
    assert RecordOk(s, s.records[r]) && RunOk(s.runs[s.records[r].run], s.tick);
  }

  /** Some step ended the work of run `i`, by a return or by a throw. */
  ghost predicate EndedBy(steps: seq<Step>, i: nat, threw: bool) {
    exists n :: 0 <= n < |steps| && EndsAt(steps, n, i, threw)
  }

  predicate EndsAt(steps: seq<Step>, n: nat, i: nat, threw: bool)
    requires n < |steps|
  {
    steps[n] == Ends(i, threw) && InWork(Play(Init(), steps[..n]), i)
  }

  predicate InWork(s: State, i: nat) { i < |s.runs| && s.runs[i].phase.Working? }

  lemma EndsEarlier(steps: seq<Step>, i: nat, threw: bool)
    requires |steps| > 0
    ensures EndedBy(steps, i, threw) <==>
            EndedBy(steps[..|steps| - 1], i, threw) || EndsAt(steps, |steps| - 1, i, threw)
  {
    var init := steps[..|steps| - 1];
    forall n | 0 <= n < |init| ensures EndsAt(init, n, i, threw) <==> EndsAt(steps, n, i, threw) {
      assert init[..n] == steps[..n];
    }
  }

  lemma StepTellsThrow(s: State, step: Step, i: nat)
    requires i < |s.runs| && RunOk(s.runs[i], s.tick)
    ensures var next := Next(s, step);
            next.runs[i].threw == (s.runs[i].threw || (step == Ends(i, true) && s.runs[i].phase.Working?))
  {
  }

  lemma NewRunHasNotThrown(s: State, step: Step)
    ensures var next := Next(s, step);
            |s.runs| <= |next.runs| && forall i :: |s.runs| <= i < |next.runs| ==> !next.runs[i].threw
  {
  }

  /** A run remembers exactly whether its work threw. */
  lemma {:induction false} ThrewIff(steps: seq<Step>, i: nat)
    ensures var s := Play(Init(), steps); i < |s.runs| ==> (s.runs[i].threw <==> EndedBy(steps, i, true))
    ensures i >= |Play(Init(), steps).runs| ==> !EndedBy(steps, i, true)
    decreases |steps|
  {
    if |steps| > 0 {
      var init, step := steps[..|steps| - 1], steps[|steps| - 1];
      var s := Play(Init(), init);
      ThrewIff(init, i);
      PlayValid(init);
      EndsEarlier(steps, i, true);
      NewRunHasNotThrown(s, step);
      if i < |s.runs| { StepTellsThrow(s, step, i); }
    }
  }

  /**
   * In every history a record says `Succeeded` exactly if its run got the lease, its work returned and no
   * renewal was refused or failed; `RefusedOverlap` exactly if the run did not get the lease.
   */
  lemma RecordSaysHowItWent(steps: seq<Step>, r: nat)
    requires r < |Play(Init(), steps).records|
    ensures var s := Play(Init(), steps); var record := s.records[r];
            && record.run < |s.runs| && record.job == s.runs[record.run].job
            && (record.outcome == RefusedOverlap <==> s.runs[record.run].phase == Refused)
            && (record.outcome == Succeeded <==>
                  && s.runs[record.run].phase != Refused && !EndedBy(steps, record.run, true)
                  && s.runs[record.run].failures == 0)
  {
    PlayValid(steps);
    var s := Play(Init(), steps);
    assert RecordOk(s, s.records[r]) && RunOk(s.runs[s.records[r].run], s.tick);
    ThrewIff(steps, s.records[r].run);
  }

  /**
   * No later run's work overlaps a success, unless the store had already answered the renewal awaited
   * at its end. So of two recorded successes only the earlier one's stale answer can let them overlap.
   */
  lemma WorkDoesNotOverlap(steps: seq<Step>, r: nat, k: nat)
    requires var s := Play(Init(), steps);
             && r < |s.records| && s.records[r].outcome == Succeeded && s.records[r].run < k < |s.runs|
             && !s.runs[s.records[r].run].stale && Acquired(s.runs[k], s.records[r].job)
    ensures var s := Play(Init(), steps); s.runs[s.records[r].run].workEnd < s.runs[k].start
  {
    SucceededWasConfirmed(steps, r);
    SpansDisjoint(steps, Play(Init(), steps).records[r].run, k);
  }

  lemma PlayMore(from: State, steps: seq<Step>, s: State, step: Step, next: State)
    requires Play(from, steps) == s && Next(s, step) == next
    ensures Play(from, steps + [step]) == next
  {
    assert (steps + [step])[..|steps|] == steps;
  }

  /** One run holds a confirmed renewal whose answer has not arrived when the next run takes over. */
  lemma LateAnswer() returns (steps: seq<Step>, s: State)
    ensures Play(Init(), steps) == s && s.tick == 5 && s.now == 3 && s.records == []
    ensures s.leases == map["heartbeat" := Lease(1, 6)]
    ensures s.runs == [Run("heartbeat", 3, Working, false, Answered(true), false, false, 0, false, 0, 2, 0),
                       Run("heartbeat", 3, Working, false, Nothing, false, false, 0, false, 4, 4, 4)]
  {
    var run := Run("heartbeat", 3, Working, false, Nothing, false, false, 0, false, 0, 0, 0);
    var s1 := State(map["heartbeat" := Lease(0, 3)], 0, 1, [run], []);
    PlayMore(Init(), [], Init(), Acquire("heartbeat", 3), s1);
    var s2 := s1.(tick := 2, runs := [run.(pending := InFlight)]);
    PlayMore(Init(), [Acquire("heartbeat", 3)], s1, StartRenew(0), s2);
    var s3 := s2.(tick := 3, runs := [run.(pending := Answered(true), confirmed := 2)]);
    steps := [Acquire("heartbeat", 3)] + [StartRenew(0)];
    PlayMore(Init(), steps, s2, ServeRenew(0), s3);
    steps := steps + [ServeRenew(0)];
    var s4 := s3.(tick := 4, now := 3);
    PlayMore(Init(), steps, s3, Wait(3), s4);
    steps := steps + [Wait(3)];
    var other := Run("heartbeat", 3, Working, false, Nothing, false, false, 0, false, 4, 4, 4);
    s := State(map["heartbeat" := Lease(1, 6)], 3, 5, s4.runs + [other], []);
    PlayMore(Init(), steps, s4, Acquire("heartbeat", 3), s);
    steps := steps + [Acquire("heartbeat", 3)];
  }

  /** A run that ends now, and all that follows goes well. */
  lemma EndsWell(from: State, start: seq<Step>, s: State, i: nat) returns (steps: seq<Step>, t: State)
    requires Play(from, start) == s && i < |s.runs| && s.runs[i].phase.Working? && !s.runs[i].lost
    requires s.runs[i].pending == Answered(true)
    ensures Play(from, steps) == t && t.tick == s.tick + 3 && t.now == s.now && t.leases == s.leases
    ensures t.records == s.records + [Record(i, s.runs[i].job, Succeeded, s.now)]
    ensures t.runs == s.runs[i := s.runs[i].(phase := Recorded(Succeeded), threw := false, workEnd := s.tick,
                                             stale := true, pending := Nothing)]
  {
    var s1, s2 := Next(s, Ends(i, false)), Next(Next(s, Ends(i, false)), FinishRenew(i));
    PlayMore(from, start, s, Ends(i, false), s1);
    PlayMore(from, start + [Ends(i, false)], s1, FinishRenew(i), s2);
    t := Next(s2, Records(i, true));
    PlayMore(from, start + [Ends(i, false)] + [FinishRenew(i)], s2, Records(i, true), t);
    steps := start + [Ends(i, false)] + [FinishRenew(i)] + [Records(i, true)];
  }

  // ---------------------------------------------------------------- a run that another one overtook

  /** A later run of its job has the lease, or had it. */
  predicate Overtaken(s: State, i: nat) {
    i < |s.runs| && exists k :: i < k < |s.runs| && Acquired(s.runs[k], s.runs[i].job)
  }

  /** Nothing but failure is left for an overtaken run like this. */
  predicate Doomed(run: Run) {
    || (run.phase.Working? && (run.lost || run.pending != Answered(true)))
    || (run.phase.Ending? && (run.lost || run.pending == InFlight || run.pending == Answered(false)))
    || run.phase in {Recorded(Failed), Released(Failed), Crashed}
  }

  lemma OvertakenCannotRenew(s: State, i: nat, now: int)
    requires LeasesOk(s) && Overtaken(s, i)
    ensures !Renewable(s.leases, s.runs[i].job, i, now)
  {
    var k :| i < k < |s.runs| && Acquired(s.runs[k], s.runs[i].job);
    if s.runs[i].job in s.leases { assert LatestHolds(s, s.runs[i].job); }
  }

  lemma StepKeepsRuns(s: State, step: Step, k: nat)
    requires k < |s.runs|
    ensures var next := Next(s, step);
            && |s.runs| <= |next.runs| && next.runs[k].job == s.runs[k].job
            && (next.runs[k].phase == Refused <==> s.runs[k].phase == Refused)
  {
  }

  lemma StaysOvertaken(s: State, step: Step, i: nat)
    requires Overtaken(s, i)
    ensures Overtaken(Next(s, step), i)
  {
    var k :| i < k < |s.runs| && Acquired(s.runs[k], s.runs[i].job);
    StepKeepsRuns(s, step, k);
    StepKeepsRuns(s, step, i);
    assert Acquired(Next(s, step).runs[k], Next(s, step).runs[i].job);
  }

  lemma StaysDoomed(s: State, step: Step, i: nat)
    requires LeasesOk(s) && Overtaken(s, i) && Doomed(s.runs[i])
    ensures Doomed(Next(s, step).runs[i])
  {
    OvertakenCannotRenew(s, i, s.now);
  }

  lemma {:induction false} DoomedForGood(s: State, i: nat, steps: seq<Step>)
    requires Valid(s) && Overtaken(s, i) && Doomed(s.runs[i])
    ensures var t := Play(s, steps); Valid(t) && Overtaken(t, i) && Doomed(t.runs[i])
    decreases |steps|
  {
    if |steps| > 0 {
      var before, step := Play(s, steps[..|steps| - 1]), steps[|steps| - 1];
      DoomedForGood(s, i, steps[..|steps| - 1]);
      NextKeepsValid(before, step);
      StaysOvertaken(before, step, i);
      StaysDoomed(before, step, i);
    }
  }

  ghost predicate RecordedSuccess(s: State, i: nat) {
    exists r :: 0 <= r < |s.records| && s.records[r].run == i && s.records[r].outcome == Succeeded
  }

  lemma DoomedIsNoSuccess(s: State, i: nat)
    requires RecordsOk(s) && i < |s.runs| && Doomed(s.runs[i])
    ensures !RecordedSuccess(s, i)
  {
    forall r | 0 <= r < |s.records| && s.records[r].run == i ensures s.records[r].outcome != Succeeded {
      assert RecordOk(s, s.records[r]);
    }
  }

  ghost predicate MaySucceed(s: State, i: nat) { exists steps :: RecordedSuccess(Play(s, steps), i) }

  /**
   * A run still at work after a later run of its job took over can be recorded as a success exactly if
   * it has not learnt of a loss and holds a confirmation whose answer is still on its way.
   */
  lemma OvertakenSucceedsIff(before: seq<Step>, i: nat)
    requires var s := Play(Init(), before); Overtaken(s, i) && s.runs[i].phase.Working?
    ensures var s := Play(Init(), before); MaySucceed(s, i) <==> !s.runs[i].lost && s.runs[i].pending == Answered(true)
  {
    var s := Play(Init(), before);
    PlayValid(before);
    if !s.runs[i].lost && s.runs[i].pending == Answered(true) {
      var steps, t := EndsWell(s, [], s, i);
      assert t.records[|s.records|].run == i;
      assert RecordedSuccess(Play(s, steps), i);
    } else if MaySucceed(s, i) {
      var steps :| RecordedSuccess(Play(s, steps), i);
      DoomedForGood(s, i, steps);
      DoomedIsNoSuccess(Play(s, steps), i);
    }
  }

  /**
   * It does happen: a renewal confirmed long ago, whose answer is still on its way when the work ends,
   * is taken for the last one. Here two recorded successes worked at the same time.
   */
  lemma ReusedRenewalOverlaps() returns (steps: seq<Step>)
    ensures var s := Play(Init(), steps);
            && |s.runs| == 2
            && s.records == [Record(0, "heartbeat", Succeeded, 3), Record(1, "heartbeat", Succeeded, 3)]
            && s.runs[0].stale && s.runs[1].start < s.runs[0].workEnd < s.runs[1].workEnd
  {
    var start, s := LateAnswer();
    var more, t := EndsWell(Init(), start, s, 0);
    var t1, t2 := Next(t, StartRenew(1)), Next(Next(t, StartRenew(1)), ServeRenew(1));
    PlayMore(Init(), more, t, StartRenew(1), t1);
    PlayMore(Init(), more + [StartRenew(1)], t1, ServeRenew(1), t2);
    var last;
    steps, last := EndsWell(Init(), more + [StartRenew(1)] + [ServeRenew(1)], t2, 1);
  }

  /** A success says nothing of earlier runs: one that lost its lease may still be at work. */
  lemma EarlierRunStillWorks() returns (steps: seq<Step>)
    ensures var s := Play(Init(), steps);
            && |s.runs| == 2 && s.runs[0].phase.Working? && s.runs[0].job == s.runs[1].job
            && s.records == [Record(1, "heartbeat", Succeeded, 3)] && !s.runs[1].stale
  {
    var start, s := LateAnswer();
    var s1 := Next(s, Ends(1, false));
    PlayMore(Init(), start, s, Ends(1, false), s1);
    var s2 := Next(s1, ServeRenew(1));
    PlayMore(Init(), start + [Ends(1, false)], s1, ServeRenew(1), s2);
    var s3 := Next(s2, FinishRenew(1));
    steps := start + [Ends(1, false)] + [ServeRenew(1)];
    PlayMore(Init(), steps, s2, FinishRenew(1), s3);
    steps := steps + [FinishRenew(1)];
    PlayMore(Init(), steps, s3, Records(1, true), Next(s3, Records(1, true)));
    steps := steps + [Records(1, true)];
  }

  /** A lease lasts as long as it was taken for: until then nobody else gets in, and from then on anybody does. */
  lemma LeaseLasts(s: State, job: JobName, ms: int, elapsed: nat, other: int)
    requires Acquirable(s.leases, job, s.now)
    ensures var held := Next(s, Acquire(job, ms)); var later := Next(Next(held, Wait(elapsed)), Acquire(job, other));
            && held.runs[|s.runs|].phase == Working && later.now == s.now + elapsed
            && (later.runs[|s.runs| + 1].phase == Working <==> elapsed >= ms)
            && (later.runs[|s.runs| + 1].phase == Refused <==> elapsed < ms)
            && (elapsed < ms ==> later.leases == held.leases
                                 && later.records == s.records + [Record(|s.runs| + 1, job, RefusedOverlap, later.now)])
  {
  }

  /** A renewal served in time gives the run another full term; one served too late, or fenced off, gives none. */
  lemma RenewalLasts(s: State, i: nat, elapsed: nat, other: int)
    requires i < |s.runs| && s.runs[i].pending == InFlight
    ensures var run := s.runs[i];
            var inTime := run.job in s.leases && s.leases[run.job].holder == i && s.now < s.leases[run.job].expiresAt;
            var served := Next(s, ServeRenew(i));
            var later := Next(Next(served, Wait(elapsed)), Acquire(run.job, other));
            && served.runs[i].pending == Answered(inTime)
            && (inTime ==> (later.runs[|s.runs|].phase == Working <==> elapsed >= run.ms))
            && (!inTime ==> served.leases == s.leases)
  {
  }

  /** What can go wrong, and what it leaves: a crash, a call that throws, a record that is not written. */
  lemma FaultsHappen(s: State, i: nat)
    requires i < |s.runs|
    ensures var run := s.runs[i]; var atWork := run.phase.Working? || run.phase.Ending?;
            && (atWork ==> Next(s, Crashes(i)) == s.(tick := s.tick + 1, runs := s.runs[i := run.(phase := Crashed)]))
            && (atWork && !run.pending.Nothing? ==>
                  var failed := Next(s, FailRenew(i)).runs[i];
                  failed.lost && failed.pending.Nothing? && failed.failures == run.failures + 1
                  && (failed.abandoned <==> run.abandoned || run.pending.InFlight?) && failed.phase == run.phase)
            && (atWork && run.pending.Answered? ==>
                  var told := Next(s, FinishRenew(i)).runs[i];
                  told.pending.Nothing? && (told.lost <==> run.lost || !run.pending.ok))
            && (!(atWork && !run.pending.Nothing?) ==>
                  Next(s, FailRenew(i)).runs == s.runs && Next(s, FinishRenew(i)).runs == s.runs)
            && (run.phase.Ending? && run.pending.Nothing? ==>
                  Next(s, Records(i, false)).records == s.records && Told(Next(s, Records(i, false)).runs[i]))
  {
  }

  /** The store may still serve a renewal whose sender gave up on it: the lease goes on, and the run never hears. */
  lemma StrayRenewalsCount(s: State, i: nat)
    requires i < |s.runs| && s.runs[i].abandoned
    ensures var run, next := s.runs[i], Next(s, ServeStray(i));
            next.runs[i].pending == run.pending && next.runs[i].lost == run.lost
            && (run.job in s.leases && s.leases[run.job].holder == i && s.now < s.leases[run.job].expiresAt ==>
                  next.leases == s.leases[run.job := Lease(i, s.now + run.ms)] && next.runs[i].confirmed == s.tick)
  {
  }

  /** A run that has recorded its outcome gives its lease back, and only its own: the next one gets in at once. */
  lemma ReleaseFrees(s: State, i: nat, other: int)
    requires i < |s.runs| && s.runs[i].phase.Recorded?
    ensures var job := s.runs[i].job; var freed := Next(s, Releases(i)); var later := Next(freed, Acquire(job, other));
            && freed.runs[i].phase == Released(s.runs[i].phase.outcome)
            && (job in s.leases && s.leases[job].holder == i ==> later.runs[|s.runs|].phase == Working)
            && (job in s.leases && s.leases[job].holder != i ==> freed.leases == s.leases)
            && (forall name :: name != job ==>
                  (name in freed.leases <==> name in s.leases)
                  && (name in s.leases ==> freed.leases[name] == s.leases[name]))
  {
  }

  /** A lease goes only when its own holder releases it, and changes hands only once it has lapsed. */
  lemma LeaseGoesOnlyByItsHolder(s: State, step: Step, job: JobName)
    requires job in s.leases
    ensures job !in Next(s, step).leases ==> step.Releases? && s.leases[job].holder == step.run
    ensures job in Next(s, step).leases && Next(s, step).leases[job].holder != s.leases[job].holder ==>
              step.Acquire? && s.leases[job].expiresAt <= s.now
  {
  }

  // ---------------------------------------------------------------- the in-memory store and the runner

  class MemoryJobRunsStore {
    var leases: Leases
    var runs: seq<Record>

    constructor ()
      ensures leases == map[] && runs == []
    {
      leases, runs := map[], [];
    }

    method Acquire(job: JobName, id: nat, ms: int, now: int) returns (ok: bool)
      modifies this`leases
      ensures ok == Acquirable(old(leases), job, now)
      ensures leases == if ok then old(leases)[job := Lease(id, now + ms)] else old(leases)
    {
      if job in leases && leases[job].expiresAt > now { return false; }
      leases := leases[job := Lease(id, now + ms)];
      return true;
    }

    method Renew(job: JobName, id: nat, ms: int, now: int) returns (ok: bool)
      modifies this`leases
      ensures ok == Renewable(old(leases), job, id, now)
      ensures leases == if ok then old(leases)[job := Lease(id, now + ms)] else old(leases)
    {
      if job !in leases || leases[job].holder != id || leases[job].expiresAt <= now { return false; }
      leases := leases[job := Lease(id, now + ms)];
      return true;
    }

    method Release(job: JobName, id: nat)
      modifies this`leases
      ensures leases == Without(old(leases), job, id)
    {
      if job in leases && leases[job].holder == id { leases := leases - {job}; }
    }

    method Record(run: Record)
      modifies this`runs
      ensures runs == old(runs) + [run]
    {
      runs := runs + [run];
    }

    /** Exactly the jobs that succeeded, each with its latest finish. */
    method LastSuccesses() returns (result: map<JobName, int>)
      ensures forall job :: job in result <==>
                  exists k :: 0 <= k < |runs| && runs[k].outcome == Succeeded && runs[k].job == job
      ensures forall k :: 0 <= k < |runs| && runs[k].outcome == Succeeded ==>
                  runs[k].job in result && runs[k].finishedAt <= result[runs[k].job]
      ensures forall job :: job in result ==>
                exists k :: 0 <= k < |runs| && runs[k].outcome == Succeeded && runs[k].job == job
                  && runs[k].finishedAt == result[job]
    {
      result := map[];
      for n := 0 to |runs|
        invariant forall k :: 0 <= k < n && runs[k].outcome == Succeeded ==>
                      runs[k].job in result && runs[k].finishedAt <= result[runs[k].job]
        invariant forall job :: job in result ==>
                    exists k :: 0 <= k < n && runs[k].outcome == Succeeded && runs[k].job == job
                      && runs[k].finishedAt == result[job]
      {
        var row := runs[n];
        if row.outcome == Succeeded && (row.job !in result || result[row.job] < row.finishedAt) {
          result := result[row.job := row.finishedAt];
        }
      }
    }
  }

  /** The variables that `runJob` shares with its renewal timer. */
  class Runner {
    const job: JobName
    var lost: bool
    var pending: Renewal
    var threw: bool

    constructor (job: JobName)
      ensures this.job == job && !lost && pending == Nothing && !threw
    {
      this.job, lost, pending, threw := job, false, Nothing, false;
    }

    ghost predicate Is(run: Run)
      reads this
    {
      run.lost == lost && run.pending == pending && run.threw == threw
    }

    method Renew(ghost run: Run)
      requires Is(run)
      modifies this`pending
      ensures Is(StartRenewal(run))
    {
      if pending != Nothing { return; }
      if lost { return; }
      pending := InFlight;
    }

    method RenewalDone(ok: bool, ghost run: Run)
      requires Is(run)
      modifies this`pending, this`lost
      ensures Is(FinishRenewal(run, ok))
    {
      if !ok { lost := true; }
      pending := Nothing;
    }

    method WorkDone(caught: bool, ghost run: Run, ghost tick: nat)
      requires Is(run)
      modifies this`pending, this`threw
      ensures Is(EndWork(run, caught, tick))
    {
      threw := caught;
      Renew(run.(threw := caught));
    }

    method Conclude(ghost run: Run) returns (outcome: Outcome)
      requires Is(run)
      ensures outcome == Verdict(run)
    {
      outcome := if threw then Failed else Succeeded;
      if lost && outcome == Succeeded { outcome := Failed; }
    }
  }
}
