/** The store's save method, run on its own, and the play of the interleaving machine that it is. */
module ProfileStore {
  import opened Options
  import opened ProfileFields
  import opened BrowserSave

  /** Where one transaction fails: before COMMIT, at the ROLLBACK, or at COMMIT (which then landed or did not). */
  datatype Fault = Fault(beforeCommit: bool, rollback: bool, commit: Option<bool>)
  datatype Try = Try(env: Env, fault: Fault)

  datatype Error = Refusal(status: Outcome) | CanonicalValue | ValueRefused | TokenConflict | DatabaseError
  datatype TryResult = Returned(outcome: Outcome) | Raised(error: Error)

  /** What a save leaves behind and answers. */
  datatype Result = Result(profile: Profile, rows: seq<Row>, outcome: Outcome)

  function Saved(world: World, active: set<string>, profile: Profile, rows: seq<Row>, token: Token, value: Value,
        tries: seq<Try>): Result
    requires 1 <= |tries| <= 2
    decreases |tries|
  {
    var t := tries[0];
    if t.fault.beforeCommit then Result(profile, rows, Retryable)
    else
      match Decide(world, active, profile, rows, Browser(token, value), t.env)
      case Answer(outcome) => Result(profile, rows, outcome)
      case Conflict =>
        if |tries| == 2 && !t.fault.rollback then Saved(world, active, profile, rows, token, value, tries[1..])
        else Result(profile, rows, Retryable)
      case Commit(p) =>
        var landed := Result(p.after, rows + [Row(true, p.receipt)], Committed(p.receipt));
        match t.fault.commit
        case None => landed
        case Some(applied) => if applied then landed.(outcome := Unknown) else Result(profile, rows, Unknown)
  }

  /** The profile holds what the save entered in this field, and the audit table one row more. */
  predicate Landed(world: World, profile: Profile, rows: seq<Row>, token: Token, value: Value, field: Field, r: Result)
  {
    value.Text? && |r.rows| == |rows| + 1
    && Get(r.profile, field) == Entered(world, token.field, value.s, field, Get(profile, field))
  }

  lemma CommitLands(world: World, active: set<string>, profile: Profile, rows: seq<Row>, token: Token, value: Value,
        env: Env, field: Field, outcome: Outcome)
    requires !world.column(Nationality, "").Accepts?
    requires Decide(world, active, profile, rows, Browser(token, value), env).Commit?
    ensures var p := Decide(world, active, profile, rows, Browser(token, value), env).pending;
            Landed(world, profile, rows, token, value, field, Result(p.after, rows + [Row(true, p.receipt)], outcome))
  {
    BrowserCommitsIff(world, active, profile, rows, token, value, env);
    WriteTouches(world, active, profile, token.field, value.s, field);
  }

  /** A save that answers `Committed` leaves the value entered and its receipt; only an unknown one may have. */
  lemma {:induction false} SavedMeans(world: World, active: set<string>, profile: Profile, rows: seq<Row>,
        token: Token, value: Value, tries: seq<Try>, field: Field)
    requires 1 <= |tries| <= 2 && !world.column(Nationality, "").Accepts?
    ensures var r := Saved(world, active, profile, rows, token, value, tries);
            var untouched := r.profile == profile && r.rows == rows;
            && (r.outcome.Committed? ==>
                  r.rows == rows + [Row(true, r.outcome.receipt)]
                  && Landed(world, profile, rows, token, value, field, r))
            && (untouched || r.outcome == Unknown || r.outcome.Committed?)
            && (r.outcome == Unknown ==> untouched || Landed(world, profile, rows, token, value, field, r))
    decreases |tries|
  {
    var t := tries[0];
    if !t.fault.beforeCommit {
      var d := Decide(world, active, profile, rows, Browser(token, value), t.env);
      if d.Commit? {
        CommitLands(world, active, profile, rows, token, value, t.env, field,
                    if t.fault.commit.None? then Committed(d.pending.receipt) else Unknown);
      } else if d.Conflict? && |tries| == 2 && !t.fault.rollback {
        SavedMeans(world, active, profile, rows, token, value, tries[1..], field);
      } else if d.Answer? {
        BrowserRefusesIff(world, active, profile, rows, token, value, t.env);
      }
    }
  }

  class Store {
    const world: World
    var active: set<string>
    var profile: Profile
    var rows: seq<Row>

    constructor (world: World, active: set<string>)
      ensures this.world == world && this.active == active && profile == map[] && rows == []
    {
      this.world, this.active, profile, rows := world, active, map[], [];
    }

    /** The body of the save's `try`: one transaction, with the flag that COMMIT was sent. */
    method Transaction(token: Token, value: Value, env: Env, fault: Fault) returns (result: TryResult, committing: bool)
      modifies this`profile, this`rows
      ensures fault.beforeCommit ==> result == Raised(DatabaseError)
      ensures var d := Decide(world, active, old(profile), old(rows), Browser(token, value), env);
              committing <==> !fault.beforeCommit && d.Commit?
      ensures var d := Decide(world, active, old(profile), old(rows), Browser(token, value), env);
              if committing then
                && result == (if fault.commit.None? then Returned(Committed(d.pending.receipt))
                              else Raised(DatabaseError))
                && (if fault.commit == Some(false) then profile == old(profile) && rows == old(rows)
                    else profile == d.pending.after && rows == old(rows) + [Row(true, d.pending.receipt)])
              else
                && profile == old(profile) && rows == old(rows)
                && (!fault.beforeCommit ==>
                      if d.Conflict? then result == Raised(TokenConflict)
                      else if d.outcome.AlreadyCommitted? || d.outcome.PayloadMismatch? then
                        result == Returned(d.outcome)
                      else if d.outcome == NotCanonical then result == Raised(CanonicalValue)
                      else if d.outcome == Retryable then result == Raised(DatabaseError)
                      else
                        || result == Raised(Refusal(d.outcome))
                        || (d.outcome == StateChanged && result == Raised(ValueRefused)))
    {
      committing := false;
      if fault.beforeCommit { return Raised(DatabaseError), false; }
      if !env.live { return Raised(Refusal(NotAuthorized)), false; }
      var found := FindOwn(rows, BrowserRef(token.id));
      var change := BrowserChange(token.field, token.normalization, value);
      if found.Some? {
        if !found.value.browser || found.value.field != token.field { return Raised(DatabaseError), false; }
        return Returned(if found.value.change == change then AlreadyCommitted(found.value) else PayloadMismatch), false;
      }
      if env.now < token.issuedAt || env.now >= token.expiresAt { return Raised(Refusal(Expired)), false; }
      if !env.known { return Raised(Refusal(NotAuthorized)), false; }
      var cell := Get(profile, token.field);
      if !cell.written && env.imported.None? { return Raised(DatabaseError), false; }
      var shown := if cell.written then None else env.imported.value;
      if Baseline(cell.value, shown) != token.baseline { return Raised(Refusal(StateChanged)), false; }
      if !value.Text? { return Raised(CanonicalValue), false; }
      var written := WriteValue(world, active, profile, token.field, value.s);
      if written.Refused? { return Raised(ValueRefused), false; }
      if written.Violated? || written.Broken? || Taken(env, token.field, value.s) {
        return Raised(DatabaseError), false;
      }
      var receipt := Receipt(env.ref, true, BrowserRef(token.id), change, token.field);
      if TokenIn(rows, receipt.token) { return Raised(TokenConflict), false; }
      if RefIn(rows, receipt.ref) { return Raised(DatabaseError), false; }
      committing := true;
      if fault.commit != Some(false) {
        profile, rows := written.profile, rows + [Row(true, receipt)];
      }
      result := if fault.commit.None? then Returned(Committed(receipt)) else Raised(DatabaseError);
    }

    method SaveBrowser(token: Token, value: Value, tries: seq<Try>, dedupeRetry: bool) returns (outcome: Outcome)
      requires |tries| == if dedupeRetry then 1 else 2
      modifies this`profile, this`rows
      ensures Result(profile, rows, outcome) == Saved(world, active, old(profile), old(rows), token, value, tries)
      decreases |tries|
    {
      var discard, retryDedupe := false, false;
      var env, fault := tries[0].env, tries[0].fault;
      var result, committing := Transaction(token, value, env, fault);
      if result.Returned? { return result.outcome; }
      var tokenConflict := result.error == TokenConflict;
      if committing && !tokenConflict { return Unknown; }
      if fault.rollback { discard := true; }
      if result.error.Refusal? { return result.error.status; }
      if result.error.CanonicalValue? { return NotCanonical; }
      if tokenConflict && !dedupeRetry && !discard { retryDedupe := true; }
      else if result.error.ValueRefused? { return StateChanged; }
      else { return Retryable; }
      if retryDedupe {
        outcome := SaveBrowser(token, value, tries[1..], true);
      } else {
        return Retryable;
      }
    }
  }

  // ---------------------------------------------------------------- the save as a play

  function TryStep(world: World, s: State, i: nat, t: Try): seq<Step>
    requires i < |s.calls|
  {
    if t.fault.beforeCommit then [TakeLock(i), Break(i), ServerEnds]
    else
      match Decide(world, s.active, s.profile, s.rows, s.calls[i].request, t.env)
      case Answer(_) => [TakeLock(i), Body(i, t.env)]
      case Conflict => if t.fault.rollback then [TakeLock(i), Break(i), ServerEnds] else [TakeLock(i), Body(i, t.env)]
      case Commit(_) =>
        match t.fault.commit
        case None => [TakeLock(i), Body(i, t.env), Land, Ack(i)]
        case Some(applied) => [TakeLock(i), Body(i, t.env), if applied then Land else Abort, Lose(i)]
  }

  lemma PlayTwo(world: World, s: State, a: Step, b: Step)
    ensures Play(world, s, [a, b]) == Next(world, Next(world, s, a), b)
  {
    assert [a, b][..1] == [a] && [a][..0] == [];
    assert Play(world, s, [a]) == Next(world, Play(world, s, []), a);
  }

  lemma {:induction false} PlayJoins(world: World, s: State, a: seq<Step>, b: seq<Step>)
    ensures Play(world, s, a + b) == Play(world, Play(world, s, a), b)
    decreases |b|
  {
    if |b| == 0 {
      assert a + b == a;
    } else {
      PlayJoins(world, s, a, b[..|b| - 1]);
      assert (a + b)[..|a + b| - 1] == a + b[..|b| - 1];
    }
  }

  /** A state where call `i` alone is about to take the lock. */
  predicate Ready(s: State, i: nat, token: Token, value: Value, tries: nat) {
    && i < |s.calls| && s.server == Idle && i !in s.landed
    && s.calls[i] == Call(Browser(token, value), if tries == 2 then 0 else 1, Waiting)
  }

  /** The call holds the lock; the decision reads what it read before. */
  function LockedBy(s: State, i: nat): State
    requires i < |s.calls|
  {
    s.(calls := s.calls[i := s.calls[i].(phase := Locked, attempts := s.calls[i].attempts + 1)], server := Open(i))
  }

  lemma BrokenTry(world: World, s: State, i: nat, token: Token, value: Value, tries: nat)
    requires Ready(s, i, token, value, tries)
    ensures Play(world, s, [TakeLock(i), Break(i), ServerEnds]) == Settle(LockedBy(s, i), i, Done(Retryable), Idle)
  {
    PlayJoins(world, s, [TakeLock(i), Break(i)], [ServerEnds]);
    assert [TakeLock(i), Break(i), ServerEnds] == [TakeLock(i), Break(i)] + [ServerEnds];
    PlayTwo(world, s, TakeLock(i), Break(i));
    assert Next(world, s, TakeLock(i)) == LockedBy(s, i);
    PlayOne(world, Next(world, LockedBy(s, i), Break(i)), ServerEnds);
  }

  lemma PlayOne(world: World, s: State, step: Step)
    ensures Play(world, s, [step]) == Next(world, s, step)
  {
    assert [step][..0] == [];
  }

  lemma DecidedTry(world: World, s: State, i: nat, token: Token, value: Value, tries: nat, env: Env)
    requires Ready(s, i, token, value, tries)
    ensures Play(world, s, [TakeLock(i), Body(i, env)]) == AfterBody(world, LockedBy(s, i), i, env)
  {
    PlayTwo(world, s, TakeLock(i), Body(i, env));
    assert Next(world, s, TakeLock(i)) == LockedBy(s, i);
  }

  lemma CommittingTry(world: World, s: State, i: nat, token: Token, value: Value, p: Pending, first: Step, second: Step)
    requires i < |s.calls| && s.calls[i].request == Browser(token, value) && s.calls[i].phase == Sent(p.receipt)
    requires s.server == Committing(i, p) && i !in s.landed
    requires (first == Land && second in {Ack(i), Lose(i)}) || (first == Abort && second == Lose(i))
    ensures var t := Play(world, s, [first, second]);
            && t.server == Idle && t.active == s.active && i < |t.calls|
            && t.calls[i].phase == Done(if second == Ack(i) then Committed(p.receipt) else Unknown)
            && (if first == Land then t.profile == p.after && t.rows == s.rows + [Row(true, p.receipt)]
                else t.profile == s.profile && t.rows == s.rows)
  {
    PlayTwo(world, s, first, second);
  }

  lemma OneTry(world: World, s: State, i: nat, token: Token, value: Value, tries: seq<Try>)
    requires 1 <= |tries| <= 2 && Ready(s, i, token, value, |tries|)
    ensures var t := Play(world, s, TryStep(world, s, i, tries[0]));
            var r := Saved(world, s.active, s.profile, s.rows, token, value, tries);
            && t.active == s.active
            && (if Retries(world, s, token, value, tries)
                then t.profile == s.profile && t.rows == s.rows && Ready(t, i, token, value, 1)
                else Finished(t, i, r))
  {
    var env, fault := tries[0].env, tries[0].fault;
    var d := Decide(world, s.active, s.profile, s.rows, Browser(token, value), env);
    if fault.beforeCommit || (d.Conflict? && fault.rollback) {
      BrokenTry(world, s, i, token, value, |tries|);
    } else {
      DecidedTry(world, s, i, token, value, |tries|, env);
      if d.Commit? {
        var first := if fault.commit == Some(false) then Abort else Land;
        var second := if fault.commit.None? then Ack(i) else Lose(i);
        var u := AfterBody(world, LockedBy(s, i), i, env);
        assert TryStep(world, s, i, tries[0]) == [TakeLock(i), Body(i, env)] + [first, second];
        PlayJoins(world, s, [TakeLock(i), Body(i, env)], [first, second]);
        CommittingTry(world, u, i, token, value, d.pending, first, second);
      }
    }
  }

  predicate Retries(world: World, s: State, token: Token, value: Value, tries: seq<Try>)
    requires |tries| > 0
  {
    |tries| == 2 && !tries[0].fault.beforeCommit && !tries[0].fault.rollback
    && Decide(world, s.active, s.profile, s.rows, Browser(token, value), tries[0].env).Conflict?
  }

  /** Call `i` is done, with the result's outcome, and nobody holds the lock. */
  predicate Finished(t: State, i: nat, r: Result) {
    i < |t.calls| && t.calls[i].phase == Done(r.outcome) && t.profile == r.profile && t.rows == r.rows
    && t.server == Idle
  }

  ghost predicate IsPlay(world: World, s: State, i: nat, r: Result) {
    exists steps :: Finished(Play(world, s, steps), i, r)
  }

  /** A save on its own is one play of the machine, so every theorem about plays holds of it. */
  lemma {:induction false} SaveIsAPlay(world: World, s: State, i: nat, token: Token, value: Value, tries: seq<Try>)
    requires 1 <= |tries| <= 2 && Ready(s, i, token, value, |tries|)
    ensures IsPlay(world, s, i, Saved(world, s.active, s.profile, s.rows, token, value, tries))
    decreases |tries|
  {
    var steps := TryStep(world, s, i, tries[0]);
    OneTry(world, s, i, token, value, tries);
    var t := Play(world, s, steps);
    if Retries(world, s, token, value, tries) {
      SaveIsAPlay(world, t, i, token, value, tries[1..]);
      var r := Saved(world, t.active, t.profile, t.rows, token, value, tries[1..]);
      var more :| Finished(Play(world, t, more), i, r);
      PlayJoins(world, s, steps, more);
      assert Finished(Play(world, s, steps + more), i, r);
    } else {
      assert Finished(t, i, Saved(world, s.active, s.profile, s.rows, token, value, tries));
    }
  }
}
