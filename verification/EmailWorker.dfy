/** One worker's pass over its claimed rows, and the play of the outbox machine that it is. */
module EmailWorker {
  import opened Options
  import opened EmailOutbox

  datatype PortAnswer =
    | Accepted
    | Declined(code: Code, safeToRetry: bool)    // returned by the port
    | SendError(code: Code, safeToRetry: bool)   // thrown by it as its own error
    | OtherError                                 // anything else it throws

  /** How a completion's transaction can go wrong: never applied, or applied with the answer lost. */
  datatype Fault = NoFault | NotApplied | Unanswered

  /** What the worker finds for a row, and what befalls its two completion calls. */
  datatype Facts = Facts(required: bool, preference: bool, address: string, rendered: bool, port: PortAnswer,
      first: Fault, second: Fault)

  datatype Worker = Worker(production: bool, configured: bool, max: nat)

  datatype Plan = Close(report: Report) | Invalid | SendIt

  function PlanFor(w: Worker, attempt: nat, f: Facts): Plan {
    if attempt > w.max then Close(Report(Failed, Some(RetryLimit), None))
    else if !f.required && !f.preference then Close(Report(Suppressed, None, None))
    else if !w.production then Close(Report(NotSent, Some(NonProduction), None))
    else if !w.configured then Close(Report(NotSent, Some(DeliveryNotConfigured), None))
    else if f.address == "" then Close(Report(Failed, Some(AddressUnavailable), None))
    else if !f.rendered then Invalid
    else SendIt
  }

  function PowerOfTwo(n: nat): nat { if n == 0 then 1 else 2 * PowerOfTwo(n - 1) }

  function RetryDelay(attempt: nat): int {
    var delay := if attempt == 0 then 500 else 1000 * PowerOfTwo(attempt - 1);
    if delay < 3_600_000 then delay else 3_600_000
  }

  function Declining(w: Worker, attempt: nat, code: Code, safeToRetry: bool, now: int): Report {
    if code == DeliveryNotConfigured then Report(NotSent, Some(code), None)
    else if safeToRetry && attempt < w.max then Report(Failed, Some(code), Some(now + RetryDelay(attempt)))
    else Report(Failed, Some(if attempt >= w.max then RetryLimit else code), None)
  }

  const UNRENDERED := Report(Failed, None, None)

  /** A completion call: its effect, and whether it returned instead of throwing. */
  function Try(max: nat, s: State, c: nat, r: Report, now: int, fault: Fault): (State, bool) {
    if c < |s.claims| && Fenced(s, s.claims[c]) && fault != NotApplied then
      (Next(max, s, Complete(c, r, now)), fault == NoFault)
    else (s, false)
  }

  /** One row: the state it leaves, and whether it failed. */
  function Row(w: Worker, s: State, c: nat, f: Facts, now: int): (r: (State, bool))
    requires c < |s.claims|
    ensures |r.0.claims| == |s.claims|
  {
    match PlanFor(w, s.claims[c].attempt, f)
    case Close(report) =>
      var (t, ok) := Try(w.max, s, c, report, now, f.first);
      if ok then (t, false) else (Try(w.max, t, c, UNRENDERED, now, f.second).0, true)
    case Invalid => (Try(w.max, s, c, UNRENDERED, now, f.second).0, true)
    case SendIt =>
      var t := Next(w.max, s, Send(c));
      match f.port
      case OtherError => (t, true)
      case Accepted =>
        var (u, ok) := Try(w.max, t, c, Report(Sent, None, None), now, f.first);
        (u, !ok)
      case Declined(code, safe) =>
        var (u, ok) := Try(w.max, t, c, Declining(w, s.claims[c].attempt, code, safe, now), now, f.first);
        (u, !ok)
      case SendError(code, safe) =>
        (Try(w.max, t, c, Declining(w, s.claims[c].attempt, code, safe, now), now, f.first).0, true)
  }

  /** The rows from claim `first` on, each on its own; the pass fails if some row did. */
  function Rows(w: Worker, s: State, first: nat, facts: seq<Facts>, now: int, n: nat): (r: (State, bool))
    requires n <= |facts| && first + |facts| <= |s.claims|
    ensures |r.0.claims| == |s.claims|
  {
    if n == 0 then (s, false)
    else
      var (before, failed) := Rows(w, s, first, facts, now, n - 1);
      var (after, fails) := Row(w, before, first + n - 1, facts[n - 1], now);
      (after, failed || fails)
  }

  class EmailOutboxService {
    const worker: Worker
    var messages: seq<Message>
    var rows: seq<AttemptRow>
    var claims: seq<Claim>
    var sends: seq<(nat, nat)>

    constructor (worker: Worker)
      ensures this.worker == worker && Now() == Init()
    {
      this.worker, messages, rows, claims, sends := worker, [], [], [], [];
    }

    ghost function Now(): State
      reads this
    {
      State(messages, rows, claims, sends)
    }

    method ClaimRowsDue(now: int, chosen: seq<nat>)
      requires forall c :: 0 <= c < |chosen| ==> chosen[c] < |messages|
      modifies this`messages, this`claims
      ensures Now() == ClaimRows(old(Now()), now, chosen, |chosen|)
      ensures |claims| == |old(claims)| + |chosen|
    {
      for n := 0 to |chosen|
        invariant |messages| == |old(messages)| && rows == old(rows) && sends == old(sends)
        invariant Now() == ClaimRows(old(Now()), now, chosen, n) && |claims| == |old(claims)| + n
      {
        var m := messages[chosen[n]];
        m := m.(state := Sending, attempts := m.attempts + 1, due := now + CLAIM_LEASE_MS);
        messages := messages[chosen[n] := m];
        claims := claims + [Claim(chosen[n], m.attempts, false)];
      }
    }

    /** The transaction of `complete`; `thrown` when the claim is lost, the database fails, or its answer does. */
    method CompleteRow(c: nat, r: Report, at: int, fault: Fault) returns (thrown: bool)
      requires c < |claims| && Final(r.outcome) && (r.outcome == Sent ==> claims[c].started)
      modifies this`messages, this`rows
      ensures (Now(), !thrown) == Try(worker.max, old(Now()), c, r, at, fault)
    {
      var claim := claims[c];
      if fault == NotApplied { return true; }
      if claim.message >= |messages| || messages[claim.message].attempts != claim.attempt
      || messages[claim.message].state != Sending {
        return true;
      }
      var m := messages[claim.message];
      m := m.(state := if r.outcome == Failed && r.retryAt.Some? then Pending else r.outcome);
      if r.retryAt.Some? { m := m.(due := r.retryAt.value); }
      if r.outcome == Sent { m := m.(sentAt := Some(at)); }
      messages := messages[claim.message := m];
      rows := rows + [AttemptRow(claim.message, claim.attempt, r.outcome, r.code)];
      return fault == Unanswered;
    }

    /** One row of the loop, with its two nested handlers. */
    method ProcessRow(c: nat, f: Facts, now: int) returns (deliveryFailed: bool)
      requires c < |claims| && !claims[c].started
      modifies this`messages, this`rows, this`claims, this`sends
      ensures (Now(), deliveryFailed) == Row(worker, old(Now()), c, f, now)
      ensures |claims| == |old(claims)| && claims[c + 1..] == old(claims[c + 1..])
    {
      deliveryFailed := false;
      var attempt, sendStarted, thrown := claims[c].attempt, false, false;
      if attempt > worker.max {
        thrown := CompleteRow(c, Report(Failed, Some(RetryLimit), None), now, f.first);
      } else if !f.required && !f.preference {
        thrown := CompleteRow(c, Report(Suppressed, None, None), now, f.first);
      } else if !worker.production {
        thrown := CompleteRow(c, Report(NotSent, Some(NonProduction), None), now, f.first);
      } else if !worker.configured {
        thrown := CompleteRow(c, Report(NotSent, Some(DeliveryNotConfigured), None), now, f.first);
      } else if f.address == "" {
        thrown := CompleteRow(c, Report(Failed, Some(AddressUnavailable), None), now, f.first);
      } else if !f.rendered {
        thrown := true;
      } else {
        sendStarted := true;
        sends, claims := sends + [(claims[c].message, attempt)], claims[c := claims[c].(started := true)];
        match f.port
        case OtherError => thrown := true;
        case Accepted => thrown := CompleteRow(c, Report(Sent, None, None), now, f.first);
        case Declined(code, safe) =>
          thrown := CompleteRow(c, Declining(worker, attempt, code, safe, now), now, f.first);
        case SendError(code, safe) =>
          thrown := CompleteRow(c, Declining(worker, attempt, code, safe, now), now, f.first);
          deliveryFailed := true;
      }
      if thrown {
        deliveryFailed := true;
        if !sendStarted { var ignored := CompleteRow(c, UNRENDERED, now, f.second); }
      }
    }

    /** The `n`-th claimed row, after those before it. */
    method ProcessNext(ghost start: State, first: nat, facts: seq<Facts>, now: int, n: nat, failedBefore: bool)
      returns (deliveryFailed: bool)
      requires n < |facts| && first + |facts| == |claims| == |start.claims|
      requires forall k :: first + n <= k < |claims| ==> !claims[k].started
      requires (Now(), failedBefore) == Rows(worker, start, first, facts, now, n)
      modifies this`messages, this`rows, this`claims, this`sends
      ensures (Now(), deliveryFailed) == Rows(worker, start, first, facts, now, n + 1)
      ensures |claims| == |old(claims)| && forall k :: first + n < k < |claims| ==> !claims[k].started
    {
      ghost var before := Now();
      var failed := ProcessRow(first + n, facts[n], now);
      RowsStep(worker, start, first, facts, now, n, (before, failedBefore), (Now(), failed));
      deliveryFailed := failedBefore || failed;
      assert forall k :: first + n < k < |claims| ==> claims[k] == claims[first + n + 1..][k - first - n - 1];
    }

    method ProcessRows(first: nat, facts: seq<Facts>, now: int) returns (deliveryFailed: bool)
      requires first + |facts| == |claims| && forall k :: first <= k < |claims| ==> !claims[k].started
      modifies this`messages, this`rows, this`claims, this`sends
      ensures (Now(), deliveryFailed) == Rows(worker, old(Now()), first, facts, now, |facts|)
    {
      deliveryFailed := false;
      for n := 0 to |facts|
        invariant |claims| == first + |facts| && forall k :: first + n <= k < |claims| ==> !claims[k].started
        invariant (Now(), deliveryFailed) == Rows(worker, old(Now()), first, facts, now, n)
      {
        deliveryFailed := ProcessNext(old(Now()), first, facts, now, n, deliveryFailed);
      }
    }

    /** A pass claims its rows, handles every one of them, and only then reports that some failed. */
    method ProcessDue(limit: nat, now: int, chosen: seq<nat>, facts: seq<Facts>) returns (deliveryFailed: bool)
      requires MayClaim(State(messages, rows, claims, sends), limit, now, chosen) && |facts| == |chosen|
      modifies this`messages, this`rows, this`claims, this`sends
      ensures var claimed := Next(worker.max, old(Now()), ClaimDue(limit, now, chosen));
              && |claimed.claims| == |old(claims)| + |facts|
              && (Now(), deliveryFailed) == Rows(worker, claimed, |old(claims)|, facts, now, |facts|)
    {
      var first := |claims|;
      ClaimsFollow(Now(), now, chosen, |chosen|);
      ClaimRowsDue(now, chosen);
      deliveryFailed := ProcessRows(first, facts, now);
    }
  }

  lemma RowsStep(w: Worker, s: State, first: nat, facts: seq<Facts>, now: int, n: nat, before: (State, bool),
        row: (State, bool))
    requires n < |facts| && first + |facts| <= |s.claims| && before == Rows(w, s, first, facts, now, n)
    requires row == Row(w, before.0, first + n, facts[n], now)
    ensures (row.0, before.1 || row.1) == Rows(w, s, first, facts, now, n + 1)
  {
  }

  lemma {:induction false} ClaimsFollow(s: State, now: int, chosen: seq<nat>, n: nat)
    requires n <= |chosen| && forall c :: 0 <= c < |chosen| ==> chosen[c] < |s.messages|
    ensures var t := ClaimRows(s, now, chosen, n);
            && |t.claims| == |s.claims| + n && s.claims <= t.claims
            && forall k :: |s.claims| <= k < |t.claims| ==> !t.claims[k].started
  {
    if n > 0 { ClaimsFollow(s, now, chosen, n - 1); }
  }

  // ---------------------------------------------------------------- what a row does

  ghost predicate IsPlay(max: nat, s: State, t: State) { exists steps :: Play(max, s, steps) == t }

  lemma TryIsPlay(max: nat, s: State, c: nat, r: Report, now: int, fault: Fault)
    ensures IsPlay(max, s, Try(max, s, c, r, now, fault).0)
  {
    var step := Complete(c, r, now);
    assert [step][..0] == [] && Play(max, s, []) == s;
    assert Play(max, s, [step]) == Next(max, s, step);
  }

  lemma {:induction false} PlayJoins(max: nat, s: State, a: seq<Step>, b: seq<Step>)
    ensures Play(max, s, a + b) == Play(max, Play(max, s, a), b)
    decreases |b|
  {
    if |b| == 0 {
      assert a + b == a;
    } else {
      PlayJoins(max, s, a, b[..|b| - 1]);
      assert (a + b)[..|a + b| - 1] == a + b[..|b| - 1];
    }
  }

  lemma PlaysJoin(max: nat, s: State, t: State, u: State)
    requires IsPlay(max, s, t) && IsPlay(max, t, u)
    ensures IsPlay(max, s, u)
  {
    var a :| Play(max, s, a) == t;
    var b :| Play(max, t, b) == u;
    PlayJoins(max, s, a, b);
  }

  lemma OneIsPlay(max: nat, s: State, step: Step)
    ensures IsPlay(max, s, Next(max, s, step))
  {
    assert [step][..0] == [] && Play(max, s, []) == s;
    assert Play(max, s, [step]) == Next(max, s, step);
  }

  /** Whatever it finds, a row is a play of the machine. */
  lemma RowIsPlay(w: Worker, s: State, c: nat, f: Facts, now: int)
    requires c < |s.claims|
    ensures IsPlay(w.max, s, Row(w, s, c, f, now).0)
  {
    match PlanFor(w, s.claims[c].attempt, f)
    case Close(report) =>
      var t := Try(w.max, s, c, report, now, f.first).0;
      TryIsPlay(w.max, s, c, report, now, f.first);
      TryIsPlay(w.max, t, c, UNRENDERED, now, f.second);
      PlaysJoin(w.max, s, t, Try(w.max, t, c, UNRENDERED, now, f.second).0);
    case Invalid => TryIsPlay(w.max, s, c, UNRENDERED, now, f.second);
    case SendIt =>
      var t := Next(w.max, s, Send(c));
      var report := match f.port
                    case Declined(code, safe) => Declining(w, s.claims[c].attempt, code, safe, now)
                    case SendError(code, safe) => Declining(w, s.claims[c].attempt, code, safe, now)
                    case _ => Report(Sent, None, None);
      OneIsPlay(w.max, s, Send(c));
      TryIsPlay(w.max, t, c, report, now, f.first);
      PlaysJoin(w.max, s, t, Try(w.max, t, c, report, now, f.first).0);
  }

  /** The last of the rows, played on from where the others left off. */
  lemma LastRowIsPlay(w: Worker, s: State, first: nat, facts: seq<Facts>, now: int, n: nat)
    requires 0 < n <= |facts| && first + |facts| <= |s.claims|
    ensures IsPlay(w.max, Rows(w, s, first, facts, now, n - 1).0, Rows(w, s, first, facts, now, n).0)
  {
    RowIsPlay(w, Rows(w, s, first, facts, now, n - 1).0, first + n - 1, facts[n - 1], now);
  }

  lemma NothingIsPlay(max: nat, s: State)
    ensures IsPlay(max, s, s)
  {
    assert Play(max, s, []) == s;
  }

  /** So is a whole pass, and the bound on sends holds of any number of passes. */
  lemma {:induction false} PassIsPlay(w: Worker, s: State, first: nat, facts: seq<Facts>, now: int, n: nat)
    requires n <= |facts| && first + |facts| <= |s.claims|
    ensures IsPlay(w.max, s, Rows(w, s, first, facts, now, n).0)
  {
    if n == 0 {
      NothingIsPlay(w.max, s);
    } else {
      PassIsPlay(w, s, first, facts, now, n - 1);
      LastRowIsPlay(w, s, first, facts, now, n);
      PlaysJoin(w.max, s, Rows(w, s, first, facts, now, n - 1).0, Rows(w, s, first, facts, now, n).0);
    }
  }

  /** A completion that is applied closes the row with its report, and a second one finds it closed. */
  lemma TryCloses(max: nat, s: State, c: nat, r: Report, now: int, fault: Fault)
    requires c < |s.claims| && Fenced(s, s.claims[c]) && fault != NotApplied
    requires Final(r.outcome) && (r.outcome == Sent ==> s.claims[c].started)
    ensures var t := Try(max, s, c, r, now, fault).0; var m := s.claims[c].message;
            && t.claims == s.claims && t.sends == s.sends && m < |t.messages|
            && t.messages[m] == Reported(s.messages[m], r, now)
            && forall again, other :: Try(max, t, c, again, now, other) == (t, false)
  {
  }

  lemma SendKeepsFence(max: nat, s: State, c: nat)
    requires c < |s.claims| && !s.claims[c].started && Fenced(s, s.claims[c]) && s.claims[c].attempt <= max
    ensures var t := Next(max, s, Send(c));
            && |t.claims| == |s.claims| && t.claims[c] == s.claims[c].(started := true) && t.messages == s.messages
            && Fenced(t, t.claims[c])
  {
  }

  lemma DecliningCloses(w: Worker, attempt: nat, code: Code, safe: bool, now: int, m: Message)
    ensures var r := Declining(w, attempt, code, safe, now); var closed := Reported(m, r, now).state;
            && r.outcome in {NotSent, Failed} && closed in {NotSent, Failed, Pending}
            && (closed == Pending ==> attempt < w.max && Reported(m, r, now).due == now + RetryDelay(attempt))
  {
  }

  /** How a held row may be left: see `RowCloses`. */
  predicate ClosedBy(w: Worker, attempt: nat, f: Facts, now: int, m: Message) {
    && (m.state == Sending <==> PlanFor(w, attempt, f).SendIt? && f.port.OtherError?)
    && (m.state == Pending ==> attempt < w.max && m.due == now + RetryDelay(attempt))
    && (m.state == Sent <==> PlanFor(w, attempt, f).SendIt? && f.port.Accepted?)
  }

  lemma SentRowCloses(w: Worker, s: State, c: nat, f: Facts, now: int)
    requires c < |s.claims| && !s.claims[c].started && Fenced(s, s.claims[c]) && f.first != NotApplied
    requires PlanFor(w, s.claims[c].attempt, f).SendIt?
    ensures ClosedBy(w, s.claims[c].attempt, f, now, Row(w, s, c, f, now).0.messages[s.claims[c].message])
  {
    var t, attempt, message := Next(w.max, s, Send(c)), s.claims[c].attempt, s.messages[s.claims[c].message];
    SendKeepsFence(w.max, s, c);
    match f.port
    case OtherError =>
    case Accepted => TryCloses(w.max, t, c, Report(Sent, None, None), now, f.first);
    case Declined(code, safe) =>
      DecliningCloses(w, attempt, code, safe, now, message);
      TryCloses(w.max, t, c, Declining(w, attempt, code, safe, now), now, f.first);
    case SendError(code, safe) =>
      DecliningCloses(w, attempt, code, safe, now, message);
      TryCloses(w.max, t, c, Declining(w, attempt, code, safe, now), now, f.first);
  }

  lemma UnsentRowCloses(w: Worker, s: State, c: nat, f: Facts, now: int)
    requires c < |s.claims| && Fenced(s, s.claims[c]) && f.first != NotApplied && f.second != NotApplied
    requires !PlanFor(w, s.claims[c].attempt, f).SendIt?
    ensures var m := Row(w, s, c, f, now).0.messages[s.claims[c].message];
            && ClosedBy(w, s.claims[c].attempt, f, now, m)
            && (s.claims[c].attempt > w.max ==> m.state == Failed && Row(w, s, c, f, now).0.sends == s.sends)
  {
    var plan := PlanFor(w, s.claims[c].attempt, f);
    if plan.Close? {
      TryCloses(w.max, s, c, plan.report, now, f.first);
    } else {
      TryCloses(w.max, s, c, UNRENDERED, now, f.second);
    }
  }

  /**
   * A row still held by this claim, whose completions are applied, answered or not, is left in
   * `sending` only if the port broke after its send began; it goes back to pending only below the
   * limit, after the backoff.
   */
  lemma RowCloses(w: Worker, s: State, c: nat, f: Facts, now: int)
    requires c < |s.claims| && !s.claims[c].started && Fenced(s, s.claims[c])
    requires f.first != NotApplied && f.second != NotApplied
    ensures var claim := s.claims[c]; var m := Row(w, s, c, f, now).0.messages[claim.message];
            && (m.state == Sending <==> PlanFor(w, claim.attempt, f).SendIt? && f.port.OtherError?)
            && (m.state == Pending ==> claim.attempt < w.max && m.due == now + RetryDelay(claim.attempt))
            && (m.state == Sent <==> PlanFor(w, claim.attempt, f).SendIt? && f.port.Accepted?)
            && (claim.attempt > w.max ==> m.state == Failed && Row(w, s, c, f, now).0.sends == s.sends)
  {
    if PlanFor(w, s.claims[c].attempt, f).SendIt? {
      SentRowCloses(w, s, c, f, now);
    } else {
      UnsentRowCloses(w, s, c, f, now);
    }
  }

  // ---------------------------------------------------------------- what a row reports

  /** `t` is `s` with the claim's message closed like this, and one attempt row that says so. */
  predicate Reports(s: State, c: nat, t: State, outcome: MessageState, code: Option<Code>, retryAt: Option<int>,
                    now: int)
    requires c < |s.claims| && Fenced(s, s.claims[c])
  {
    var id, attempt := s.claims[c].message, s.claims[c].attempt;
    && t.rows == s.rows + [AttemptRow(id, attempt, outcome, code)]
    && t.messages == s.messages[id := Message(
         if retryAt.Some? then Pending else outcome, attempt,
         if retryAt.Some? then retryAt.value else s.messages[id].due,
         if outcome == Sent then Some(now) else s.messages[id].sentAt)]
  }

  /** Nothing was reported. */
  predicate Silent(s: State, t: State) { t.rows == s.rows && t.messages == s.messages }

  lemma TryReports(max: nat, s: State, c: nat, r: Report, now: int, fault: Fault)
    requires c < |s.claims| && Fenced(s, s.claims[c]) && Final(r.outcome) && (r.outcome == Sent ==> s.claims[c].started)
    requires r.retryAt.Some? ==> r.outcome == Failed
    ensures var (t, ok) := Try(max, s, c, r, now, fault);
            && (ok <==> fault == NoFault) && t.sends == s.sends && t.claims == s.claims
            && if fault == NotApplied then t == s else Reports(s, c, t, r.outcome, r.code, r.retryAt, now)
  {
  }

  /** The row is one to send. */
  predicate ToSend(w: Worker, attempt: nat, f: Facts) {
    && attempt <= w.max && (f.required || f.preference) && w.production && w.configured && f.address != "" && f.rendered
  }

  /** Why a row is not sent: the first of these reasons. */
  predicate Unsendable(w: Worker, attempt: nat, f: Facts, outcome: MessageState, code: Option<Code>) {
    var wanted := f.required || f.preference;
    && (attempt > w.max ==> outcome == Failed && code == Some(RetryLimit))
    && (attempt <= w.max && !wanted ==> outcome == Suppressed && code == None)
    && (attempt <= w.max && wanted && !w.production ==> outcome == NotSent && code == Some(NonProduction))
    && (attempt <= w.max && wanted && w.production && !w.configured ==>
          outcome == NotSent && code == Some(DeliveryNotConfigured))
    && (attempt <= w.max && wanted && w.production && w.configured && f.address == "" ==>
          outcome == Failed && code == Some(AddressUnavailable))
    && (attempt <= w.max && wanted && w.production && w.configured && f.address != "" && !f.rendered ==>
          outcome == Failed && code == None)
  }

  /** A row that is not sent is closed for its reason; if that completion fails, as failed without a code. */
  lemma UnsentRowReports(w: Worker, s: State, c: nat, f: Facts, now: int)
    returns (outcome: MessageState, code: Option<Code>)
    requires c < |s.claims| && Fenced(s, s.claims[c]) && !ToSend(w, s.claims[c].attempt, f)
    ensures Unsendable(w, s.claims[c].attempt, f, outcome, code)
    ensures var (t, failed) := Row(w, s, c, f, now); var rendering := outcome == Failed && code == None;
            && t.sends == s.sends
            && (if !rendering && f.first != NotApplied then Reports(s, c, t, outcome, code, None, now)
                else if f.second != NotApplied then Reports(s, c, t, Failed, None, None, now)
                else Silent(s, t))
            && (failed <==> rendering || f.first != NoFault)
  {
    var plan := PlanFor(w, s.claims[c].attempt, f);
    if plan.Close? {
      outcome, code := plan.report.outcome, plan.report.code;
      TryReports(w.max, s, c, plan.report, now, f.first);
      if f.first == NotApplied {
        TryReports(w.max, s, c, UNRENDERED, now, f.second);
      } else {
        TryCloses(w.max, s, c, plan.report, now, f.first);
      }
    } else {
      outcome, code := Failed, None;
      TryReports(w.max, s, c, UNRENDERED, now, f.second);
    }
  }

  /** What the port declined, or refused by its own error. */
  predicate IsDecline(port: PortAnswer, code: Code, safe: bool) {
    port in {Declined(code, safe), SendError(code, safe)}
  }

  lemma DecliningReports(w: Worker, attempt: nat, code: Code, safe: bool, now: int)
    ensures var r := Declining(w, attempt, code, safe, now);
            && (code == DeliveryNotConfigured ==> r == Report(NotSent, Some(DeliveryNotConfigured), None))
            && (code != DeliveryNotConfigured ==>
                  && r.outcome == Failed
                  && (r.retryAt == if safe && attempt < w.max then Some(now + RetryDelay(attempt)) else None)
                  && (r.code == if attempt >= w.max then Some(RetryLimit) else Some(code)))
  {
  }

  /** A row that is sent is sent once, under its own number, and closed by what the port answered. */
  lemma SentRowReports(w: Worker, s: State, c: nat, f: Facts, now: int)
    requires c < |s.claims| && !s.claims[c].started && Fenced(s, s.claims[c]) && ToSend(w, s.claims[c].attempt, f)
    ensures var (t, failed) := Row(w, s, c, f, now); var attempt := s.claims[c].attempt;
            && t.sends == s.sends + [(s.claims[c].message, attempt)]
            && (f.port.OtherError? || f.first == NotApplied ==> Silent(s, t))
            && (f.port.Accepted? && f.first != NotApplied ==> Reports(s, c, t, Sent, None, None, now))
            && (failed <==> f.port.OtherError? || f.port.SendError? || f.first != NoFault)
            && (forall code, safe :: IsDecline(f.port, code, safe) && f.first != NotApplied ==>
                  if code == DeliveryNotConfigured then Reports(s, c, t, NotSent, Some(code), None, now)
                  else Reports(s, c, t, Failed, Some(if attempt >= w.max then RetryLimit else code),
                               if safe && attempt < w.max then Some(now + RetryDelay(attempt)) else None, now))
  {
    var t, attempt := Next(w.max, s, Send(c)), s.claims[c].attempt;
    SendKeepsFence(w.max, s, c);
    match f.port
    case OtherError =>
    case Accepted => TryReports(w.max, t, c, Report(Sent, None, None), now, f.first);
    case Declined(code, safe) =>
      DecliningReports(w, attempt, code, safe, now);
      TryReports(w.max, t, c, Declining(w, attempt, code, safe, now), now, f.first);
    case SendError(code, safe) =>
      DecliningReports(w, attempt, code, safe, now);
      TryReports(w.max, t, c, Declining(w, attempt, code, safe, now), now, f.first);
  }

  /** The wait before a retry: a second after the first attempt, doubling, an hour at the most. */
  lemma {:induction false} RetryDelayDoubles(attempt: nat)
    ensures RetryDelay(1) == 1000
    ensures RetryDelay(attempt + 1) ==
            if 2 * RetryDelay(attempt) < 3_600_000 then 2 * RetryDelay(attempt) else 3_600_000
  {
    assert PowerOfTwo(0) == 1;
    if attempt > 0 { assert PowerOfTwo(attempt) == 2 * PowerOfTwo(attempt - 1); }
  }

  /** Row `k` of a pass fails, met in the state that the rows before it left. */
  predicate FailsAt(w: Worker, s: State, first: nat, facts: seq<Facts>, now: int, k: nat) {
    k < |facts| && first + |facts| <= |s.claims|
    && Row(w, Rows(w, s, first, facts, now, k).0, first + k, facts[k], now).1
  }

  lemma RowsFailOn(w: Worker, s: State, first: nat, facts: seq<Facts>, now: int, k: nat)
    requires k < |facts| && first + |facts| <= |s.claims|
    ensures Rows(w, s, first, facts, now, k + 1).1 <==>
            Rows(w, s, first, facts, now, k).1 || FailsAt(w, s, first, facts, now, k)
  {
  }

  lemma {:induction false} AnyUpTo(failed: nat -> bool, fails: nat -> bool, n: nat)
    requires !failed(0) && forall k: nat :: k < n ==> (failed(k + 1) <==> failed(k) || fails(k))
    ensures failed(n) <==> exists k: nat :: k < n && fails(k)
  {
    if n > 0 { AnyUpTo(failed, fails, n - 1); }
  }

  lemma AnyRow(w: Worker, s: State, first: nat, facts: seq<Facts>, now: int, failed: nat -> bool, fails: nat -> bool)
    requires first + |facts| <= |s.claims|
    requires forall k: nat :: failed(k) <==> k <= |facts| && Rows(w, s, first, facts, now, k).1
    requires forall k: nat :: fails(k) <==> FailsAt(w, s, first, facts, now, k)
    ensures failed(|facts|) <==> exists k: nat :: k < |facts| && fails(k)
  {
    forall k: nat | k < |facts| ensures failed(k + 1) <==> failed(k) || fails(k) {
      RowsFailOn(w, s, first, facts, now, k);
    }
    AnyUpTo(failed, fails, |facts|);
  }

  /** A pass fails exactly if one of its rows does. */
  lemma PassFailsIff(w: Worker, s: State, first: nat, facts: seq<Facts>, now: int)
    requires first + |facts| <= |s.claims|
    ensures Rows(w, s, first, facts, now, |facts|).1 <==> exists k: nat :: FailsAt(w, s, first, facts, now, k)
  {
    var failed := (k: nat) => k <= |facts| && Rows(w, s, first, facts, now, k).1;
    var fails := (k: nat) => FailsAt(w, s, first, facts, now, k);
    AnyRow(w, s, first, facts, now, failed, fails);
    assert failed(|facts|) <==> exists k: nat :: k < |facts| && fails(k);
  }

  /** Rows do not touch each other's messages: one that fails holds nobody back. */
  lemma RowLeavesOthers(w: Worker, s: State, c: nat, f: Facts, now: int, m: nat)
    requires c < |s.claims| && m < |s.messages| && m != s.claims[c].message
    ensures m < |Row(w, s, c, f, now).0.messages| && Row(w, s, c, f, now).0.messages[m] == s.messages[m]
  {
  }
}
