/**
 * The email outbox: any number of workers that claim due messages, send them, report back, crash or
 * report too late. A claim is one handing out of a message under one attempt number.
 */
module EmailOutbox {
  import opened Options

  const CLAIM_LEASE_MS := 900_000

  datatype MessageState = Pending | Sending | Sent | Failed | NotSent | Suppressed

  datatype Message = Message(state: MessageState, attempts: nat, due: int, sentAt: Option<int>)

  datatype Code = DeliveryNotConfigured | NonProduction | AddressUnavailable | ProviderRejected | ProviderTimeout
      | RetryLimit

  /** What a worker reports: a final state, its failure code, and when to retry. */
  datatype Report = Report(outcome: MessageState, code: Option<Code>, retryAt: Option<int>)

  datatype AttemptRow = AttemptRow(message: nat, attempt: nat, outcome: MessageState, code: Option<Code>)

  datatype Claim = Claim(message: nat, attempt: nat, started: bool)

  /** `claims` and `sends` are history: every handing out, and every call of the port. */
  datatype State = State(messages: seq<Message>, rows: seq<AttemptRow>, claims: seq<Claim>, sends: seq<(nat, nat)>)

  datatype Step =
    | Enqueue(due: int)
    | ClaimDue(limit: nat, now: int, chosen: seq<nat>)   // which due rows: whatever other workers have not locked
    | Send(claim: nat)
    | Complete(claim: nat, report: Report, at: int)

  predicate Final(state: MessageState) { state !in {Pending, Sending} }

  predicate Due(m: Message, now: int) { m.state in {Pending, Sending} && m.due <= now }

  predicate Distinct(chosen: seq<nat>) { forall a, b :: 0 <= a < b < |chosen| ==> chosen[a] != chosen[b] }

  predicate MayClaim(s: State, limit: nat, now: int, chosen: seq<nat>) {
    && |chosen| <= limit && Distinct(chosen)
    && forall c :: 0 <= c < |chosen| ==> chosen[c] < |s.messages| && Due(s.messages[chosen[c]], now)
  }

  function Claimed(m: Message, now: int): Message
  {
    m.(state := Sending, attempts := m.attempts + 1, due := now + CLAIM_LEASE_MS)
  }

  /** The first `n` chosen rows handed out. */
  function ClaimRows(s: State, now: int, chosen: seq<nat>, n: nat): State
    requires n <= |chosen| && forall c :: 0 <= c < |chosen| ==> chosen[c] < |s.messages|
    ensures |ClaimRows(s, now, chosen, n).messages| == |s.messages|
    ensures |ClaimRows(s, now, chosen, n).claims| == |s.claims| + n
  {
    if n == 0 then s
    else
      var before, id := ClaimRows(s, now, chosen, n - 1), chosen[n - 1];
      var m := Claimed(before.messages[id], now);
      before.(messages := before.messages[id := m], claims := before.claims + [Claim(id, m.attempts, false)])
  }

  /** The update matches only the row still held under this attempt number. */
  predicate Fenced(s: State, claim: Claim) {
    claim.message < |s.messages| && s.messages[claim.message].attempts == claim.attempt
    && s.messages[claim.message].state == Sending
  }

  function Reported(m: Message, r: Report, at: int): Message {
    m.(state := if r.outcome == Failed && r.retryAt.Some? then Pending else r.outcome,
       due := if r.retryAt.Some? then r.retryAt.value else m.due,
       sentAt := if r.outcome == Sent then Some(at) else m.sentAt)
  }

  /** `complete`: both the message and the attempt row, or nothing. */
  function Completed(s: State, claim: Claim, r: Report, at: int): State {
    if Fenced(s, claim) then
      s.(messages := s.messages[claim.message := Reported(s.messages[claim.message], r, at)],
         rows := s.rows + [AttemptRow(claim.message, claim.attempt, r.outcome, r.code)])
    else s
  }

  /** Only a worker inside its limit sends, once per claim; only a send is reported as sent. */
  function Next(max: nat, s: State, step: Step): State {
    match step
    case Enqueue(due) => s.(messages := s.messages + [Message(Pending, 0, due, None)])
    case ClaimDue(limit, now, chosen) => if MayClaim(s, limit, now, chosen) then ClaimRows(s, now, chosen, |chosen|)
      else s
    case Send(c) =>
      if c < |s.claims| && !s.claims[c].started && s.claims[c].attempt <= max then
        s.(claims := s.claims[c := s.claims[c].(started := true)],
           sends := s.sends + [(s.claims[c].message, s.claims[c].attempt)])
      else s
    case Complete(c, r, at) =>
      if c < |s.claims| && Final(r.outcome) && (r.outcome == Sent ==> s.claims[c].started) then
        Completed(s, s.claims[c], r, at)
      else s
  }

  function Play(max: nat, s: State, steps: seq<Step>): State {
    if |steps| == 0 then s else Next(max, Play(max, s, steps[..|steps| - 1]), steps[|steps| - 1])
  }

  // ---------------------------------------------------------------- what every step keeps

  predicate SameClaim(a: Claim, b: Claim) { a.message == b.message && a.attempt == b.attempt }

  predicate ClaimsOk(s: State) {
    && (forall c :: 0 <= c < |s.claims| ==>
            s.claims[c].message < |s.messages| && 1 <= s.claims[c].attempt <= s.messages[s.claims[c].message].attempts)
    && (forall a, b :: 0 <= a < b < |s.claims| ==> !SameClaim(s.claims[a], s.claims[b]))
  }

  /** Sends are exactly the started claims', each within the limit. */
  ghost predicate SendsOk(max: nat, s: State) {
    && (forall k :: 0 <= k < |s.sends| ==> s.sends[k].1 <= max && StartedClaim(s, s.sends[k]))
    && (forall a, b :: 0 <= a < b < |s.sends| ==> s.sends[a] != s.sends[b])
  }

  ghost predicate StartedClaim(s: State, send: (nat, nat)) { Claim(send.0, send.1, true) in s.claims }

  ghost predicate RowsOk(s: State) {
    && (forall k :: 0 <= k < |s.rows| ==> RowOk(s, s.rows[k]))
    && (forall a, b :: 0 <= a < b < |s.rows| ==>
            (s.rows[a].message, s.rows[a].attempt) != (s.rows[b].message, s.rows[b].attempt))
  }

  /** The attempt is over: handed out again since, or the message no longer being sent. */
  ghost predicate RowOk(s: State, row: AttemptRow) {
    && row.message < |s.messages|
    && (row.attempt < s.messages[row.message].attempts
        || (row.attempt == s.messages[row.message].attempts && s.messages[row.message].state != Sending))
    && (row.outcome == Sent ==> (row.message, row.attempt) in s.sends)
  }

  ghost predicate StartedSent(s: State) {
    forall c :: 0 <= c < |s.claims| && s.claims[c].started ==> (s.claims[c].message, s.claims[c].attempt) in s.sends
  }

  ghost predicate Valid(max: nat, s: State) { ClaimsOk(s) && SendsOk(max, s) && RowsOk(s) && StartedSent(s) }

  /** Handing one row out opens a new attempt number. */
  lemma ClaimOneKeeps(max: nat, s: State, next: State, id: nat, now: int)
    requires Valid(max, s) && id < |s.messages|
    requires next == s.(messages := s.messages[id := Claimed(s.messages[id], now)],
                        claims := s.claims + [Claim(id, s.messages[id].attempts + 1, false)])
    ensures Valid(max, next)
  {
    forall k | 0 <= k < |next.rows| ensures RowOk(next, next.rows[k]) { assert RowOk(s, s.rows[k]); }
    forall k | 0 <= k < |next.sends| ensures StartedClaim(next, next.sends[k]) { assert StartedClaim(s, s.sends[k]); }
    forall a, b | 0 <= a < b < |next.claims| ensures !SameClaim(next.claims[a], next.claims[b]) {
      assert s.claims[a].message < |s.messages|;
      if b < |s.claims| { assert !SameClaim(s.claims[a], s.claims[b]); }
    }
  }

  lemma {:induction false} ClaimKeeps(max: nat, s: State, now: int, chosen: seq<nat>, n: nat)
    requires Valid(max, s) && n <= |chosen| && forall c :: 0 <= c < |chosen| ==> chosen[c] < |s.messages|
    ensures Valid(max, ClaimRows(s, now, chosen, n))
  {
    if n > 0 {
      ClaimKeeps(max, s, now, chosen, n - 1);
      ClaimOneKeeps(max, ClaimRows(s, now, chosen, n - 1), ClaimRows(s, now, chosen, n), chosen[n - 1], now);
    }
  }

  lemma SendKeeps(max: nat, s: State, next: State, c: nat)
    requires Valid(max, s) && c < |s.claims| && !s.claims[c].started && s.claims[c].attempt <= max
    requires next == s.(claims := s.claims[c := s.claims[c].(started := true)],
                        sends := s.sends + [(s.claims[c].message, s.claims[c].attempt)])
    ensures Valid(max, next)
  {
    var send := (s.claims[c].message, s.claims[c].attempt);
    assert next.claims[c] == Claim(send.0, send.1, true);
    assert next.sends[|s.sends|] == send;
    forall k | 0 <= k < |s.sends| ensures s.sends[k] != send && StartedClaim(next, s.sends[k]) {
      assert StartedClaim(s, s.sends[k]);
      var a :| 0 <= a < |s.claims| && s.claims[a] == Claim(s.sends[k].0, s.sends[k].1, true);
      assert next.claims[a] == s.claims[a];
      assert a < c ==> !SameClaim(s.claims[a], s.claims[c]);
      assert c < a ==> !SameClaim(s.claims[c], s.claims[a]);
    }
    forall k | 0 <= k < |next.sends| ensures StartedClaim(next, next.sends[k]) && next.sends[k].1 <= max {}
    forall k | 0 <= k < |next.rows| ensures RowOk(next, next.rows[k]) { assert RowOk(s, s.rows[k]); }
    forall a, b | 0 <= a < b < |next.claims| ensures !SameClaim(next.claims[a], next.claims[b]) {
      assert !SameClaim(s.claims[a], s.claims[b]);
    }
    forall a | 0 <= a < |next.claims| && next.claims[a].started
      ensures (next.claims[a].message, next.claims[a].attempt) in next.sends
    {
      if a != c { assert (s.claims[a].message, s.claims[a].attempt) in s.sends; }
    }
  }

  lemma CompleteKeeps(max: nat, s: State, next: State, c: nat, r: Report, at: int)
    requires Valid(max, s) && c < |s.claims| && Final(r.outcome) && (r.outcome == Sent ==> s.claims[c].started)
    requires Fenced(s, s.claims[c]) && next == Completed(s, s.claims[c], r, at)
    ensures Valid(max, next)
  {
    var claim := s.claims[c];
    forall k | 0 <= k < |s.rows|
      ensures RowOk(next, s.rows[k]) && (s.rows[k].message, s.rows[k].attempt) != (claim.message, claim.attempt)
    {
      assert RowOk(s, s.rows[k]);
    }
    forall k | 0 <= k < |next.rows| ensures RowOk(next, next.rows[k]) {
      if k == |s.rows| { assert next.rows[k] == AttemptRow(claim.message, claim.attempt, r.outcome, r.code); }
    }
    forall k | 0 <= k < |next.sends| ensures StartedClaim(next, next.sends[k]) { assert StartedClaim(s, s.sends[k]); }
  }

  lemma EnqueueKeeps(max: nat, s: State, next: State, m: Message)
    requires Valid(max, s) && next == s.(messages := s.messages + [m])
    ensures Valid(max, next)
  {
    forall k | 0 <= k < |next.rows| ensures RowOk(next, next.rows[k]) { assert RowOk(s, s.rows[k]); }
    forall k | 0 <= k < |next.sends| ensures StartedClaim(next, next.sends[k]) { assert StartedClaim(s, s.sends[k]); }
  }

  lemma NextKeepsValid(max: nat, s: State, step: Step)
    requires Valid(max, s)
    ensures Valid(max, Next(max, s, step))
  {
    var next := Next(max, s, step);
    if next != s {
      match step
      case Enqueue(due) => EnqueueKeeps(max, s, next, Message(Pending, 0, due, None));
      case ClaimDue(_, now, chosen) => ClaimKeeps(max, s, now, chosen, |chosen|);
      case Send(c) => SendKeeps(max, s, next, c);
      case Complete(c, r, at) => CompleteKeeps(max, s, next, c, r, at);
    }
  }

  function Init(): State { State([], [], [], []) }

  lemma {:induction false} PlayValid(max: nat, steps: seq<Step>)
    ensures Valid(max, Play(max, Init(), steps))
    decreases |steps|
  {
    if |steps| > 0 {
      PlayValid(max, steps[..|steps| - 1]);
      NextKeepsValid(max, Play(max, Init(), steps[..|steps| - 1]), steps[|steps| - 1]);
    }
  }

  // ---------------------------------------------------------------- whole runs

  /** The attempt numbers under which a message was handed to the port, and how often it was. */
  function SentUnder(sends: seq<(nat, nat)>, message: nat): set<nat>
  {
    set k | 0 <= k < |sends| && sends[k].0 == message :: sends[k].1
  }

  function SendCount(sends: seq<(nat, nat)>, message: nat): nat {
    if |sends| == 0 then 0
    else SendCount(sends[..|sends| - 1], message) + if sends[|sends| - 1].0 == message then 1 else 0
  }

  lemma {:induction false} CountIsAttempts(sends: seq<(nat, nat)>, message: nat)
    requires forall a, b :: 0 <= a < b < |sends| ==> sends[a] != sends[b]
    ensures SendCount(sends, message) == |SentUnder(sends, message)|
    decreases |sends|
  {
    if |sends| > 0 {
      var rest, last := sends[..|sends| - 1], sends[|sends| - 1];
      CountIsAttempts(rest, message);
      if last.0 == message {
        assert SentUnder(sends, message) == SentUnder(rest, message) + {last.1} by {
          assert sends[|sends| - 1] == last;
          forall k | 0 <= k < |rest| ensures rest[k] == sends[k] {}
        }
        assert last.1 !in SentUnder(rest, message);
      } else {
        assert SentUnder(sends, message) == SentUnder(rest, message) by {
          forall k | 0 <= k < |rest| ensures rest[k] == sends[k] {}
        }
      }
    }
  }

  lemma {:induction false} NumbersUpTo(n: nat, ks: set<nat>)
    requires forall k :: k in ks ==> 1 <= k <= n
    ensures |ks| <= n
  {
    if n > 0 {
      NumbersUpTo(n - 1, ks - {n});
      assert |ks| <= |ks - {n}| + 1 by {
        if n in ks { assert ks == (ks - {n}) + {n}; } else { assert ks == ks - {n}; }
      }
    } else {
      assert ks == {} by { if k :| k in ks { assert false; } }
    }
  }

  /** However many workers, crashes and lapsed claims: at most `max` sends, each under its own attempt number. */
  lemma SendsAreBounded(max: nat, steps: seq<Step>, message: nat)
    ensures var s := Play(max, Init(), steps);
            && SendCount(s.sends, message) == |SentUnder(s.sends, message)| <= max
            && forall n :: n in SentUnder(s.sends, message) ==> 1 <= n <= max
  {
    PlayValid(max, steps);
    var s := Play(max, Init(), steps);
    CountIsAttempts(s.sends, message);
    forall n | n in SentUnder(s.sends, message) ensures 1 <= n <= max {
      var k :| 0 <= k < |s.sends| && s.sends[k].0 == message && s.sends[k].1 == n;
      assert StartedClaim(s, s.sends[k]);
    }
    NumbersUpTo(max, SentUnder(s.sends, message));
  }

  /** One attempt row per attempt number, so the insert never meets its key; a row says sent only after a send. */
  lemma AttemptRowsAreUnique(max: nat, steps: seq<Step>)
    ensures var s := Play(max, Init(), steps);
            && (forall a, b :: 0 <= a < b < |s.rows| ==>
                    (s.rows[a].message, s.rows[a].attempt) != (s.rows[b].message, s.rows[b].attempt))
            && (forall k :: 0 <= k < |s.rows| && s.rows[k].outcome == Sent ==>
                    (s.rows[k].message, s.rows[k].attempt) in s.sends)
  {
    PlayValid(max, steps);
    var s := Play(max, Init(), steps);
    forall k | 0 <= k < |s.rows| ensures RowOk(s, s.rows[k]) {}
  }

  lemma {:induction false} ClaimsLeaveOthers(s: State, now: int, chosen: seq<nat>, n: nat, m: nat)
    requires n <= |chosen| && forall c :: 0 <= c < |chosen| ==> chosen[c] < |s.messages|
    requires m < |s.messages| && m !in chosen
    ensures ClaimRows(s, now, chosen, n).messages[m] == s.messages[m]
  {
    if n > 0 { ClaimsLeaveOthers(s, now, chosen, n - 1, m); }
  }

  lemma {:induction false} ClaimMeans(s: State, now: int, chosen: seq<nat>, n: nat, m: nat)
    requires n <= |chosen| && Distinct(chosen) && m < |s.messages|
    requires forall c :: 0 <= c < |chosen| ==> chosen[c] < |s.messages|
    ensures var t, was := ClaimRows(s, now, chosen, n), s.messages[m];
            && (t.messages[m] == if m in chosen[..n] then Message(Sending, was.attempts + 1, now + 900_000, was.sentAt)
                                 else was)
            && t.rows == s.rows && t.sends == s.sends && s.claims <= t.claims
            && forall k :: 0 <= k < n ==>
                 t.claims[|s.claims| + k] == Claim(chosen[k], s.messages[chosen[k]].attempts + 1, false)
  {
    if n > 0 {
      ClaimMeans(s, now, chosen, n - 1, m);
      ClaimMeans(s, now, chosen, n - 1, chosen[n - 1]);
      assert chosen[..n] == chosen[..n - 1] + [chosen[n - 1]];
      assert chosen[n - 1] !in chosen[..n - 1];
    }
  }

  /** Enqueueing adds one message that nobody has tried, to be claimed from its time on. */
  lemma EnqueuedRow(max: nat, s: State, due: int, now: int)
    ensures var t := Next(max, s, Enqueue(due)); var m := |s.messages|;
            && |t.messages| == m + 1 && t.messages[..m] == s.messages && t.claims == s.claims && t.sends == s.sends
            && t.messages[m].attempts == 0 && t.messages[m].sentAt == None
            && (MayClaim(t, 1, now, [m]) <==> due <= now)
  {
    var t, m := Next(max, s, Enqueue(due)), |s.messages|;
    assert [m][0] == m && (MayClaim(t, 1, now, [m]) ==> Due(t.messages[[m][0]], now));
  }

  /** Claiming hands out the chosen rows, each under its next number, and keeps them from others for 15 minutes. */
  lemma ClaimedRows(max: nat, s: State, limit: nat, now: int, chosen: seq<nat>, m: nat, later: int)
    requires MayClaim(s, limit, now, chosen) && m < |s.messages|
    ensures var t := Next(max, s, ClaimDue(limit, now, chosen));
            && t.claims == s.claims + seq(|chosen|, k requires 0 <= k < |chosen| =>
                             Claim(chosen[k], s.messages[chosen[k]].attempts + 1, false))
            && (m !in chosen ==> t.messages[m] == s.messages[m])
            && (m in chosen ==> (Due(t.messages[m], later) <==> later >= now + 900_000))
  {
    ClaimMeans(s, now, chosen, |chosen|, m);
    assert chosen[..|chosen|] == chosen;
  }

  /** Once sent, failed, not sent or suppressed, a message never changes again. */
  lemma {:induction false} FinalIsNeverLeft(max: nat, s: State, steps: seq<Step>, m: nat)
    requires m < |s.messages| && Final(s.messages[m].state)
    ensures m < |Play(max, s, steps).messages| && Play(max, s, steps).messages[m] == s.messages[m]
    decreases |steps|
  {
    if |steps| > 0 {
      var before, step := Play(max, s, steps[..|steps| - 1]), steps[|steps| - 1];
      FinalIsNeverLeft(max, s, steps[..|steps| - 1], m);
      if step.ClaimDue? && MayClaim(before, step.limit, step.now, step.chosen) {
        ClaimsLeaveOthers(before, step.now, step.chosen, |step.chosen|, m);
      }
    }
  }
}
