/**
 * An organization's account manager and its history. A commit holds the organization's lock, so the
 * commits for one organization happen one after another; the token index spans all of them.
 */
module AccountManager {
  import opened Options

  type OrgId = string
  type PrincipalId = string

  datatype Event = Event(org: OrgId, from: Option<PrincipalId>, to: Option<PrincipalId>, receipt: string)

  /** An audit row with the digest of the spent token, written as the token itself. */
  datatype Audit = Audit(org: OrgId, token: string, receipt: string)

  datatype State = State(managers: map<OrgId, PrincipalId>, events: seq<Event>, audits: seq<Audit>)

  /** `value` "none" clears the manager. */
  datatype Input = Input(org: OrgId, value: string, expected: Option<PrincipalId>, token: string, receipt: string)

  /** What the injected decisions say, and whether the named principal has a row. */
  datatype Facts = Facts(live: bool, allowed: bool, agrees: (Option<PrincipalId>, Option<PrincipalId>) -> bool,
      eligible: bool, known: bool)

  datatype Outcome = Done | NotOwnRecord | TokenAlreadyUsed | StateChanged | Thrown

  const NONE := "none"

  function ManagerOf(managers: map<OrgId, PrincipalId>, org: OrgId): Option<PrincipalId> {
    if org in managers then Some(managers[org]) else None
  }

  function Wanted(input: Input): Option<PrincipalId> { if input.value == NONE then None else Some(input.value) }

  predicate TokenUsed(audits: seq<Audit>, token: string) { exists k :: 0 <= k < |audits| && audits[k].token == token }

  predicate ReceiptUsed(st: State, receipt: string) {
    || (exists k :: 0 <= k < |st.audits| && st.audits[k].receipt == receipt)
    || (exists k :: 0 <= k < |st.events| && st.events[k].receipt == receipt)
  }

  /** The reason a commit is refused, or None. */
  function Refusal(st: State, input: Input, f: Facts): Option<Outcome> {
    if !f.live || !f.allowed then Some(NotOwnRecord)
    else if TokenUsed(st.audits, input.token) then Some(TokenAlreadyUsed)
    else if !f.agrees(ManagerOf(st.managers, input.org), input.expected) then Some(StateChanged)
    else if input.value != NONE && !f.eligible then Some(StateChanged)
    else if input.value != NONE && !f.known then Some(Thrown)
    else if ReceiptUsed(st, input.receipt) then Some(TokenAlreadyUsed)
    else None
  }

  function WithManager(managers: map<OrgId, PrincipalId>, org: OrgId,
        manager: Option<PrincipalId>): map<OrgId, PrincipalId> {
    if manager.None? then managers - {org} else managers[org := manager.value]
  }

  function Committed(st: State, input: Input, f: Facts): (State, Outcome) {
    var refusal := Refusal(st, input, f);
    if refusal.Some? then (st, refusal.value)
    else
      var current, next := ManagerOf(st.managers, input.org), Wanted(input);
      (State(WithManager(st.managers, input.org, next),
             if current != next then st.events + [Event(input.org, current, next, input.receipt)] else st.events,
             st.audits + [Audit(input.org, input.token, input.receipt)]), Done)
  }

  class Store {
    var managers: map<OrgId, PrincipalId>
    var events: seq<Event>
    var audits: seq<Audit>

    constructor ()
      ensures Now() == State(map[], [], [])
    {
      managers, events, audits := map[], [], [];
    }

    ghost function Now(): State
      reads this
    {
      State(managers, events, audits)
    }

    method Used(token: string) returns (used: bool)
      ensures used <==> TokenUsed(audits, token)
    {
      for k := 0 to |audits|
        invariant forall j :: 0 <= j < k ==> audits[j].token != token
      {
        if audits[k].token == token { return true; }
      }
      return false;
    }

    method Commit(input: Input, f: Facts) returns (outcome: Outcome)
      modifies this
      ensures (Now(), outcome) == Committed(old(Now()), input, f)
    {
      if !f.live { return NotOwnRecord; }
      if !f.allowed { return NotOwnRecord; }
      var used := Used(input.token);
      if used { return TokenAlreadyUsed; }
      var current := if input.org in managers then Some(managers[input.org]) else None;
      if !f.agrees(current, input.expected) { return StateChanged; }
      if input.value != NONE && !f.eligible { return StateChanged; }
      var next := if input.value == NONE then None else Some(input.value);
      if input.value != NONE && !f.known { return Thrown; }
      if ReceiptUsed(State(managers, events, audits), input.receipt) { return TokenAlreadyUsed; }
      if input.value == NONE {
        managers := managers - {input.org};
      } else {
        managers := managers[input.org := input.value];
      }
      if current != next { events := events + [Event(input.org, current, next, input.receipt)]; }
      audits := audits + [Audit(input.org, input.token, input.receipt)];
      return Done;
    }
  }

  // ---------------------------------------------------------------- histories

  datatype Call = Call(input: Input, facts: Facts)

  function Run(calls: seq<Call>): State {
    if |calls| == 0 then State(map[], [], [])
      else Committed(Run(calls[..|calls| - 1]), calls[|calls| - 1].input, calls[|calls| - 1].facts).0
  }

  /** Replaying the events: where the organization's latest one led, none before the first. */
  function Replayed(events: seq<Event>, org: OrgId): Option<PrincipalId> {
    if |events| == 0 then None
    else
      var last := events[|events| - 1];
      if last.org == org then last.to else Replayed(events[..|events| - 1], org)
  }

  predicate Follows(events: seq<Event>, k: nat)
    requires k < |events|
  {
    events[k].from == Replayed(events[..k], events[k].org) && events[k].from != events[k].to
  }

  predicate Chained(events: seq<Event>) { forall k :: 0 <= k < |events| ==> Follows(events, k) }

  predicate SpentOnce(audits: seq<Audit>) {
    forall a, b :: 0 <= a < b < |audits| ==>
        audits[a].token != audits[b].token && audits[a].receipt != audits[b].receipt
  }

  /** The audit row written with an event. */
  ghost predicate Audited(audits: seq<Audit>, e: Event) {
    exists k :: 0 <= k < |audits| && audits[k].receipt == e.receipt && audits[k].org == e.org
  }

  ghost predicate AllAudited(st: State) { forall k :: 0 <= k < |st.events| ==> Audited(st.audits, st.events[k]) }

  ghost predicate Replays(st: State) { forall org :: Replayed(st.events, org) == ManagerOf(st.managers, org) }

  ghost predicate Valid(st: State) { Chained(st.events) && Replays(st) && SpentOnce(st.audits) && AllAudited(st) }

  lemma EventAdded(events: seq<Event>, e: Event)
    requires Chained(events) && e.from == Replayed(events, e.org) && e.from != e.to
    ensures Chained(events + [e])
    ensures forall org :: Replayed(events + [e], org) == if org == e.org then e.to else Replayed(events, org)
  {
    var all := events + [e];
    assert all[..|events|] == events;
    forall k | 0 <= k < |all| ensures Follows(all, k) {
      if k < |events| { assert Follows(events, k) && all[..k] == events[..k]; }
    }
  }

  lemma SpentOnceMore(audits: seq<Audit>, a: Audit)
    requires SpentOnce(audits) && !TokenUsed(audits, a.token)
    requires forall k :: 0 <= k < |audits| ==> audits[k].receipt != a.receipt
    ensures SpentOnce(audits + [a])
  {
  }

  lemma AuditsGrow(st: State, next: State, a: Audit)
    requires AllAudited(st) && next.audits == st.audits + [a]
    requires next.events == st.events
             || exists e :: next.events == st.events + [e] && e.org == a.org && e.receipt == a.receipt
    ensures AllAudited(next)
  {
    assert next.audits[|st.audits|] == a;
    forall k | 0 <= k < |next.events| ensures Audited(next.audits, next.events[k]) {
      if k < |st.events| {
        assert Audited(st.audits, st.events[k]);
        var j :| 0 <= j < |st.audits| && st.audits[j].receipt == st.events[k].receipt
            && st.audits[j].org == st.events[k].org;
        assert next.audits[j] == st.audits[j];
      }
    }
  }

  lemma EventsGrow(st: State, next: State, e: Event)
    requires Chained(st.events) && Replays(st) && e.from == ManagerOf(st.managers, e.org)
    requires next.events == if e.from == e.to then st.events else st.events + [e]
    requires next.managers == WithManager(st.managers, e.org, e.to)
    ensures Chained(next.events) && Replays(next)
  {
    if e.from != e.to { EventAdded(st.events, e); }
  }

  lemma CommitKeepsValid(st: State, input: Input, f: Facts)
    requires Valid(st)
    ensures Valid(Committed(st, input, f).0)
  {
    if Refusal(st, input, f).None? {
      var next := Committed(st, input, f).0;
      var a := Audit(input.org, input.token, input.receipt);
      var e := Event(input.org, ManagerOf(st.managers, input.org), Wanted(input), input.receipt);
      EventsGrow(st, next, e);
      SpentOnceMore(st.audits, a);
      AuditsGrow(st, next, a);
    }
  }

  /**
   * In every run of set, change and clear commits each organization's events form an unbroken chain from
   * none, without no-ops, and replaying them gives the current manager; tokens and receipts are spent once.
   */
  lemma {:induction false} HistoryIsReplayable(calls: seq<Call>)
    ensures Valid(Run(calls))
    decreases |calls|
  {
    if |calls| > 0 {
      HistoryIsReplayable(calls[..|calls| - 1]);
      CommitKeepsValid(Run(calls[..|calls| - 1]), calls[|calls| - 1].input, calls[|calls| - 1].facts);
    }
  }

  lemma {:induction false} ReplaySkips(events: seq<Event>, n: nat, org: OrgId)
    requires n <= |events| && forall m :: n <= m < |events| ==> events[m].org != org
    ensures Replayed(events, org) == Replayed(events[..n], org)
    decreases |events|
  {
    if n < |events| {
      assert events[..|events| - 1][..n] == events[..n];
      ReplaySkips(events[..|events| - 1], n, org);
    } else {
      assert events[..n] == events;
    }
  }

  lemma PairConnects(events: seq<Event>, i: nat, j: nat)
    requires i < j < |events| && Follows(events, j) && events[i].org == events[j].org
    requires forall m :: i < m < j ==> events[m].org != events[j].org
    ensures events[j].from == events[i].to
  {
    var before := events[..j];
    ReplaySkips(before, i + 1, events[j].org);
    assert before[..i + 1][i] == events[i];
  }

  lemma FirstStartsAtNone(events: seq<Event>, j: nat)
    requires j < |events| && Follows(events, j) && forall m :: 0 <= m < j ==> events[m].org != events[j].org
    ensures events[j].from == None
  {
    ReplaySkips(events[..j], 0, events[j].org);
  }

  /** Neighbouring events of an organization connect; its first starts at none; none is a no-op. */
  predicate Connected(events: seq<Event>, j: nat)
    requires j < |events|
  {
    && (forall i :: 0 <= i < j && Neighbours(events, i, j) ==> events[j].from == events[i].to)
    && ((forall m :: 0 <= m < j ==> events[m].org != events[j].org) ==> events[j].from == None)
    && events[j].from != events[j].to
  }

  predicate Neighbours(events: seq<Event>, i: nat, j: nat)
    requires i < j < |events|
  {
    events[i].org == events[j].org && forall m :: i < m < j ==> events[m].org != events[j].org
  }

  lemma ChainedConnects(events: seq<Event>, j: nat)
    requires j < |events| && Chained(events)
    ensures Connected(events, j)
  {
    assert Follows(events, j);
    forall i | 0 <= i < j && Neighbours(events, i, j)
      ensures events[j].from == events[i].to
    {
      PairConnects(events, i, j);
    }
    if forall m :: 0 <= m < j ==> events[m].org != events[j].org { FirstStartsAtNone(events, j); }
  }

  lemma EventsConnect(calls: seq<Call>, j: nat)
    requires j < |Run(calls).events|
    ensures Connected(Run(calls).events, j)
  {
    HistoryIsReplayable(calls);
    ChainedConnects(Run(calls).events, j);
  }

  /** When a commit goes through, and why one is refused. */
  lemma CommitsIff(st: State, input: Input, f: Facts)
    ensures var outcome := Committed(st, input, f).1;
            var trusted := f.live && f.allowed; var used := exists a :: a in st.audits && a.token == input.token;
            var current := f.agrees(ManagerOf(st.managers, input.org), input.expected);
            var clears := input.value == "none";
            var unique := (forall a :: a in st.audits ==> a.receipt != input.receipt)
                          && (forall e :: e in st.events ==> e.receipt != input.receipt);
            && (outcome == Done <==>
                  trusted && !used && current && (clears || (f.eligible && f.known)) && unique)
            && (outcome == NotOwnRecord <==> !trusted)
            && (outcome == StateChanged <==> trusted && !used && (!current || (!clears && !f.eligible)))
            && (outcome == Thrown <==> trusted && !used && current && !clears && f.eligible && !f.known)
            && (outcome == TokenAlreadyUsed <==>
                  trusted && (used || (current && (clears || (f.eligible && f.known)) && !unique)))
  {
    forall k | 0 <= k < |st.audits| ensures st.audits[k] in st.audits {}
    forall k | 0 <= k < |st.events| ensures st.events[k] in st.events {}
  }

  /** A refused commit changes nothing; one that goes through sets what was asked, and only that. */
  lemma CommitMeans(st: State, input: Input, f: Facts)
    ensures var (next, outcome) := Committed(st, input, f);
            var before, after := ManagerOf(st.managers, input.org), ManagerOf(next.managers, input.org);
            && (outcome != Done ==> next == st)
            && (outcome == Done ==>
                  && after == (if input.value == "none" then None else Some(input.value))
                  && (forall org :: org != input.org ==> ManagerOf(next.managers, org) == ManagerOf(st.managers, org))
                  && next.events == (if before == after then st.events
                                     else st.events + [Event(input.org, before, after, input.receipt)])
                  && next.audits == st.audits + [Audit(input.org, input.token, input.receipt)])
  {
  }
}
