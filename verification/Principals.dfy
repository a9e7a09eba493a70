/**
 * Principals, the identities they own, and the registration rows of the audit ledger. Two writers share
 * them: the registration call and bootstrap.
 */
module Principals {
  import opened Options

  type PrincipalId = string
  type Pbuuid = string

  datatype Person = Person(displayName: Option<string>, email: Option<string>)

  /** What an audit row says of a principal: counts and presence, never a value. */
  datatype Presence = Presence(existed: bool, identityCount: nat, displayName: bool, email: bool)
  datatype Registration = Registration(principal: PrincipalId, before: Presence, after: Presence)

  /** `owners` is keyed by the identity, as its table is: an identity has one owner. */
  datatype People = People(
    profiles: map<PrincipalId, Person>, owners: map<Pbuuid, PrincipalId>, registrations: seq<Registration>)

  datatype Registered = Recorded | AsBefore | OwnedByAnother

  function Owned(owners: map<Pbuuid, PrincipalId>, p: PrincipalId): set<Pbuuid> {
    set b | b in owners && owners[b] == p
  }

  function PresenceOf(people: People, p: PrincipalId): Presence {
    if p in people.profiles then
      Presence(true, |Owned(people.owners, p)|, people.profiles[p].displayName.Some?, people.profiles[p].email.Some?)
    else Presence(false, |Owned(people.owners, p)|, false, false)
  }

  /** None of the identities is somebody else's; the table's key refuses the others. */
  predicate Claimable(owners: map<Pbuuid, PrincipalId>, p: PrincipalId, claimed: set<Pbuuid>) {
    forall b :: b in claimed && b in owners ==> owners[b] == p
  }

  /** The principal's old identities go, the claimed ones come. */
  function Reowned(owners: map<Pbuuid, PrincipalId>, p: PrincipalId, claimed: set<Pbuuid>): map<Pbuuid, PrincipalId> {
    (owners - Owned(owners, p)) + map b | b in claimed :: p
  }

  /** `registerPrincipal`: replaces everything, or writes nothing if nothing differs or an identity is taken. */
  function Register(people: People, p: PrincipalId, claimed: set<Pbuuid>, person: Person): (People, Registered) {
    if p in people.profiles && people.profiles[p] == person && Owned(people.owners, p) == claimed then
      (people, AsBefore)
    else if !Claimable(people.owners, p, claimed) then (people, OwnedByAnother)
    else
      (People(people.profiles[p := person], Reowned(people.owners, p, claimed),
              people.registrations + [Registration(p, PresenceOf(people, p),
                Presence(true, |claimed|, person.displayName.Some?, person.email.Some?))]), Recorded)
  }

  function AdminId(pbuuid: Pbuuid): PrincipalId { "principal-" + pbuuid }

  /** Bootstrap's share: the name is set, an email that is there stays, and its row always denies an email. */
  function Enroll(people: People, pbuuid: Pbuuid, name: Option<string>): (People, Registered) {
    var p := AdminId(pbuuid);
    var email := if p in people.profiles then people.profiles[p].email else None;
    if !Claimable(people.owners, p, {pbuuid}) then (people, OwnedByAnother)
    else
      (People(people.profiles[p := Person(name, email)], Reowned(people.owners, p, {pbuuid}),
              people.registrations + [Registration(p, PresenceOf(people, p).(email := false),
                Presence(true, 1, name.Some?, false))]), Recorded)
  }

  // ---------------------------------------------------------------- what a registration does

  lemma ReownedOwns(owners: map<Pbuuid, PrincipalId>, p: PrincipalId, claimed: set<Pbuuid>, q: PrincipalId)
    requires Claimable(owners, p, claimed)
    ensures Owned(Reowned(owners, p, claimed), q) == if q == p then claimed else Owned(owners, q)
  {
  }

  /** A claim is refused exactly if another principal owns one of its identities, and then leaves no trace. */
  lemma RegisterMeans(people: People, p: PrincipalId, claimed: set<Pbuuid>, person: Person)
    ensures var (next, outcome) := Register(people, p, claimed, person);
            && (outcome == OwnedByAnother <==> exists b :: b in claimed && b in people.owners && people.owners[b] != p)
            && (outcome != Recorded ==> next == people)
            && (outcome == AsBefore <==>
                  p in people.profiles && people.profiles[p] == person && Owned(people.owners, p) == claimed)
            && (outcome == Recorded ==>
                  next.registrations ==
                  people.registrations + [Registration(p, PresenceOf(people, p), PresenceOf(next, p))])
            && (outcome != OwnedByAnother ==>
                  p in next.profiles && next.profiles[p] == person && Owned(next.owners, p) == claimed)
            && (forall q :: q != p ==> PresenceOf(next, q) == PresenceOf(people, q)
                                       && Owned(next.owners, q) == Owned(people.owners, q)
                                       && (q in next.profiles <==> q in people.profiles)
                                       && (q in people.profiles ==> next.profiles[q] == people.profiles[q]))
  {
    if Claimable(people.owners, p, claimed) {
      forall q
        ensures Owned(Reowned(people.owners, p, claimed), q) == if q == p then claimed else Owned(people.owners, q)
      {
        ReownedOwns(people.owners, p, claimed, q);
      }
    }
  }

  /** Bootstrap is refused exactly if another principal owns the identity; it sets the name and keeps an email. */
  lemma EnrollMeans(people: People, pbuuid: Pbuuid, name: Option<string>)
    ensures var p := "principal-" + pbuuid; var (next, outcome) := Enroll(people, pbuuid, name);
            && (outcome == OwnedByAnother <==> pbuuid in people.owners && people.owners[pbuuid] != p)
            && (outcome == OwnedByAnother ==> next == people)
            && (outcome != OwnedByAnother ==>
                  && outcome == Recorded && p in next.profiles && next.profiles[p].displayName == name
                  && next.profiles[p].email == (if p in people.profiles then people.profiles[p].email else None)
                  && Owned(next.owners, p) == {pbuuid})
            && (forall q :: q != p ==> PresenceOf(next, q) == PresenceOf(people, q)
                                       && Owned(next.owners, q) == Owned(people.owners, q)
                                       && (q in next.profiles <==> q in people.profiles)
                                       && (q in people.profiles ==> next.profiles[q] == people.profiles[q]))
  {
    var p := "principal-" + pbuuid;
    if Claimable(people.owners, p, {pbuuid}) {
      forall q
        ensures Owned(Reowned(people.owners, p, {pbuuid}), q) == if q == p then {pbuuid} else Owned(people.owners, q)
      {
        ReownedOwns(people.owners, p, {pbuuid}, q);
      }
    }
  }

  /** Bootstrap's row is right about the email exactly if the principal has none. */
  lemma EnrollTellsEmailIff(people: People, pbuuid: Pbuuid, name: Option<string>)
    requires Enroll(people, pbuuid, name).1 == Recorded
    ensures var next := Enroll(people, pbuuid, name).0; var p := AdminId(pbuuid);
            var row := next.registrations[|people.registrations|];
            && (row.after == PresenceOf(next, p) <==> !PresenceOf(people, p).email)
            && (row.before == PresenceOf(people, p) <==> !PresenceOf(people, p).email)
  {
    ReownedOwns(people.owners, AdminId(pbuuid), {pbuuid}, AdminId(pbuuid));
  }

  // ---------------------------------------------------------------- the registration rows of a run

  datatype Event =
    | Registering(p: PrincipalId, claimed: set<Pbuuid>, person: Person)
    | Enrolling(pbuuid: Pbuuid, name: Option<string>)

  function Step(people: People, ev: Event): People {
    match ev
    case Registering(p, claimed, person) => Register(people, p, claimed, person).0
    case Enrolling(pbuuid, name) => Enroll(people, pbuuid, name).0
  }

  function Run(evs: seq<Event>): People {
    if |evs| == 0 then People(map[], map[], []) else Step(Run(evs[..|evs| - 1]), evs[|evs| - 1])
  }

  const UNKNOWN := Presence(false, 0, false, false)

  /** Everything but the email, which bootstrap does not look up. */
  function Told(p: Presence): (bool, nat, bool) { (p.existed, p.identityCount, p.displayName) }

  function LastTold(rows: seq<Registration>, p: PrincipalId): (bool, nat, bool) {
    if |rows| == 0 then Told(UNKNOWN)
    else if rows[|rows| - 1].principal == p then Told(rows[|rows| - 1].after)
    else LastTold(rows[..|rows| - 1], p)
  }

  predicate Continues(rows: seq<Registration>, k: nat)
    requires k < |rows|
  {
    Told(rows[k].before) == LastTold(rows[..k], rows[k].principal)
  }

  ghost predicate Continuous(people: People) {
    && (forall k :: 0 <= k < |people.registrations| ==> Continues(people.registrations, k))
    && (forall p :: LastTold(people.registrations, p) == Told(PresenceOf(people, p)))
    && (forall b :: b in people.owners ==> people.owners[b] in people.profiles)
  }

  lemma RowKeepsContinuity(people: People, next: People, p: PrincipalId, row: Registration)
    requires Continuous(people) && next.registrations == people.registrations + [row] && row.principal == p
    requires Told(row.before) == Told(PresenceOf(people, p)) && Told(row.after) == Told(PresenceOf(next, p))
    requires forall q :: q != p ==> PresenceOf(next, q) == PresenceOf(people, q)
    requires forall b :: b in next.owners ==> next.owners[b] in next.profiles
    ensures Continuous(next)
  {
    var rows := next.registrations;
    assert rows[..|people.registrations|] == people.registrations;
    forall k | 0 <= k < |rows| ensures Continues(rows, k) {
      if k < |people.registrations| {
        assert Continues(people.registrations, k) && rows[..k] == people.registrations[..k];
      }
    }
  }

  lemma StepKeepsContinuity(people: People, ev: Event)
    requires Continuous(people)
    ensures Continuous(Step(people, ev))
  {
    var next := Step(people, ev);
    var p := if ev.Registering? then ev.p else AdminId(ev.pbuuid);
    var claimed := if ev.Registering? then ev.claimed else {ev.pbuuid};
    if next.registrations != people.registrations {
      forall q ensures Owned(next.owners, q) == if q == p then claimed else Owned(people.owners, q) {
        ReownedOwns(people.owners, p, claimed, q);
      }
      RowKeepsContinuity(people, next, p, next.registrations[|people.registrations|]);
    }
  }

  /** Over every run each registration row starts where the principal's previous one ended, from nothing. */
  lemma {:induction false} RegistrationsTelescope(evs: seq<Event>)
    ensures Continuous(Run(evs))
    decreases |evs|
  {
    if |evs| > 0 {
      RegistrationsTelescope(evs[..|evs| - 1]);
      StepKeepsContinuity(Run(evs[..|evs| - 1]), evs[|evs| - 1]);
    } else {
      forall p ensures PresenceOf(Run(evs), p) == UNKNOWN { assert Owned(map[], p) == {}; }
    }
  }
}
