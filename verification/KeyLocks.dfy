/**
 * The promise chain behind the store's per-key lock and its transaction lock.
 *
 * A call arrives, waits for the tail it found, runs its body, and releases its own promise whether
 * the body returned or threw. A tail is settled once its call has released and the tail before it
 * is settled. Calls are numbered in arrival order.
 */
module KeyLocks {
  import opened Options

  type Slot = string

  const TRANSACTION: Slot := "transaction"

  datatype Phase = Waiting | Inside | Released

  datatype Call = Call(slot: Slot, prior: Option<nat>, phase: Phase)

  datatype Locks = Locks(calls: seq<Call>, keyLocks: map<Slot, nat>, transactionTail: Option<nat>)

  const EMPTY := Locks([], map[], None)

  function Settled(calls: seq<Call>, tail: Option<nat>): bool
    decreases if tail.Some? then tail.value + 1 else 0
  {
    match tail
    case None => true
    case Some(c) =>
      && c < |calls| && calls[c].phase == Released
      && (calls[c].prior.Some? ==> calls[c].prior.value < c && Settled(calls, calls[c].prior))
  }

  function TailOf(s: Locks, slot: Slot): Option<nat> {
    if slot == TRANSACTION then s.transactionTail
    else if slot in s.keyLocks then Some(s.keyLocks[slot])
    else None
  }

  function Arrived(s: Locks, slot: Slot): Locks {
    var calls := s.calls + [Call(slot, TailOf(s, slot), Waiting)];
    if slot == TRANSACTION then s.(calls := calls, transactionTail := Some(|s.calls|))
    else s.(calls := calls, keyLocks := s.keyLocks[slot := |s.calls|])
  }

  predicate CanEnter(s: Locks, c: nat) {
    c < |s.calls| && s.calls[c].phase == Waiting && Settled(s.calls, s.calls[c].prior)
  }

  function SetPhase(s: Locks, c: nat, phase: Phase): Locks
    requires c < |s.calls|
  {
    s.(calls := s.calls[c := s.calls[c].(phase := phase)])
  }

  function Entered(s: Locks, c: nat): Locks
    requires CanEnter(s, c)
  {
    SetPhase(s, c, Inside)
  }

  predicate CanExit(s: Locks, c: nat) { c < |s.calls| && s.calls[c].phase == Inside }

  function Exited(s: Locks, c: nat): Locks
    requires CanExit(s, c)
  {
    var slot := s.calls[c].slot;
    var released := SetPhase(s, c, Released);
    if slot != TRANSACTION && slot in s.keyLocks && s.keyLocks[slot] == c
    then released.(keyLocks := s.keyLocks - {slot})
    else released
  }

  /** The same table, updated in place as the calls make their moves. */
  class LockTable {
    var calls: seq<Call>
    var keyLocks: map<Slot, nat>
    var transactionTail: Option<nat>

    constructor ()
      ensures State() == EMPTY
    {
      calls, keyLocks, transactionTail := [], map[], None;
    }

    ghost function State(): Locks
      reads this
    {
      Locks(calls, keyLocks, transactionTail)
    }

    method Arrive(slot: Slot) returns (call: nat)
      modifies this
      ensures State() == Arrived(old(State()), slot) && call == |old(calls)|
    {
      call := |calls|;
      if slot == TRANSACTION {
        calls := calls + [Call(slot, transactionTail, Waiting)];
        transactionTail := Some(call);
      } else {
        var prior := if slot in keyLocks then Some(keyLocks[slot]) else None;
        calls := calls + [Call(slot, prior, Waiting)];
        keyLocks := keyLocks[slot := call];
      }
    }

    method Enter(call: nat)
      requires CanEnter(State(), call)
      modifies this`calls
      ensures State() == Entered(old(State()), call)
    {
      calls := calls[call := calls[call].(phase := Inside)];
    }

    method Exit(call: nat)
      requires CanExit(State(), call)
      modifies this`calls, this`keyLocks
      ensures State() == Exited(old(State()), call)
    {
      var slot := calls[call].slot;
      calls := calls[call := calls[call].(phase := Released)];
      if slot != TRANSACTION && slot in keyLocks && keyLocks[slot] == call {
        keyLocks := keyLocks - {slot};
      }
    }
  }

  // ---------------------------------------------------------------- runs

  datatype Move = Arriving(slot: Slot) | Entering(call: nat) | Exiting(call: nat)

  predicate Enabled(s: Locks, m: Move) {
    match m
    case Arriving(_) => true
    case Entering(c) => CanEnter(s, c)
    case Exiting(c) => CanExit(s, c)
  }

  function Next(s: Locks, m: Move): Locks
    requires Enabled(s, m)
  {
    match m
    case Arriving(slot) => Arrived(s, slot)
    case Entering(c) => Entered(s, c)
    case Exiting(c) => Exited(s, c)
  }

  /** The table after the moves, oldest first, or None when one of them was not possible. */
  function Play(moves: seq<Move>): Option<Locks> {
    if |moves| == 0 then Some(EMPTY)
    else
      var before := Play(moves[..|moves| - 1]);
      var m := moves[|moves| - 1];
      if before.Some? && Enabled(before.value, m) then Some(Next(before.value, m)) else None
  }

  // ---------------------------------------------------------------- the simple lock

  /** Nobody is ahead of `c` in its slot: every earlier arrival there has released. */
  ghost predicate AtHead(calls: seq<Call>, c: nat)
    requires c < |calls|
  {
    forall d :: 0 <= d < c && calls[d].slot == calls[c].slot ==> calls[d].phase == Released
  }

  /** A slot somebody holds or waits for. */
  ghost predicate Busy(s: Locks, slot: Slot) {
    exists c :: 0 <= c < |s.calls| && s.calls[c].slot == slot && s.calls[c].phase != Released
  }

  ghost predicate IsTail(s: Locks, slot: Slot, t: nat) {
    && t < |s.calls| && s.calls[t].slot == slot
    && forall d :: t < d < |s.calls| ==> s.calls[d].slot != slot
  }

  ghost predicate PriorIsPrevious(calls: seq<Call>, c: nat)
    requires c < |calls|
  {
    match calls[c].prior
    case None => AtHead(calls, c)
    case Some(p) =>
      && p < c && calls[p].slot == calls[c].slot
      && forall d :: p < d < c ==> calls[d].slot != calls[c].slot
  }

  ghost predicate Ordered(calls: seq<Call>) {
    && (forall c :: 0 <= c < |calls| ==> PriorIsPrevious(calls, c))
    && (forall c :: 0 <= c < |calls| && calls[c].phase != Waiting ==> AtHead(calls, c))
  }

  ghost predicate Valid(s: Locks) {
    && Ordered(s.calls)
    && (forall slot :: slot in s.keyLocks ==>
          slot != TRANSACTION && IsTail(s, slot, s.keyLocks[slot]) && s.calls[s.keyLocks[slot]].phase != Released)
    && (forall c :: 0 <= c < |s.calls| && s.calls[c].slot != TRANSACTION && s.calls[c].phase != Released ==>
          s.calls[c].slot in s.keyLocks)
    && (s.transactionTail.Some? ==> IsTail(s, TRANSACTION, s.transactionTail.value))
    && (s.transactionTail.None? ==> forall c :: 0 <= c < |s.calls| ==> s.calls[c].slot != TRANSACTION)
  }

  /** A settled tail means that its call and all earlier calls of the slot have released. */
  lemma {:induction false} SettledMeansReleased(s: Locks, c: nat)
    requires c < |s.calls|
    requires forall d :: 0 <= d < |s.calls| ==> PriorIsPrevious(s.calls, d)
    ensures Settled(s.calls, Some(c)) <==> s.calls[c].phase == Released && AtHead(s.calls, c)
    decreases c
  {
    assert PriorIsPrevious(s.calls, c);
    if s.calls[c].prior.Some? { SettledMeansReleased(s, s.calls[c].prior.value); }
  }

  /** The promise chain lets a call in exactly when the simple first-come lock would. */
  lemma EntersAtHead(s: Locks, c: nat)
    requires Valid(s) && c < |s.calls|
    ensures CanEnter(s, c) <==> s.calls[c].phase == Waiting && AtHead(s.calls, c)
  {
    assert PriorIsPrevious(s.calls, c);
    if s.calls[c].prior.Some? { SettledMeansReleased(s, s.calls[c].prior.value); }
  }

  lemma ArriveKeepsValid(s: Locks, slot: Slot)
    requires Valid(s)
    ensures Valid(Arrived(s, slot))
  {
    var t := Arrived(s, slot);
    forall c | 0 <= c < |t.calls| ensures PriorIsPrevious(t.calls, c) {
      if c < |s.calls| { assert PriorIsPrevious(s.calls, c); }
    }
    forall c | 0 <= c < |t.calls| && t.calls[c].phase != Waiting ensures AtHead(t.calls, c) {
      assert AtHead(s.calls, c);
    }
  }

  /** Moving one call to its next phase puts nobody behind in its slot. */
  lemma PhaseKeepsOrder(s: Locks, c: nat, phase: Phase)
    requires Valid(s) && c < |s.calls| && AtHead(s.calls, c) && s.calls[c].phase != Released
    ensures Ordered(SetPhase(s, c, phase).calls)
  {
    var t := SetPhase(s, c, phase);
    forall d | 0 <= d < |t.calls| ensures PriorIsPrevious(t.calls, d) { assert PriorIsPrevious(s.calls, d); }
    forall d | 0 <= d < |t.calls| && t.calls[d].phase != Waiting
      ensures AtHead(t.calls, d)
    {
      assert AtHead(s.calls, d);
    }
  }

  lemma EnterKeepsValid(s: Locks, c: nat)
    requires Valid(s) && CanEnter(s, c)
    ensures Valid(Entered(s, c))
  {
    EntersAtHead(s, c);
    PhaseKeepsOrder(s, c, Inside);
  }

  lemma ExitKeepsValid(s: Locks, c: nat)
    requires Valid(s) && CanExit(s, c)
    ensures Valid(Exited(s, c))
  {
    PhaseKeepsOrder(s, c, Released);
  }

  lemma {:induction false} PlayValid(moves: seq<Move>)
    requires Play(moves).Some?
    ensures Valid(Play(moves).value)
  {
    if |moves| > 0 {
      PlayValid(moves[..|moves| - 1]);
      var s, m := Play(moves[..|moves| - 1]).value, moves[|moves| - 1];
      match m {
        case Arriving(slot) => ArriveKeepsValid(s, slot);
        case Entering(c) => EnterKeepsValid(s, c);
        case Exiting(c) => ExitKeepsValid(s, c);
      }
    }
  }

  // ---------------------------------------------------------------- main results

  /** At most one body per slot, and bodies run in arrival order. */
  lemma OneBodyInOrder(moves: seq<Move>, c: nat, d: nat)
    requires Play(moves).Some?
    requires var s := Play(moves).value;
             c < d < |s.calls| && s.calls[c].slot == s.calls[d].slot && s.calls[d].phase != Waiting
    ensures Play(moves).value.calls[c].phase == Released
  {
    PlayValid(moves);
    assert AtHead(Play(moves).value.calls, d);
  }

  /** The key map has an entry exactly for the keys with a holder or a waiter. */
  lemma KeyLocksAreBusySlots(moves: seq<Move>, slot: Slot)
    requires Play(moves).Some? && slot != TRANSACTION
    ensures slot in Play(moves).value.keyLocks <==> Busy(Play(moves).value, slot)
  {
    PlayValid(moves);
    var s := Play(moves).value;
    if slot in s.keyLocks { assert s.calls[s.keyLocks[slot]].slot == slot; }
  }

  /** When a body ends, by return or throw, the next waiter of its slot may enter at once. */
  lemma ExitHandsOver(moves: seq<Move>, c: nat, d: nat)
    requires Play(moves).Some? && CanExit(Play(moves).value, c)
    requires var s := Play(moves).value;
             c < d < |s.calls| && s.calls[d].slot == s.calls[c].slot
             && forall e :: c < e < d ==> s.calls[e].slot != s.calls[c].slot
    ensures CanEnter(Exited(Play(moves).value, c), d)
  {
    PlayValid(moves);
    var s := Play(moves).value;
    ExitKeepsValid(s, c);
    assert AtHead(s.calls, c);
    assert s.calls[d].phase != Waiting ==> AtHead(s.calls, d);
    EntersAtHead(Exited(s, c), d);
  }

  // ---------------------------------------------------------------- the table is a queue for each slot

  datatype Place = Place(slot: Slot, phase: Phase)

  ghost predicate First(q: seq<Place>, c: nat)
    requires c < |q|
  {
    forall d :: 0 <= d < c && q[d].slot == q[c].slot ==> q[d].phase == Released
  }

  /** The same moves on plain queues: whoever arrives waits, the first of a slot may enter, whoever is inside leaves. */
  ghost function Queue(moves: seq<Move>): Option<seq<Place>> {
    if |moves| == 0 then Some([])
    else
      var before := Queue(moves[..|moves| - 1]);
      if before.None? then None
      else
        var q := before.value;
        match moves[|moves| - 1]
        case Arriving(slot) => Some(q + [Place(slot, Waiting)])
        case Entering(c) =>
          if c < |q| && q[c].phase == Waiting && First(q, c) then Some(q[c := Place(q[c].slot, Inside)]) else None
        case Exiting(c) =>
          if c < |q| && q[c].phase == Inside then Some(q[c := Place(q[c].slot, Released)]) else None
  }

  function Places(calls: seq<Call>): (q: seq<Place>)
    ensures |q| == |calls| && forall k :: 0 <= k < |q| ==> q[k] == Place(calls[k].slot, calls[k].phase)
  {
    seq(|calls|, k requires 0 <= k < |calls| => Place(calls[k].slot, calls[k].phase))
  }

  lemma FirstIsAtHead(calls: seq<Call>, c: nat)
    requires c < |calls|
    ensures First(Places(calls), c) <==> AtHead(calls, c)
  {
    var q := Places(calls);
    forall d | 0 <= d < c
      ensures (q[d].slot == q[c].slot ==> q[d].phase == Released) <==>
              (calls[d].slot == calls[c].slot ==> calls[d].phase == Released)
    {
    }
  }

  /** The promise chains, the key map and the tail do exactly what a queue for each slot does, move by move. */
  lemma {:induction false} LocksAreQueues(moves: seq<Move>)
    ensures Play(moves).Some? <==> Queue(moves).Some?
    ensures Play(moves).Some? ==> Queue(moves).value == Places(Play(moves).value.calls)
    decreases |moves|
  {
    if |moves| > 0 {
      var init, m := moves[..|moves| - 1], moves[|moves| - 1];
      LocksAreQueues(init);
      if Play(init).Some? {
        var s := Play(init).value;
        PlayValid(init);
        if m.Entering? && m.call < |s.calls| {
          EntersAtHead(s, m.call);
          FirstIsAtHead(s.calls, m.call);
        }
      }
    }
  }
}
