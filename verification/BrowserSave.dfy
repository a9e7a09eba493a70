/**
 * Saving one profile field from a browser: the writes of one principal, over every interleaving of
 * saves, lost connections, commits whose answer never arrives, retries and the older commit path.
 * A digest is represented by what it digests.
 */
module BrowserSave {
  import opened Options
  import opened ProfileFields

  datatype TokenRef = BrowserRef(id: string) | OlderRef(id: string)
  datatype Value = Text(s: string) | Flag(b: bool) | Null
  datatype Evidence = Evidence(sourceRef: string, valueDigest: string, revision: string)
  datatype Baseline = Baseline(persisted: Option<string>, shown: Option<Evidence>)
  datatype ChangeSet = BrowserChange(field: Field, normalization: string, value: Value) | OlderChange(digest: string)

  /** A verified token of this principal. */
  datatype Token = Token(id: string, field: Field, normalization: string, baseline: Baseline, issuedAt: int,
      expiresAt: int)

  datatype Receipt = Receipt(ref: string, browser: bool, token: TokenRef, change: ChangeSet, field: Field)

  /** An audit row; `own` rows name this principal as their target. */
  datatype Row = Row(own: bool, receipt: Receipt)

  datatype Request =
    | Browser(token: Token, value: Value)
    | Older(tokenId: string, field: Field, text: string, expected: Option<string>, ref: string, digest: string)

  datatype Outcome =
    | Committed(receipt: Receipt) | AlreadyCommitted(receipt: Receipt) | PayloadMismatch
    | StateChanged | Expired | NotAuthorized | Unknown | Retryable | NotCanonical
    | OlderOk | OlderRefused(reason: Reason) | OlderThrown

  /** Why the older path refuses. */
  datatype Reason = TokenAlreadyUsed | NotOwnRecord | ChangedSince | InvalidValue

  /**
   * What a transaction reads that nobody here decides: session, clock, principal, imported value, whether
   * another person holds the phone or handle, and the random reference.
   */
  datatype Env = Env(live: bool, now: int, known: bool, imported: Option<Option<Evidence>>, taken: bool, ref: string)

  /** A write that waits for its COMMIT, with what was read for it. */
  datatype Pending = Pending(before: Profile, active: set<string>, after: Profile, shown: Option<Evidence>, now: int,
      receipt: Receipt)

  datatype Decision = Answer(outcome: Outcome) | Conflict | Commit(pending: Pending)

  function ChangeOf(request: Request): ChangeSet {
    match request
    case Browser(token, value) => BrowserChange(token.field, token.normalization, value)
    case Older(_, _, _, _, _, digest) => OlderChange(digest)
  }

  function RefOf(request: Request): TokenRef {
    if request.Browser? then BrowserRef(request.token.id) else OlderRef(request.tokenId)
  }

  function FieldOf(request: Request): Field { if request.Browser? then request.token.field else request.field }

  function Thrown(request: Request): Outcome { if request.Browser? then Retryable else OlderThrown }

  predicate TokenIn(rows: seq<Row>, token: TokenRef) { exists a :: 0 <= a < |rows| && rows[a].receipt.token == token }

  predicate RefIn(rows: seq<Row>, ref: string) { exists a :: 0 <= a < |rows| && rows[a].receipt.ref == ref }

  function FindOwn(rows: seq<Row>, token: TokenRef): (r: Option<Receipt>)
    ensures r.Some? ==> Row(true, r.value) in rows && r.value.token == token
  {
    if |rows| == 0 then None
    else if rows[0].own && rows[0].receipt.token == token then Some(rows[0].receipt)
    else FindOwn(rows[1..], token)
  }

  /** The unique index of the phone and handle columns refuses the value. */
  predicate Taken(env: Env, field: Field, value: string) { env.taken && field in {Phone, Handle} && value != "" }

  // ---------------------------------------------------------------- one transaction, up to its COMMIT

  function DecideBrowser(world: World, active: set<string>, profile: Profile, rows: seq<Row>, token: Token,
        value: Value, env: Env): Decision {
    var found := FindOwn(rows, BrowserRef(token.id));
    if !env.live then Answer(NotAuthorized)
    else if found.Some? then
      if !found.value.browser || found.value.field != token.field then Answer(Retryable)
      else if found.value.change == BrowserChange(token.field, token.normalization, value) then
        Answer(AlreadyCommitted(found.value))
      else Answer(PayloadMismatch)
    else if env.now < token.issuedAt || env.now >= token.expiresAt then Answer(Expired)
    else if !env.known then Answer(NotAuthorized)
    else if !Get(profile, token.field).written && env.imported.None? then Answer(Retryable)
    else
      // a written override hides the imported value
      var shown := if Get(profile, token.field).written then None else env.imported.value;
      if Baseline(Get(profile, token.field).value, shown) != token.baseline then Answer(StateChanged)
      else if !value.Text? then Answer(NotCanonical)
      else
        match WriteValue(world, active, profile, token.field, value.s)
        case Refused => Answer(StateChanged)
        case Violated => Answer(Retryable)
        case Broken => Answer(Retryable)
        case Stored(after) =>
          var change := BrowserChange(token.field, token.normalization, value);
          var receipt := Receipt(env.ref, true, BrowserRef(token.id), change, token.field);
          if Taken(env, token.field, value.s) then Answer(Retryable)
          else if TokenIn(rows, receipt.token) then Conflict
          else if RefIn(rows, env.ref) then Answer(Retryable)
          else Commit(Pending(profile, active, after, shown, env.now, receipt))
  }

  function DecideOlder(world: World, active: set<string>, profile: Profile, rows: seq<Row>, request: Request,
        env: Env): Decision
    requires request.Older?
  {
    if TokenIn(rows, OlderRef(request.tokenId)) then Answer(OlderRefused(TokenAlreadyUsed))
    else if !env.known then Answer(OlderRefused(NotOwnRecord))
    else if Get(profile, request.field).value != request.expected then Answer(OlderRefused(ChangedSince))
    else
      match WriteValue(world, active, profile, request.field, request.text)
      case Refused => Answer(OlderRefused(InvalidValue))
      case Violated => Answer(OlderRefused(InvalidValue))
      case Broken => Answer(OlderThrown)
      case Stored(after) =>
        if Taken(env, request.field, request.text) then Answer(OlderRefused(InvalidValue))
        else if RefIn(rows, request.ref) then Answer(OlderThrown)
        else
          var receipt := Receipt(request.ref, false, OlderRef(request.tokenId), OlderChange(request.digest),
                                 request.field);
          Commit(Pending(profile, active, after, None, env.now, receipt))
  }

  function Decide(world: World, active: set<string>, profile: Profile, rows: seq<Row>, request: Request,
        env: Env): Decision {
    match request
    case Browser(token, value) => DecideBrowser(world, active, profile, rows, token, value, env)
    case Older(_, _, _, _, _, _) => DecideOlder(world, active, profile, rows, request, env)
  }

  /** What a write that lands has been checked for, against the profile it replaces. */
  predicate Rightful(world: World, request: Request, p: Pending) {
    && p.receipt.token == RefOf(request) && p.receipt.change == ChangeOf(request) && p.receipt.field == FieldOf(request)
    && p.receipt.browser == request.Browser?
    && match request
       case Browser(token, value) =>
         && token.issuedAt <= p.now < token.expiresAt
         && token.baseline == Baseline(Get(p.before, token.field).value, p.shown)
         && (Get(p.before, token.field).written ==> p.shown.None?)
         && value.Text? && WriteValue(world, p.active, p.before, token.field, value.s) == Stored(p.after)
       case Older(_, field, text, expected, _, _) =>
         Get(p.before, field).value == expected && WriteValue(world, p.active, p.before, field, text) == Stored(p.after)
  }

  lemma CommitIsRightful(world: World, active: set<string>, profile: Profile, rows: seq<Row>, request: Request,
        env: Env)
    ensures var d := Decide(world, active, profile, rows, request, env);
            d.Commit? ==> Rightful(world, request, d.pending) && d.pending.before == profile
                          && !TokenIn(rows, d.pending.receipt.token) && !RefIn(rows, d.pending.receipt.ref)
  {
  }

  predicate Spent(rows: seq<Row>, token: TokenRef) {
    exists a :: 0 <= a < |rows| && rows[a].own && rows[a].receipt.token == token
  }

  lemma {:induction false} FindsIfSpent(rows: seq<Row>, token: TokenRef)
    ensures FindOwn(rows, token).Some? <==> Spent(rows, token)
  {
    if |rows| > 0 {
      FindsIfSpent(rows[1..], token);
      forall a | 0 <= a < |rows[1..]| ensures rows[1..][a] == rows[a + 1] {}
      if a :| 0 <= a < |rows| && rows[a].own && rows[a].receipt.token == token {
        if a > 0 { assert rows[1..][a - 1] == rows[a]; }
      }
    }
  }

  /** The save gets as far as its baseline. */
  predicate Admitted(rows: seq<Row>, token: Token, env: Env) {
    env.live && !Spent(rows, BrowserRef(token.id)) && token.issuedAt <= env.now < token.expiresAt && env.known
  }

  /** A written value or an imported one can be compared with the baseline. */
  predicate Readable(profile: Profile, token: Token, env: Env) {
    Get(profile, token.field).written || env.imported.Some?
  }

  /** The token was issued for what is there. */
  predicate SameBaseline(profile: Profile, token: Token, env: Env)
    requires Readable(profile, token, env)
  {
    && token.baseline.persisted == Get(profile, token.field).value
    && token.baseline.shown == if Get(profile, token.field).written then None else env.imported.value
  }

  /** And so it gets as far as the write. */
  predicate Writes(profile: Profile, rows: seq<Row>, token: Token, value: Value, env: Env) {
    Admitted(rows, token, env) && Readable(profile, token, env) && SameBaseline(profile, token, env) && value.Text?
  }

  /** Another person holds the phone or the handle. */
  predicate HeldElsewhere(env: Env, field: Field, value: string) {
    env.taken && value != "" && (field == Phone || field == Handle)
  }

  /** When a browser save commits, and what with; when it meets a spent token that is not its own. */
  lemma BrowserCommitsIff(world: World, active: set<string>, profile: Profile, rows: seq<Row>, token: Token,
        value: Value, env: Env)
    ensures var d := DecideBrowser(world, active, profile, rows, token, value, env); var ref := BrowserRef(token.id);
            var may := Writes(profile, rows, token, value, env)
                       && WriteValue(world, active, profile, token.field, value.s).Stored?
                       && !HeldElsewhere(env, token.field, value.s);
            && (d.Commit? <==> may && !TokenIn(rows, ref) && !RefIn(rows, env.ref))
            && (d.Conflict? <==> may && TokenIn(rows, ref))
            && (d.Commit? ==>
                  && d.pending.receipt ==
                     Receipt(env.ref, true, ref, BrowserChange(token.field, token.normalization, value), token.field)
                  && d.pending.before == profile && d.pending.active == active && d.pending.now == env.now
                  && WriteValue(world, active, profile, token.field, value.s) == Stored(d.pending.after))
  {
    FindsIfSpent(rows, BrowserRef(token.id));
  }

  /** When a browser save is refused, and why. */
  lemma BrowserRefusesIff(world: World, active: set<string>, profile: Profile, rows: seq<Row>, token: Token,
        value: Value, env: Env)
    ensures var d := DecideBrowser(world, active, profile, rows, token, value, env);
            var spent := Spent(rows, BrowserRef(token.id));
            var inTime := token.issuedAt <= env.now < token.expiresAt;
            var compared := Admitted(rows, token, env) && Readable(profile, token, env);
            && (d == Answer(NotAuthorized) <==> !env.live || (!spent && inTime && !env.known))
            && (d == Answer(Expired) <==> env.live && !spent && !inTime)
            && (d == Answer(StateChanged) <==>
                  compared && (!SameBaseline(profile, token, env)
                               || (value.Text? && WriteValue(world, active, profile, token.field, value.s).Refused?)))
            && (d == Answer(NotCanonical) <==> compared && SameBaseline(profile, token, env) && !value.Text?)
            && (d.Answer? && !spent ==>
                  d.outcome in {NotAuthorized, Expired, StateChanged, NotCanonical, Retryable})
            && (d.Answer? && spent ==>
                  d.outcome in {NotAuthorized, Retryable, PayloadMismatch} || d.outcome.AlreadyCommitted?)
  {
    FindsIfSpent(rows, BrowserRef(token.id));
  }

  /** The older path: what it answers, and when. */
  lemma OlderAnswers(world: World, active: set<string>, profile: Profile, rows: seq<Row>, request: Request, env: Env)
    requires request.Older?
    ensures var d := DecideOlder(world, active, profile, rows, request, env);
            var spent := TokenIn(rows, OlderRef(request.tokenId));
            var current := Get(profile, request.field).value == request.expected;
            var r := WriteValue(world, active, profile, request.field, request.text);
            var writes := !spent && env.known && current;
            var held := HeldElsewhere(env, request.field, request.text);
            && (d == Answer(OlderRefused(TokenAlreadyUsed)) <==> spent)
            && (d == Answer(OlderRefused(NotOwnRecord)) <==> !spent && !env.known)
            && (d == Answer(OlderRefused(ChangedSince)) <==> !spent && env.known && !current)
            && (d == Answer(OlderRefused(InvalidValue)) <==>
                  writes && (r.Refused? || r.Violated? || (r.Stored? && held)))
            && (d == Answer(OlderThrown) <==>
                  writes && (r.Broken? || (r.Stored? && !held && RefIn(rows, request.ref))))
            && (d.Commit? <==> writes && r.Stored? && !held && !RefIn(rows, request.ref))
            && (d.Commit? ==>
                  d.pending.receipt == Receipt(request.ref, false, OlderRef(request.tokenId),
                                               OlderChange(request.digest), request.field)
                  && r == Stored(d.pending.after))
  {
  }

  predicate Unique(rows: seq<Row>) {
    forall a, b :: 0 <= a < b < |rows| ==>
        rows[a].receipt.token != rows[b].receipt.token && rows[a].receipt.ref != rows[b].receipt.ref
  }

  lemma {:induction false} FindsTheReceipt(rows: seq<Row>, receipt: Receipt)
    requires Unique(rows) && Row(true, receipt) in rows
    ensures FindOwn(rows, receipt.token) == Some(receipt)
  {
    if rows[0] != Row(true, receipt) {
      assert Row(true, receipt) in rows[1..];
      var b :| 0 <= b < |rows[1..]| && rows[1..][b] == Row(true, receipt);
      assert rows[b + 1] == Row(true, receipt);
      FindsTheReceipt(rows[1..], receipt);
    }
  }

  // ---------------------------------------------------------------- interleavings

  datatype Phase = Waiting | Locked | Sent(receipt: Receipt) | Done(outcome: Outcome)
  datatype Call = Call(request: Request, attempts: nat, phase: Phase)

  /** The transaction that holds the principal's lock, as the database sees it. */
  datatype Server = Idle | Open(call: nat) | Committing(call: nat, pending: Pending)

  datatype Write = Write(call: nat, request: Request, pending: Pending)

  /** `writes` and `landed` are history: every field write that took effect, and the calls whose COMMIT did. */
  datatype State = State(
    profile: Profile, active: set<string>, rows: seq<Row>, server: Server, calls: seq<Call>,
    writes: seq<Write>, landed: set<nat>)

  datatype Step =
    | Start(request: Request)          // a call begins and waits for the lock
    | Drop(call: nat)                  // it fails before the lock
    | TurnAway(call: nat)              // its session is no longer live
    | TakeLock(call: nat)
    | Body(call: nat, env: Env)        // everything from the second authorization to COMMIT
    | Break(call: nat)                 // an error before COMMIT; the server rolls back when it notices
    | ServerEnds
    | Land                             // the server commits
    | Abort                            // the server loses the transaction at COMMIT
    | Ack(call: nat)                   // the answer to COMMIT arrives
    | Lose(call: nat)                  // or it does not
    | Other(row: Row)                  // another writer of the audit table
    | Recatalogue(active: set<string>)

  function Init(): State { State(map[], {}, [], Idle, [], [], {}) }

  predicate InPhase(s: State, i: nat, phase: Phase) { i < |s.calls| && s.calls[i].phase == phase }

  function Settle(s: State, i: nat, phase: Phase, server: Server): State
    requires i < |s.calls|
  {
    s.(calls := s.calls[i := s.calls[i].(phase := phase)], server := server)
  }

  function AfterBody(world: World, s: State, i: nat, env: Env): State
    requires i < |s.calls|
  {
    var call := s.calls[i];
    match Decide(world, s.active, s.profile, s.rows, call.request, env)
    case Answer(outcome) => Settle(s, i, Done(outcome), Idle)
    case Commit(pending) => Settle(s, i, Sent(pending.receipt), Committing(i, pending))
    case Conflict =>
      if call.attempts < 2 then Settle(s, i, Waiting, Idle) else Settle(s, i, Done(Retryable), Idle)
  }

  predicate Free(s: State, receipt: Receipt) {
    && !TokenIn(s.rows, receipt.token) && !RefIn(s.rows, receipt.ref)
    && (s.server.Committing? ==> s.server.pending.receipt.token != receipt.token
                                 && s.server.pending.receipt.ref != receipt.ref)
  }

  function Next(world: World, s: State, step: Step): State {
    match step
    case Start(request) => s.(calls := s.calls + [Call(request, 0, Waiting)])
    case Drop(i) => if InPhase(s, i, Waiting) then Settle(s, i, Done(Thrown(s.calls[i].request)), s.server) else s
    case TurnAway(i) =>
      if InPhase(s, i, Waiting) && s.calls[i].request.Browser? then Settle(s, i, Done(NotAuthorized), s.server) else s
    case TakeLock(i) =>
      if InPhase(s, i, Waiting) && s.server == Idle then
        s.(calls := s.calls[i := s.calls[i].(phase := Locked, attempts := s.calls[i].attempts + 1)], server := Open(i))
      else s
    case Body(i, env) => if InPhase(s, i, Locked) && s.server == Open(i) then AfterBody(world, s, i, env) else s
    case Break(i) => if InPhase(s, i, Locked) then Settle(s, i, Done(Thrown(s.calls[i].request)), s.server) else s
    case ServerEnds =>
      if s.server.Open? && s.server.call < |s.calls| && s.calls[s.server.call].phase.Done? then s.(server := Idle)
      else s
    case Land =>
      if s.server.Committing? && s.server.call < |s.calls| then
        var p, i := s.server.pending, s.server.call;
        s.(profile := p.after, rows := s.rows + [Row(true, p.receipt)], server := Idle,
           writes := s.writes + [Write(i, s.calls[i].request, p.(before := s.profile))], landed := s.landed + {i})
      else s
    case Abort => if s.server.Committing? then s.(server := Idle) else s
    case Ack(i) =>
      if i < |s.calls| && s.calls[i].phase.Sent? && i in s.landed then
        var outcome := if s.calls[i].request.Browser? then Committed(s.calls[i].phase.receipt) else OlderOk;
        Settle(s, i, Done(outcome), s.server)
      else s
    case Lose(i) =>
      if i < |s.calls| && s.calls[i].phase.Sent? then
        Settle(s, i, Done(if s.calls[i].request.Browser? then Unknown else OlderThrown), s.server)
      else s
    case Other(row) =>
      if MayAdd(s, row) then s.(rows := s.rows + [row]) else s
    case Recatalogue(active) => s.(active := active)
  }

  function Play(world: World, s: State, steps: seq<Step>): State {
    if |steps| == 0 then s else Next(world, Play(world, s, steps[..|steps| - 1]), steps[|steps| - 1])
  }

  /** What a call may meet at any time, and where it leaves it. */
  lemma CallsMayMeet(world: World, s: State, i: nat)
    requires i < |s.calls|
    ensures var call := s.calls[i]; var browser := call.request.Browser?;
            var thrown := if browser then Retryable else OlderThrown;
            && (call.phase == Waiting ==>
                  && Next(world, s, Drop(i)) == s.(calls := s.calls[i := call.(phase := Done(thrown))])
                  && (browser ==>
                        Next(world, s, TurnAway(i)) == s.(calls := s.calls[i := call.(phase := Done(NotAuthorized))]))
                  && (s.server == Idle ==>
                        Next(world, s, TakeLock(i)) == s.(server := Open(i), calls := s.calls[
                          i := Call(call.request, call.attempts + 1, Locked)])))
            && (call.phase == Locked ==>
                  Next(world, s, Break(i)) == s.(calls := s.calls[i := call.(phase := Done(thrown))]))
            && (call.phase.Sent? ==>
                  && Next(world, s, Lose(i)) == s.(calls := s.calls[
                       i := call.(phase := Done(if browser then Unknown else OlderThrown))])
                  && (i in s.landed ==>
                        Next(world, s, Ack(i)) == s.(calls := s.calls[
                          i := call.(phase := Done(if browser then Committed(call.phase.receipt) else OlderOk))])))
  {
  }

  /** A call that holds the lock gets its decision, and tries a conflict once more. */
  lemma BodiesDecide(world: World, s: State, i: nat, env: Env)
    requires i < |s.calls| && s.calls[i].phase == Locked && s.server == Open(i)
    ensures var call := s.calls[i]; var next := Next(world, s, Body(i, env));
            match Decide(world, s.active, s.profile, s.rows, call.request, env)
            case Answer(outcome) => next == s.(server := Idle, calls := s.calls[i := call.(phase := Done(outcome))])
            case Commit(p) =>
              next == s.(server := Committing(i, p), calls := s.calls[i := call.(phase := Sent(p.receipt))])
            case Conflict =>
              next == s.(server := Idle, calls := s.calls[
                i := call.(phase := if call.attempts < 2 then Waiting else Done(Retryable))])
  {
  }

  /** The server commits what was sent, or loses it, and gives up the lock of a call that is gone. */
  lemma ServerMay(world: World, s: State)
    ensures s.server.Committing? && s.server.call < |s.calls| ==>
              var landed := Next(world, s, Land); var p := s.server.pending;
              && landed.profile == p.after && landed.rows == s.rows + [Row(true, p.receipt)] && landed.server == Idle
              && landed.landed == s.landed + {s.server.call} && landed.calls == s.calls
              && Next(world, s, Abort) == s.(server := Idle)
    ensures s.server.Open? && s.server.call < |s.calls| && s.calls[s.server.call].phase.Done? ==>
              Next(world, s, ServerEnds) == s.(server := Idle)
  {
  }

  /** Meanwhile other calls begin, the catalogue changes, and others write audit rows under keys of their own. */
  lemma OthersMay(world: World, s: State, request: Request, active: set<string>, row: Row)
    ensures Next(world, s, Start(request)) == s.(calls := s.calls + [Call(request, 0, Waiting)])
    ensures Next(world, s, Recatalogue(active)) == s.(active := active)
    ensures (forall a :: 0 <= a < |s.rows| ==>
               s.rows[a].receipt.token != row.receipt.token && s.rows[a].receipt.ref != row.receipt.ref)
            && (s.server.Committing? ==> s.server.pending.receipt.token != row.receipt.token
                                         && s.server.pending.receipt.ref != row.receipt.ref)
            && (row.own ==> row.receipt.token.OlderRef?)
            ==> Next(world, s, Other(row)) == s.(rows := s.rows + [row])
  {
  }

  // ---------------------------------------------------------------- what every step keeps

  predicate Fits(request: Request, receipt: Receipt) {
    receipt.token == RefOf(request) && receipt.change == ChangeOf(request) && receipt.field == FieldOf(request)
  }

  predicate IsWrite(w: Write, i: nat, request: Request, receipt: Receipt) {
    w.call == i && w.request == request && w.pending.receipt == receipt
  }

  ghost predicate HasWrite(s: State, i: nat, request: Request, receipt: Receipt) {
    exists k :: 0 <= k < |s.writes| && IsWrite(s.writes[k], i, request, receipt)
  }

  /** The audit table holds another payload for the call's token. */
  ghost predicate OtherPayload(s: State, request: Request) {
    exists a :: 0 <= a < |s.rows| && s.rows[a].own && s.rows[a].receipt.token == RefOf(request)
      && s.rows[a].receipt.change != ChangeOf(request)
  }

  ghost predicate PhaseOk(s: State, i: nat, call: Call) {
    match call.phase
    case Waiting => i !in s.landed
    case Locked => i !in s.landed && s.server == Open(i)
    case Sent(receipt) => Fits(call.request, receipt) && (i in s.landed ==> HasWrite(s, i, call.request, receipt))
    case Done(Committed(receipt)) =>
      i in s.landed && HasWrite(s, i, call.request, receipt) && Fits(call.request, receipt)
    case Done(AlreadyCommitted(receipt)) =>
      i !in s.landed && Row(true, receipt) in s.rows && Fits(call.request, receipt)
    case Done(PayloadMismatch) => i !in s.landed && OtherPayload(s, call.request)
    case Done(OlderOk) => i in s.landed
    case Done(Unknown) => true
    case Done(OlderThrown) => true
    case Done(_) => i !in s.landed
  }

  predicate AttemptsOk(call: Call) { call.attempts <= if call.phase.Waiting? then 1 else 2 }

  ghost predicate CallsOk(s: State) {
    && (forall i :: 0 <= i < |s.calls| ==> PhaseOk(s, i, s.calls[i]))
    && (forall i :: 0 <= i < |s.calls| ==> AttemptsOk(s.calls[i]))
    && (forall i :: i in s.landed ==> i < |s.calls|)
  }

  ghost predicate ServerOk(world: World, s: State) {
    match s.server
    case Idle => true
    case Open(i) => i < |s.calls| && i !in s.landed && s.calls[i].phase in {Locked, Done(Thrown(s.calls[i].request))}
    case Committing(i, p) =>
      && i < |s.calls| && i !in s.landed && s.calls[i].phase in {Sent(p.receipt), Done(Unknown), Done(OlderThrown)}
      && Rightful(world, s.calls[i].request, p) && p.before == s.profile
      && !TokenIn(s.rows, p.receipt.token) && !RefIn(s.rows, p.receipt.ref)
  }

  ghost predicate WriteOk(world: World, s: State, w: Write) {
    && w.call in s.landed && Rightful(world, w.request, w.pending) && Row(true, w.pending.receipt) in s.rows
  }

  function ProfileAfter(writes: seq<Write>, k: nat): Profile
    requires k <= |writes|
  {
    if k == 0 then map[] else writes[k - 1].pending.after
  }

  predicate Follows(writes: seq<Write>, k: nat)
    requires k < |writes|
  {
    writes[k].pending.before == ProfileAfter(writes, k)
  }

  /** Each write replaced the profile the previous one left. */
  predicate Chained(s: State) {
    && (forall k :: 0 <= k < |s.writes| ==> Follows(s.writes, k))
    && s.profile == ProfileAfter(s.writes, |s.writes|)
  }

  ghost predicate WritesOk(world: World, s: State) {
    && (forall k :: 0 <= k < |s.writes| ==> WriteOk(world, s, s.writes[k]))
    && (forall a, b :: 0 <= a < b < |s.writes| ==>
            s.writes[a].call != s.writes[b].call
            && s.writes[a].pending.receipt.token != s.writes[b].pending.receipt.token)
    && Chained(s)
  }

  /** The receipts this principal holds for browser tokens, and those of the browser writes, in order. */
  function HeldReceipts(rows: seq<Row>): seq<Receipt> {
    if |rows| == 0 then []
    else
      var row := rows[|rows| - 1];
      HeldReceipts(rows[..|rows| - 1]) + if row.own && row.receipt.token.BrowserRef? then [row.receipt] else []
  }

  function WrittenReceipts(writes: seq<Write>): seq<Receipt> {
    if |writes| == 0 then []
    else
      var receipt := writes[|writes| - 1].pending.receipt;
      WrittenReceipts(writes[..|writes| - 1]) + if receipt.token.BrowserRef? then [receipt] else []
  }

  ghost predicate Valid(world: World, s: State) {
    CallsOk(s) && ServerOk(world, s) && WritesOk(world, s) && Unique(s.rows)
  }

  /** Another writer never reuses a token or a reference, nor claims a browser receipt of this principal. */
  predicate MayAdd(s: State, row: Row) { Free(s, row.receipt) && (row.own ==> row.receipt.token.OlderRef?) }

  lemma UniqueGrows(rows: seq<Row>, row: Row)
    requires Unique(rows) && !TokenIn(rows, row.receipt.token) && !RefIn(rows, row.receipt.ref)
    ensures Unique(rows + [row])
  {
  }

  lemma TokenInGrows(rows: seq<Row>, row: Row, token: TokenRef, ref: string)
    ensures TokenIn(rows + [row], token) <==> TokenIn(rows, token) || row.receipt.token == token
    ensures RefIn(rows + [row], ref) <==> RefIn(rows, ref) || row.receipt.ref == ref
  {
    var all := rows + [row];
    assert all[|rows|] == row;
    forall a | 0 <= a < |rows| ensures all[a] == rows[a] {}
  }

  lemma WritesKept(world: World, s: State, next: State)
    requires WritesOk(world, s) && s.rows <= next.rows
    requires next.writes == s.writes && next.landed == s.landed && next.profile == s.profile
    ensures WritesOk(world, next)
  {
    forall k | 0 <= k < |next.writes| ensures WriteOk(world, next, next.writes[k]) {
      assert WriteOk(world, s, s.writes[k]);
    }
  }

  /** A step that changes one call's phase and the server, and nothing else. */
  lemma SettleKeeps(world: World, s: State, i: nat, phase: Phase, server: Server)
    requires Valid(world, s) && i < |s.calls|
    requires PhaseOk(Settle(s, i, phase, server), i, s.calls[i].(phase := phase))
    requires AttemptsOk(s.calls[i].(phase := phase))
    requires ServerOk(world, Settle(s, i, phase, server))
    requires forall j :: 0 <= j < |s.calls| && j != i && s.calls[j].phase.Locked? ==> server == s.server
    ensures Valid(world, Settle(s, i, phase, server))
  {
    var next := Settle(s, i, phase, server);
    CallsKept(s, next, i);
    WritesKept(world, s, next);
  }

  /** A call's phase stays sound while tables grow and nobody else commits for it. */
  lemma PhaseKept(s: State, next: State, j: nat)
    requires j < |s.calls| && PhaseOk(s, j, s.calls[j])
    requires s.rows <= next.rows && s.writes <= next.writes
    requires j in next.landed <==> j in s.landed
    requires s.calls[j].phase.Locked? ==> next.server == s.server
    ensures PhaseOk(next, j, s.calls[j])
  {
    var call := s.calls[j];
    match call.phase
    case Sent(receipt) => HasWriteGrows(s, next, j, call.request, receipt);
    case Done(Committed(receipt)) => HasWriteGrows(s, next, j, call.request, receipt);
    case Done(PayloadMismatch) =>
      var a :| 0 <= a < |s.rows| && s.rows[a].own && s.rows[a].receipt.token == RefOf(call.request)
          && s.rows[a].receipt.change != ChangeOf(call.request);
      assert next.rows[a] == s.rows[a];
    case _ =>
  }

  /** At most call `i` changes; everybody else only sees tables grow. */
  lemma CallsKept(s: State, next: State, i: nat)
    requires CallsOk(s) && s.rows <= next.rows && s.writes <= next.writes
    requires |next.calls| == |s.calls| || (|next.calls| == |s.calls| + 1 && i == |s.calls|)
    requires forall j :: 0 <= j < |s.calls| && j != i ==>
               && next.calls[j] == s.calls[j] && (j in next.landed <==> j in s.landed)
               && (s.calls[j].phase.Locked? ==> next.server == s.server)
    requires i < |next.calls| ==> PhaseOk(next, i, next.calls[i]) && AttemptsOk(next.calls[i])
    requires forall j :: j in next.landed ==> j < |next.calls|
    ensures CallsOk(next)
  {
    forall j | 0 <= j < |next.calls| ensures PhaseOk(next, j, next.calls[j]) {
      if j != i {
        assert PhaseOk(s, j, s.calls[j]);
        PhaseKept(s, next, j);
      }
    }
  }

  lemma HasWriteGrows(s: State, next: State, i: nat, request: Request, receipt: Receipt)
    requires s.writes <= next.writes
    ensures HasWrite(s, i, request, receipt) ==> HasWrite(next, i, request, receipt)
  {
    if k :| 0 <= k < |s.writes| && IsWrite(s.writes[k], i, request, receipt) {
      assert next.writes[k] == s.writes[k];
    }
  }

  lemma BodyKeeps(world: World, s: State, i: nat, env: Env)
    requires Valid(world, s) && InPhase(s, i, Locked) && s.server == Open(i)
    ensures Valid(world, AfterBody(world, s, i, env))
  {
    var call := s.calls[i];
    assert PhaseOk(s, i, call);
    CommitIsRightful(world, s.active, s.profile, s.rows, call.request, env);
    forall j | 0 <= j < |s.calls| && j != i ensures !s.calls[j].phase.Locked? { assert PhaseOk(s, j, s.calls[j]); }
    match Decide(world, s.active, s.profile, s.rows, call.request, env)
    case Answer(outcome) =>
      AnswerOk(world, s, i, env);
      SettleKeeps(world, s, i, Done(outcome), Idle);
    case Commit(pending) => SettleKeeps(world, s, i, Sent(pending.receipt), Committing(i, pending));
    case Conflict =>
      if call.attempts < 2 {
        SettleKeeps(world, s, i, Waiting, Idle);
      } else {
        SettleKeeps(world, s, i, Done(Retryable), Idle);
      }
  }

  lemma AnswerOk(world: World, s: State, i: nat, env: Env)
    requires Valid(world, s) && InPhase(s, i, Locked)
    ensures var d := Decide(world, s.active, s.profile, s.rows, s.calls[i].request, env);
            d.Answer? ==> PhaseOk(Settle(s, i, Done(d.outcome), Idle), i, s.calls[i].(phase := Done(d.outcome)))
  {
    var request := s.calls[i].request;
    assert PhaseOk(s, i, s.calls[i]);
    var d := Decide(world, s.active, s.profile, s.rows, request, env);
    if d == Answer(PayloadMismatch) {
      var found := FindOwn(s.rows, RefOf(request)).value;
      var a :| 0 <= a < |s.rows| && s.rows[a] == Row(true, found);
      assert OtherPayload(Settle(s, i, Done(d.outcome), Idle), request);
    }
  }

  lemma ChainGrows(s: State, next: State, w: Write)
    requires Chained(s) && next.writes == s.writes + [w] && w.pending.before == s.profile
    requires next.profile == w.pending.after
    ensures Chained(next)
  {
    forall k | 0 <= k < |next.writes| ensures Follows(next.writes, k) {
      if k < |s.writes| { assert Follows(s.writes, k); }
    }
  }

  lemma WriteIsNew(world: World, s: State, w: Write, k: nat)
    requires k < |s.writes| && WriteOk(world, s, s.writes[k]) && w.call !in s.landed
    requires !TokenIn(s.rows, w.pending.receipt.token)
    ensures s.writes[k].call != w.call && s.writes[k].pending.receipt.token != w.pending.receipt.token
  {
  }

  lemma LandedWrites(world: World, s: State, next: State, w: Write)
    requires WritesOk(world, s) && next.writes == s.writes + [w] && s.rows <= next.rows
    requires next.calls == s.calls && next.landed == s.landed + {w.call} && w.call !in s.landed
    requires WriteOk(world, next, w) && !TokenIn(s.rows, w.pending.receipt.token)
    requires w.pending.before == s.profile && next.profile == w.pending.after
    ensures WritesOk(world, next)
  {
    ChainGrows(s, next, w);
    forall k | 0 <= k < |s.writes|
      ensures WriteOk(world, next, s.writes[k]) && s.writes[k].call != w.call
      ensures s.writes[k].pending.receipt.token != w.pending.receipt.token
    {
      assert WriteOk(world, s, s.writes[k]);
      WriteIsNew(world, s, w, k);
    }
    forall k | 0 <= k < |next.writes| ensures WriteOk(world, next, next.writes[k]) {}
    forall a, b | 0 <= a < b < |next.writes|
      ensures next.writes[a].call != next.writes[b].call
      ensures next.writes[a].pending.receipt.token != next.writes[b].pending.receipt.token
    {
      if b == |s.writes| { assert next.writes[a] == s.writes[a]; }
    }
  }

  lemma LandKeepsCalls(s: State, next: State, i: nat, p: Pending)
    requires CallsOk(s) && s.server == Committing(i, p) && i < |s.calls|
    requires s.calls[i].phase in {Sent(p.receipt), Done(Unknown), Done(OlderThrown)}
    requires next.calls == s.calls && s.rows <= next.rows && next.landed == s.landed + {i}
    requires next.writes == s.writes + [Write(i, s.calls[i].request, p)]
    ensures CallsOk(next)
  {
    assert PhaseOk(s, i, s.calls[i]);
    assert next.writes[|s.writes|].pending.receipt == p.receipt;
    assert HasWrite(next, i, s.calls[i].request, p.receipt);
    forall j | 0 <= j < |s.calls| ensures !s.calls[j].phase.Locked? { assert PhaseOk(s, j, s.calls[j]); }
    CallsKept(s, next, i);
  }

  lemma LandKeeps(world: World, s: State, next: State, i: nat, p: Pending)
    requires Valid(world, s) && s.server == Committing(i, p)
    requires next == s.(profile := p.after, rows := s.rows + [Row(true, p.receipt)], server := Idle,
                        writes := s.writes + [Write(i, s.calls[i].request, p)], landed := s.landed + {i})
    ensures Valid(world, next)
  {
    assert CallsOk(next) by { LandKeepsCalls(s, next, i, p); }
    assert WritesOk(world, next) by { LandedWrites(world, s, next, Write(i, s.calls[i].request, p)); }
    assert Unique(next.rows) by { UniqueGrows(s.rows, Row(true, p.receipt)); }
  }

  lemma StartKeeps(world: World, s: State, request: Request)
    requires Valid(world, s)
    ensures Valid(world, Next(world, s, Start(request)))
  {
    var next := Next(world, s, Start(request));
    CallsKept(s, next, |s.calls|);
    WritesKept(world, s, next);
  }

  lemma ServerStays(world: World, s: State, next: State, row: Row)
    requires ServerOk(world, s) && next == s.(rows := s.rows + [row])
    requires s.server.Committing? ==> s.server.pending.receipt.token != row.receipt.token
                                      && s.server.pending.receipt.ref != row.receipt.ref
    ensures ServerOk(world, next)
  {
    if s.server.Committing? { TokenInGrows(s.rows, row, s.server.pending.receipt.token, s.server.pending.receipt.ref); }
  }

  lemma OtherKeeps(world: World, s: State, next: State, row: Row)
    requires Valid(world, s) && MayAdd(s, row) && next == s.(rows := s.rows + [row])
    ensures Valid(world, next)
  {
    assert CallsOk(next) by { CallsKept(s, next, |s.calls|); }
    assert ServerOk(world, next) by { ServerStays(world, s, next, row); }
    assert WritesOk(world, next) by { WritesKept(world, s, next); }
    assert Unique(next.rows) by { UniqueGrows(s.rows, row); }
  }

  lemma RecatalogueKeeps(world: World, s: State, active: set<string>)
    requires Valid(world, s)
    ensures Valid(world, s.(active := active))
  {
    var next := s.(active := active);
    CallsKept(s, next, |s.calls|);
    WritesKept(world, s, next);
  }

  lemma LockKeeps(world: World, s: State, i: nat)
    requires Valid(world, s) && InPhase(s, i, Waiting) && s.server == Idle && s.calls[i].attempts < 2
    ensures Valid(world, Next(world, s, TakeLock(i)))
  {
    var next := Next(world, s, TakeLock(i));
    assert PhaseOk(s, i, s.calls[i]);
    CallsKept(s, next, i);
    WritesKept(world, s, next);
  }

  /** The server gives up the lock once no call is inside. */
  lemma ServerIdles(world: World, s: State)
    requires Valid(world, s)
    requires s.server.Open? ==> s.server.call < |s.calls| && s.calls[s.server.call].phase.Done?
    ensures Valid(world, s.(server := Idle))
  {
    var next := s.(server := Idle);
    forall j | 0 <= j < |s.calls| ensures !s.calls[j].phase.Locked? { assert PhaseOk(s, j, s.calls[j]); }
    CallsKept(s, next, |s.calls|);
    WritesKept(world, s, next);
  }

  lemma ServerAfterMove(world: World, s: State, i: nat, phase: Phase)
    requires ServerOk(world, s) && i < |s.calls|
    requires s.server.Open? && s.server.call == i ==> phase == Done(Thrown(s.calls[i].request))
    requires s.server.Committing? && s.server.call == i ==> phase in {Done(Unknown), Done(OlderThrown)}
    ensures ServerOk(world, Settle(s, i, phase, s.server))
  {
  }

  lemma MoveKeeps(world: World, s: State, i: nat, outcome: Outcome)
    requires Valid(world, s) && i < |s.calls|
    requires s.server.Open? && s.server.call == i ==> outcome == Thrown(s.calls[i].request)
    requires s.server.Committing? && s.server.call == i ==> outcome in {Unknown, OlderThrown}
    requires PhaseOk(Settle(s, i, Done(outcome), s.server), i, s.calls[i].(phase := Done(outcome)))
    ensures Valid(world, Settle(s, i, Done(outcome), s.server))
  {
    assert AttemptsOk(s.calls[i]);
    assert ServerOk(world, Settle(s, i, Done(outcome), s.server)) by { ServerAfterMove(world, s, i, Done(outcome)); }
    SettleKeeps(world, s, i, Done(outcome), s.server);
  }

  lemma DropKeeps(world: World, s: State, i: nat)
    requires Valid(world, s)
    ensures Valid(world, Next(world, s, Drop(i))) && Valid(world, Next(world, s, TurnAway(i)))
    ensures Valid(world, Next(world, s, Break(i)))
  {
    assert i < |s.calls| ==> PhaseOk(s, i, s.calls[i]);
    if InPhase(s, i, Waiting) {
      MoveKeeps(world, s, i, Thrown(s.calls[i].request));
      if s.calls[i].request.Browser? { MoveKeeps(world, s, i, NotAuthorized); }
    } else if InPhase(s, i, Locked) {
      MoveKeeps(world, s, i, Thrown(s.calls[i].request));
    }
  }

  lemma AckPhase(s: State, i: nat, receipt: Receipt, next: State)
    requires i < |s.calls| && s.calls[i].phase == Sent(receipt) && i in s.landed && PhaseOk(s, i, s.calls[i])
    requires next.writes == s.writes && next.landed == s.landed
    ensures PhaseOk(next, i, s.calls[i].(phase := Done(Committed(receipt))))
    ensures PhaseOk(next, i, s.calls[i].(phase := Done(OlderOk)))
  {
    HasWriteGrows(s, next, i, s.calls[i].request, receipt);
  }

  lemma AckKeeps(world: World, s: State, i: nat)
    requires Valid(world, s)
    ensures Valid(world, Next(world, s, Ack(i)))
  {
    if i < |s.calls| && s.calls[i].phase.Sent? && i in s.landed {
      var receipt := s.calls[i].phase.receipt;
      var outcome := if s.calls[i].request.Browser? then Committed(receipt) else OlderOk;
      assert PhaseOk(s, i, s.calls[i]);
      AckPhase(s, i, receipt, Settle(s, i, Done(outcome), s.server));
      MoveKeeps(world, s, i, outcome);
    }
  }

  lemma LoseKeeps(world: World, s: State, i: nat)
    requires Valid(world, s)
    ensures Valid(world, Next(world, s, Lose(i)))
  {
    if i < |s.calls| && s.calls[i].phase.Sent? {
      MoveKeeps(world, s, i, if s.calls[i].request.Browser? then Unknown else OlderThrown);
    }
  }

  lemma TakeLockKeeps(world: World, s: State, i: nat)
    requires Valid(world, s)
    ensures Valid(world, Next(world, s, TakeLock(i)))
  {
    if InPhase(s, i, Waiting) && s.server == Idle {
      assert AttemptsOk(s.calls[i]);
      LockKeeps(world, s, i);
    }
  }

  lemma EndKeeps(world: World, s: State)
    requires Valid(world, s)
    ensures Valid(world, Next(world, s, Abort)) && Valid(world, Next(world, s, ServerEnds))
  {
    if s.server.Committing? || (s.server.Open? && s.calls[s.server.call].phase.Done?) {
      ServerIdles(world, s);
    }
  }

  /** The steps of one call, up to the answer its client hears. */
  lemma CallStepKeeps(world: World, s: State, step: Step)
    requires Valid(world, s) && (step.Start? || step.Drop? || step.TurnAway? || step.TakeLock? || step.Body?
                                 || step.Break? || step.Ack? || step.Lose?)
    ensures Valid(world, Next(world, s, step))
  {
    match step
    case Start(request) => StartKeeps(world, s, request);
    case Drop(i) => DropKeeps(world, s, i);
    case TurnAway(i) => DropKeeps(world, s, i);
    case TakeLock(i) => TakeLockKeeps(world, s, i);
    case Body(i, env) => if InPhase(s, i, Locked) && s.server == Open(i) { BodyKeeps(world, s, i, env); }
    case Break(i) => DropKeeps(world, s, i);
    case Ack(i) => AckKeeps(world, s, i);
    case Lose(i) => LoseKeeps(world, s, i);
  }

  lemma NextKeepsValid(world: World, s: State, step: Step)
    requires Valid(world, s)
    ensures Valid(world, Next(world, s, step))
  {
    match step
    case ServerEnds => EndKeeps(world, s);
    case Land => if s.server.Committing? { LandKeeps(world, s, Next(world, s, step), s.server.call, s.server.pending); }
    case Abort => EndKeeps(world, s);
    case Other(row) => if MayAdd(s, row) { OtherKeeps(world, s, Next(world, s, step), row); }
    case Recatalogue(active) => RecatalogueKeeps(world, s, active);
    case _ => CallStepKeeps(world, s, step);
  }

  // ---------------------------------------------------------------- whole runs

  lemma {:induction false} PlayValid(world: World, s: State, steps: seq<Step>)
    requires Valid(world, s)
    ensures Valid(world, Play(world, s, steps))
    decreases |steps|
  {
    if |steps| > 0 {
      PlayValid(world, s, steps[..|steps| - 1]);
      NextKeepsValid(world, Play(world, s, steps[..|steps| - 1]), steps[|steps| - 1]);
    }
  }

  lemma HeldGrows(rows: seq<Row>, row: Row)
    ensures HeldReceipts(rows + [row]) ==
            HeldReceipts(rows) + if row.own && row.receipt.token.BrowserRef? then [row.receipt] else []
  {
    assert (rows + [row])[..|rows|] == rows;
  }

  lemma WrittenGrows(writes: seq<Write>, w: Write)
    ensures WrittenReceipts(writes + [w]) ==
            WrittenReceipts(writes) + if w.pending.receipt.token.BrowserRef? then [w.pending.receipt] else []
  {
    assert (writes + [w])[..|writes|] == writes;
  }

  lemma TablesStay(world: World, s: State, step: Step)
    requires !step.Land? && !step.Other?
    ensures Next(world, s, step).rows == s.rows && Next(world, s, step).writes == s.writes
  {
  }

  /** The receipts held are those that were written. */
  predicate ReceiptsMatch(rows: seq<Row>, writes: seq<Write>) { HeldReceipts(rows) == WrittenReceipts(writes) }

  lemma LandKeepsReceipts(rows: seq<Row>, writes: seq<Write>, w: Write)
    requires ReceiptsMatch(rows, writes)
    ensures ReceiptsMatch(rows + [Row(true, w.pending.receipt)], writes + [w])
  {
    HeldGrows(rows, Row(true, w.pending.receipt));
    WrittenGrows(writes, w);
  }

  lemma OtherKeepsReceipts(rows: seq<Row>, writes: seq<Write>, row: Row)
    requires ReceiptsMatch(rows, writes) && (row.own ==> row.receipt.token.OlderRef?)
    ensures ReceiptsMatch(rows + [row], writes)
  {
    HeldGrows(rows, row);
  }

  lemma NextKeepsReceipts(world: World, s: State, step: Step)
    requires ReceiptsMatch(s.rows, s.writes)
    ensures ReceiptsMatch(Next(world, s, step).rows, Next(world, s, step).writes)
  {
    if step.Land? && s.server.Committing? && s.server.call < |s.calls| {
      var i, p := s.server.call, s.server.pending;
      LandKeepsReceipts(s.rows, s.writes, Write(i, s.calls[i].request, p.(before := s.profile)));
    } else if step.Other? && MayAdd(s, step.row) {
      OtherKeepsReceipts(s.rows, s.writes, step.row);
    } else if !step.Land? && !step.Other? {
      TablesStay(world, s, step);
    }
  }

  /**
   * Over every run a token causes at most one field write and one receipt, the two come together, and
   * each write was made under its token's own conditions, on the profile the write before it left.
   */
  lemma {:induction false} TokenSavesOnce(world: World, steps: seq<Step>)
    ensures var s := Play(world, Init(), steps);
            && (forall a, b :: 0 <= a < b < |s.writes| ==> RefOf(s.writes[a].request) != RefOf(s.writes[b].request))
            && Unique(s.rows)
            && HeldReceipts(s.rows) == WrittenReceipts(s.writes)
            && (forall k :: 0 <= k < |s.writes| ==> Rightful(world, s.writes[k].request, s.writes[k].pending))
            && Chained(s)
    decreases |steps|
  {
    var s := Play(world, Init(), steps);
    assert Valid(world, Init());
    PlayValid(world, Init(), steps);
    forall k | 0 <= k < |s.writes|
      ensures Rightful(world, s.writes[k].request, s.writes[k].pending)
      ensures s.writes[k].pending.receipt.token == RefOf(s.writes[k].request)
    {
      assert WriteOk(world, s, s.writes[k]);
    }
    if |steps| > 0 {
      TokenSavesOnce(world, steps[..|steps| - 1]);
      PlayValid(world, Init(), steps[..|steps| - 1]);
      NextKeepsReceipts(world, Play(world, Init(), steps[..|steps| - 1]), steps[|steps| - 1]);
    }
  }

  /** The outcomes after which the write may have landed. */
  predicate MayHaveLanded(phase: Phase) {
    phase.Sent? || (phase.Done? && (phase.outcome in {Unknown, OlderOk, OlderThrown} || phase.outcome.Committed?))
  }

  lemma AnswerHasRow(world: World, s: State, i: nat, receipt: Receipt)
    requires WritesOk(world, s) && i < |s.calls| && PhaseOk(s, i, s.calls[i])
    requires s.calls[i].phase in {Done(Committed(receipt)), Done(AlreadyCommitted(receipt))}
    ensures Row(true, receipt) in s.rows && Fits(s.calls[i].request, receipt)
  {
    if s.calls[i].phase.outcome.Committed? {
      assert HasWrite(s, i, s.calls[i].request, receipt);
      var k :| 0 <= k < |s.writes| && IsWrite(s.writes[k], i, s.calls[i].request, receipt);
      assert WriteOk(world, s, s.writes[k]);
    }
  }

  /** What a caller may conclude from its outcome, at that moment and at any later one. */
  lemma OutcomesTell(world: World, steps: seq<Step>, i: nat)
    requires i < |Play(world, Init(), steps).calls|
    ensures var s := Play(world, Init(), steps); var call := s.calls[i];
            && (forall r :: call.phase in {Done(Committed(r)), Done(AlreadyCommitted(r))} ==>
                    Row(true, r) in s.rows && Fits(call.request, r))
            && (forall k :: 0 <= k < |s.writes| && s.writes[k].call == i ==> MayHaveLanded(call.phase))
            && call.attempts <= 2
  {
    var s := Play(world, Init(), steps);
    assert Valid(world, Init());
    PlayValid(world, Init(), steps);
    OutcomesTellIn(world, s, i);
  }

  lemma OutcomesTellIn(world: World, s: State, i: nat)
    requires Valid(world, s) && i < |s.calls|
    ensures forall r :: s.calls[i].phase in {Done(Committed(r)), Done(AlreadyCommitted(r))} ==>
                Row(true, r) in s.rows && Fits(s.calls[i].request, r)
    ensures forall k :: 0 <= k < |s.writes| && s.writes[k].call == i ==> MayHaveLanded(s.calls[i].phase)
    ensures s.calls[i].attempts <= 2
  {
    assert PhaseOk(s, i, s.calls[i]) && AttemptsOk(s.calls[i]);
    if s.calls[i].phase.Done? && (s.calls[i].phase.outcome.Committed? || s.calls[i].phase.outcome.AlreadyCommitted?) {
      AnswerHasRow(world, s, i, s.calls[i].phase.outcome.receipt);
    }
    forall k | 0 <= k < |s.writes| && s.writes[k].call == i ensures MayHaveLanded(s.calls[i].phase) {
      assert WriteOk(world, s, s.writes[k]);
    }
  }

  predicate Replays(call: Call, receipt: Receipt) {
    call.phase in {Waiting, Locked, Done(NotAuthorized), Done(Retryable),
                   Done(if receipt.change == ChangeOf(call.request) then AlreadyCommitted(receipt)
                        else PayloadMismatch)}
  }

  predicate UsesToken(call: Call, token: Token) { call.request.Browser? && call.request.token == token }

  /** Call `i` has not started, or not reached its decision. */
  predicate NotDecided(s: State, i: nat) { i < |s.calls| ==> s.calls[i].phase in {Waiting, Locked} }

  predicate ReceiptOf(token: Token, receipt: Receipt) {
    receipt.token == BrowserRef(token.id) && receipt.browser && receipt.field == token.field
  }

  /** With the receipt in the table an authorized save answers from it, however late it is. */
  lemma DecideReplays(world: World, s: State, request: Request, receipt: Receipt, env: Env)
    requires Unique(s.rows) && Row(true, receipt) in s.rows && request.Browser? && ReceiptOf(request.token, receipt)
    ensures Decide(world, s.active, s.profile, s.rows, request, env) ==
            Answer(if !env.live then NotAuthorized
                   else if receipt.change == ChangeOf(request) then AlreadyCommitted(receipt) else PayloadMismatch)
  {
    FindsTheReceipt(s.rows, receipt);
  }

  lemma StepGrows(world: World, s: State, step: Step)
    ensures var next := Next(world, s, step);
            && s.rows <= next.rows && s.writes <= next.writes && |s.calls| <= |next.calls|
            && (forall j :: 0 <= j < |s.calls| ==> next.calls[j].request == s.calls[j].request)
            && (forall j :: |s.calls| <= j < |next.calls| ==> next.calls[j].phase == Waiting)
  {
  }

  lemma StepReplays(world: World, s: State, step: Step, i: nat, receipt: Receipt)
    requires Valid(world, s) && Row(true, receipt) in s.rows && i < |s.calls|
    requires s.calls[i].request.Browser? && ReceiptOf(s.calls[i].request.token, receipt) && Replays(s.calls[i], receipt)
    ensures i < |Next(world, s, step).calls| && Replays(Next(world, s, step).calls[i], receipt)
  {
    if step.Body? && step.call == i {
      DecideReplays(world, s, s.calls[i].request, receipt, step.env);
    }
  }

  /**
   * Once a token's receipt exists no later save with that token writes anything, and one that is
   * authorized returns that same receipt, or the mismatch if its payload differs.
   */
  lemma {:induction false} ReceiptSettlesToken(world: World, s: State, k: nat, steps: seq<Step>)
    requires Valid(world, s) && k < |s.writes| && s.writes[k].request.Browser?
    ensures var t := Play(world, s, steps);
            var token, receipt := s.writes[k].request.token, s.writes[k].pending.receipt;
            && s.rows <= t.rows && s.writes <= t.writes && |s.calls| <= |t.calls|
            && (forall m :: |s.writes| <= m < |t.writes| ==> RefOf(t.writes[m].request) != BrowserRef(token.id))
            && (forall i :: 0 <= i < |t.calls| && UsesToken(t.calls[i], token) && NotDecided(s, i) ==>
                    Replays(t.calls[i], receipt))
            && (forall i :: 0 <= i < |s.calls| ==> t.calls[i].request == s.calls[i].request)
    decreases |steps|
  {
    var token, receipt := s.writes[k].request.token, s.writes[k].pending.receipt;
    assert WriteOk(world, s, s.writes[k]);
    if |steps| > 0 {
      var before, step := Play(world, s, steps[..|steps| - 1]), steps[|steps| - 1];
      var t := Next(world, before, step);
      ReceiptSettlesToken(world, s, k, steps[..|steps| - 1]);
      PlayValid(world, s, steps[..|steps| - 1]);
      PlayValid(world, s, steps);
      StepGrows(world, before, step);
      NewWritesDiffer(world, s, t, k);
      forall i | 0 <= i < |t.calls| && UsesToken(t.calls[i], token) && NotDecided(s, i)
        ensures Replays(t.calls[i], receipt)
      {
        if i < |before.calls| { StepReplays(world, before, step, i, receipt); }
      }
    }
  }

  lemma NewWritesDiffer(world: World, s: State, t: State, k: nat)
    requires Valid(world, t) && s.writes <= t.writes && k < |s.writes|
    ensures forall m :: |s.writes| <= m < |t.writes| ==> RefOf(t.writes[m].request) != s.writes[k].pending.receipt.token
  {
    assert t.writes[k] == s.writes[k];
    forall m | |s.writes| <= m < |t.writes| ensures RefOf(t.writes[m].request) != s.writes[k].pending.receipt.token {
      assert WriteOk(world, t, t.writes[m]);
    }
  }

  lemma {:induction false} WritesKeepKuwaitiRule(world: World, s: State, k: nat)
    requires k <= |s.writes| && Chained(s)
    requires forall m :: 0 <= m < |s.writes| ==> Rightful(world, s.writes[m].request, s.writes[m].pending)
    ensures KuwaitiRule(world, ProfileAfter(s.writes, k))
  {
    if k > 0 {
      WritesKeepKuwaitiRule(world, s, k - 1);
      var w := s.writes[k - 1];
      assert Follows(s.writes, k - 1) && Rightful(world, w.request, w.pending);
      var text := if w.request.Browser? then w.request.value.s else w.request.text;
      WriteKeepsKuwaitiRule(world, w.pending.active, w.pending.before, FieldOf(w.request), text);
    }
  }

  /** In every reachable profile a Kuwaiti nationality leaves the mother's answer null and unwritten. */
  lemma KuwaitiRuleHolds(world: World, steps: seq<Step>)
    ensures KuwaitiRule(world, Play(world, Init(), steps).profile)
  {
    var s := Play(world, Init(), steps);
    TokenSavesOnce(world, steps);
    WritesKeepKuwaitiRule(world, s, |s.writes|);
  }

  // ---------------------------------------------------------------- what the profile holds

  /** What the first `n` writes leave in a field: each enters its value, or clears the mother's answer. */
  function CellAfter(world: World, writes: seq<Write>, n: nat, field: Field): Cell
    requires n <= |writes|
  {
    if n == 0 then Cell(None, false)
    else
      var request, before := writes[n - 1].request, CellAfter(world, writes, n - 1, field);
      match request
      case Browser(token, value) =>
        if value.Text? then Entered(world, token.field, value.s, field, before) else before
      case Older(_, written, text, _, _, _) => Entered(world, written, text, field, before)
  }

  lemma RightfulEnters(world: World, w: Write, field: Field)
    requires Rightful(world, w.request, w.pending) && !world.column(Nationality, "").Accepts?
    ensures var text := if w.request.Browser? then w.request.value.s else w.request.text;
            Get(w.pending.after, field) ==
            Entered(world, FieldOf(w.request), text, field, Get(w.pending.before, field))
  {
    var text := if w.request.Browser? then w.request.value.s else w.request.text;
    WriteTouches(world, w.pending.active, w.pending.before, FieldOf(w.request), text, field);
  }

  lemma {:induction false} WritesEnter(world: World, s: State, n: nat, field: Field)
    requires n <= |s.writes| && Chained(s) && !world.column(Nationality, "").Accepts?
    requires forall k :: 0 <= k < |s.writes| ==> Rightful(world, s.writes[k].request, s.writes[k].pending)
    ensures Get(ProfileAfter(s.writes, n), field) == CellAfter(world, s.writes, n, field)
  {
    if n > 0 {
      var w := s.writes[n - 1];
      WritesEnter(world, s, n - 1, field);
      assert Follows(s.writes, n - 1) && Rightful(world, w.request, w.pending);
      RightfulEnters(world, w, field);
    }
  }

  /** Over every run each field holds what the committed saves entered last, and nothing else changed it. */
  lemma ProfileHoldsWhatWasSaved(world: World, steps: seq<Step>, field: Field)
    requires !world.column(Nationality, "").Accepts?
    ensures var s := Play(world, Init(), steps);
            Get(s.profile, field) == CellAfter(world, s.writes, |s.writes|, field)
  {
    var s := Play(world, Init(), steps);
    TokenSavesOnce(world, steps);
    WritesEnter(world, s, |s.writes|, field);
  }

  /** A call that answers `Committed` made exactly one of those writes. */
  lemma CommittedIsAWrite(world: World, steps: seq<Step>, i: nat, receipt: Receipt)
    requires var s := Play(world, Init(), steps); i < |s.calls| && s.calls[i].phase == Done(Committed(receipt))
    ensures var s := Play(world, Init(), steps);
            exists k :: 0 <= k < |s.writes| && IsWrite(s.writes[k], i, s.calls[i].request, receipt)
  {
    var s := Play(world, Init(), steps);
    assert Valid(world, Init());
    PlayValid(world, Init(), steps);
    assert PhaseOk(s, i, s.calls[i]) && HasWrite(s, i, s.calls[i].request, receipt);
  }
}
