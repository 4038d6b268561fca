/** Approval requests and decisions: create_approval_request, record_approval_decision, the non-final wait, and the
    two callers that a card callback and a chat message reach them by. */
module ApprovalService {
  import opened Wrappers
  import opened UuidText
  import opened ApprovalText
  import opened ArtifactPolicy
  import Identity = IdentityHistory

  datatype Action = DevelopmentPlan | MergePr | ProductionDeploy | RollbackProduction

  datatype Environment = Development | Staging | Production

  datatype Request = Request(
    user: nat,
    action: Action,
    repository: string,
    pullRequest: Option<int>,
    targetSha: string,
    environment: Environment,
    deployment: Option<Uuid>,
    digest: Option<string>,
    key: string,
    requestedAt: int,
    expiresAt: int)

  /** `openId` stands for its own fingerprint. */
  datatype DecisionRow = DecisionRow(
    id: nat,
    decision: Decision,
    actor: nat,
    mapping: Option<Identity.Key>,
    openId: string,
    event: string,
    decidedAt: int)

  /** The two tables; decisions are keyed by their unique request, `decisionIds` and `events` are the indexes of
      the other unique columns, `requestKeys` that of the idempotency key. */
  datatype Approvals = Approvals(
    requests: map<Uuid, Request>,
    requestKeys: map<string, Uuid>,
    decisions: map<Uuid, DecisionRow>,
    decisionIds: map<nat, Uuid>,
    events: map<string, Uuid>)

  const NO_APPROVALS := Approvals(map[], map[], map[], map[], map[])

  datatype Outcome =
    | Malformed
    | InvalidEvent
    | Unauthorized
    | UnknownRequest
    | Expired
    | AlreadyDecided
    | EventConflict
    | Conflict
    | Unavailable
    | StillWaiting
    | Duplicate(decision: Decision)
    | Recorded(decision: Decision)

  // ---------------------------------------------------------------- requests

  function EnvironmentOf(action: Action): Environment {
    match action
    case DevelopmentPlan => Development
    case MergePr => Staging
    case ProductionDeploy => Production
    case RollbackProduction => Production
  }

  /** validate_approval_request_fields. */
  predicate ValidRequest(r: Request, ttl: int) {
    && ValidRepository(r.repository)
    && (r.pullRequest.Some? ==> r.pullRequest.value >= 1)
    && ValidSha(r.targetSha)
    && ValidKey(r.key)
    && 1 <= ttl <= MAX_TTL
    && (r.action.MergePr? ==> r.pullRequest.Some?)
    && r.environment == EnvironmentOf(r.action)
  }

  predicate SameRequest(a: Request, b: Request) {
    && a.user == b.user && a.action == b.action && a.repository == b.repository && a.pullRequest == b.pullRequest
    && a.targetSha == b.targetSha && a.environment == b.environment
  }

  const MAX_TTL := 86400

  /** The check constraints of the table: expiry, pull request number, action and target, deployment binding. */
  predicate Constrained(r: Request) {
    && r.requestedAt < r.expiresAt
    && (r.pullRequest.Some? ==> r.pullRequest.value > 0)
    && r.environment == EnvironmentOf(r.action) && (r.action.MergePr? ==> r.pullRequest.Some?)
    && (r.deployment.Some? <==> r.digest.Some?)
  }

  /** The insertion of a request, guarded by its constraints, the unique idempotency key and the primary key. */
  function Insert(a: Approvals, id: Uuid, r: Request): Result<Approvals, string> {
    if !Constrained(r) then Failure("check_violation")
    else if id in a.requests || r.key in a.requestKeys then Failure("unique_violation")
    else Success(a.(requests := a.requests[id := r], requestKeys := a.requestKeys[r.key := id]))
  }

  /** create_approval_request: it never binds a deployment. */
  function CreateRequest(a: Approvals, id: Uuid, r: Request, ttl: int, now: int): Result<Approvals, string> {
    if !ValidRequest(r, ttl) then Failure("invalid_request")
    else if r.key in a.requestKeys then
      var existing := a.requestKeys[r.key];
      if existing in a.requests && SameRequest(a.requests[existing], r) then Success(a)
      else Failure("idempotency_key conflict")
    else Insert(a, id, r.(deployment := None, digest := None, requestedAt := now, expiresAt := now + ttl))
  }

  // ---------------------------------------------------------------- decisions

  datatype Call = Call(command: Command, event: string, actor: nat, openId: string, mapping: Option<Identity.Key>)

  predicate ValidEvent(event: string) {
    event != "" && |event| <= 200
  }

  predicate MatchingDuplicate(row: DecisionRow, request: Uuid, call: Call) {
    && request == call.command.requestId && row.decision == call.command.decision
    && row.actor == call.actor && row.openId == call.openId
  }

  /** The decision already recorded for this event, if any. */
  function EventOutcome(a: Approvals, call: Call): Option<Outcome> {
    if call.event in a.events && a.events[call.event] in a.decisions then
      var request := a.events[call.event];
      if MatchingDuplicate(a.decisions[request], request, call) then Some(Duplicate(call.command.decision))
      else Some(EventConflict)
    else None
  }

  /** A deployment-bound request is decided only by a mapped identity other than the requester. */
  predicate Separated(r: Request, call: Call) {
    r.deployment.Some? ==> call.mapping.Some? && r.user != call.actor
  }

  function RowOf(call: Call, id: nat, now: int): DecisionRow {
    DecisionRow(id, call.command.decision, call.actor, call.mapping, call.openId, call.event, now)
  }

  /** The insertion of a decision, guarded by its three unique columns. */
  function InsertDecision(a: Approvals, call: Call, id: nat, now: int): Option<Approvals> {
    var request := call.command.requestId;
    if request in a.decisions || call.event in a.events || id in a.decisionIds then None
    else
      Some(a.(decisions := a.decisions[request := RowOf(call, id, now)],
              decisionIds := a.decisionIds[id := request],
              events := a.events[call.event := request]))
  }

  /** record_approval_decision as one step; `now` is the clock read under the row lock. */
  function Record(a: Approvals, call: Call, id: nat, now: int): (Approvals, Outcome) {
    var request := call.command.requestId;
    if !ValidEvent(call.event) then (a, InvalidEvent)
    else if EventOutcome(a, call).Some? then (a, EventOutcome(a, call).value)
    else if request !in a.requests then (a, UnknownRequest)
    else if !Separated(a.requests[request], call) then (a, Unauthorized)
    else if now >= a.requests[request].expiresAt then (a, Expired)
    else if request in a.decisions then (a, AlreadyDecided)
    else
      match InsertDecision(a, call, id, now)
      case Some(b) => (b, Recorded(call.command.decision))
      case None => (a, Conflict)
  }

  /** inspect_pending_approval_request: it only ever reads. */
  function Inspect(a: Approvals, request: Uuid, now: int): Outcome {
    if request !in a.requests then UnknownRequest
    else if now >= a.requests[request].expiresAt then Expired
    else if request in a.decisions then AlreadyDecided
    else StillWaiting
  }

  // ---------------------------------------------------------------- callers

  datatype Policy = Policy(
    tenants: set<string>, openIds: set<string>, chatTypes: set<string>, approvers: set<string>, supervisionChat: string)

  /** Absent and empty are the same to the callers. */
  predicate Among(value: Option<string>, allowed: set<string>) {
    value.Some? && value.value != "" && value.value in allowed
  }

  predicate IsApprover(policy: Policy, tenant: Option<string>, openId: Option<string>, chat: Option<string>) {
    && Among(tenant, policy.tenants) && Among(openId, policy.openIds) && openId.value in policy.approvers
    && policy.supervisionChat != "" && chat == Some(policy.supervisionChat)
  }

  datatype CardCall = CardCall(
    action: string, request: Uuid, tenant: Option<string>, operator: Option<string>, chat: Option<string>,
    event: string, actor: nat, mapping: Option<Identity.Key>)

  /** process_approval_card_action. */
  function ProcessCard(a: Approvals, policy: Policy, card: CardCall, id: nat, now: int): (Approvals, Outcome) {
    if card.action !in CARD_ACTIONS then (a, Outcome.Malformed)
    else if !ValidEvent(card.event) then (a, InvalidEvent)
    else if !IsApprover(policy, card.tenant, card.operator, card.chat) then (a, Unauthorized)
    else if card.action == "wait" then (a, Inspect(a, card.request, now))
    else
      var decision := if card.action == "approve" then Approved else Rejected;
      var command := Command(decision, card.request);
      Record(a, Call(command, card.event, card.actor, card.operator.value, card.mapping), id, now)
  }

  datatype MessageCall = MessageCall(
    text: string, tenant: Option<string>, senderType: Option<string>, sender: Option<string>,
    chatType: Option<string>, chat: Option<string>, event: string, actor: nat)

  /** process_approval_message; None when the text is no approval command at all. */
  function ProcessMessage(a: Approvals, policy: Policy, m: MessageCall, id: nat, now: int)
    : (Approvals, Option<Outcome>)
  {
    match ParseCommand(m.text)
    case NotApproval => (a, None)
    case Malformed => (a, Some(Outcome.Malformed))
    case Parsed(command) =>
      if || m.senderType != Some("user") || !Among(m.chatType, policy.chatTypes)
         || !IsApprover(policy, m.tenant, m.sender, m.chat)
      then (a, Some(Unauthorized))
      else
        var (b, outcome) := Record(a, Call(command, m.event, m.actor, m.sender.value, None), id, now);
        (b, Some(outcome))
  }

  // ---------------------------------------------------------------- what every table keeps

  /** Every decision is of a known request, taken strictly before its expiry and, for a deployment, by a mapped
      identity other than the requester; the indexes agree with the rows. */
  ghost predicate Decided(a: Approvals, request: Uuid, row: DecisionRow) {
    && request in a.requests && row.decidedAt < a.requests[request].expiresAt
    && (a.requests[request].deployment.Some? ==> row.mapping.Some? && row.actor != a.requests[request].user)
    && row.event in a.events && a.events[row.event] == request
    && row.id in a.decisionIds && a.decisionIds[row.id] == request
  }

  /** A request can be found by its key, meets the constraints and lives no longer than a day. */
  predicate RequestIndexed(a: Approvals, id: Uuid) {
    id in a.requests ==>
      && a.requests[id].key in a.requestKeys && a.requestKeys[a.requests[id].key] == id
      && Constrained(a.requests[id]) && a.requests[id].expiresAt <= a.requests[id].requestedAt + MAX_TTL
  }

  predicate KeyKnown(a: Approvals, key: string) {
    key in a.requestKeys ==> a.requestKeys[key] in a.requests && a.requests[a.requestKeys[key]].key == key
  }

  ghost predicate DecisionSound(a: Approvals, request: Uuid) {
    request in a.decisions ==> Decided(a, request, a.decisions[request])
  }

  predicate EventKnown(a: Approvals, event: string) {
    event in a.events ==> a.events[event] in a.decisions && a.decisions[a.events[event]].event == event
  }

  predicate IdKnown(a: Approvals, id: nat) {
    id in a.decisionIds ==> a.decisionIds[id] in a.decisions && a.decisions[a.decisionIds[id]].id == id
  }

  ghost predicate Sound(a: Approvals) {
    && (forall id :: RequestIndexed(a, id))
    && (forall key :: KeyKnown(a, key))
    && (forall request :: DecisionSound(a, request))
    && (forall event :: EventKnown(a, event))
    && (forall id :: IdKnown(a, id))
  }

  lemma InsertKeeps(a: Approvals, id: Uuid, r: Request)
    requires Sound(a) && Insert(a, id, r).Success? && r.expiresAt <= r.requestedAt + MAX_TTL
    ensures Sound(Insert(a, id, r).value)
  {
    var b := Insert(a, id, r).value;
    forall other ensures RequestIndexed(b, other) {
      assert RequestIndexed(a, other);
    }
    forall key ensures KeyKnown(b, key) {
      assert KeyKnown(a, key);
    }
    forall request ensures DecisionSound(b, request) {
      assert DecisionSound(a, request);
    }
    forall event ensures EventKnown(b, event) {
      assert EventKnown(a, event);
    }
    forall decision ensures IdKnown(b, decision) {
      assert IdKnown(a, decision);
    }
  }

  lemma InsertDecisionKeeps(a: Approvals, call: Call, id: nat, now: int)
    requires Sound(a) && InsertDecision(a, call, id, now).Some?
    requires call.command.requestId in a.requests && Separated(a.requests[call.command.requestId], call)
    requires now < a.requests[call.command.requestId].expiresAt
    ensures Sound(InsertDecision(a, call, id, now).value)
  {
    var b := InsertDecision(a, call, id, now).value;
    forall other ensures RequestIndexed(b, other) {
      assert RequestIndexed(a, other);
    }
    forall key ensures KeyKnown(b, key) {
      assert KeyKnown(a, key);
    }
    forall request ensures DecisionSound(b, request) {
      assert DecisionSound(a, request);
    }
    forall event ensures EventKnown(b, event) {
      assert EventKnown(a, event);
    }
    forall decision ensures IdKnown(b, decision) {
      assert IdKnown(a, decision);
    }
  }

  lemma RecordKeeps(a: Approvals, call: Call, id: nat, now: int)
    requires Sound(a)
    ensures Sound(Record(a, call, id, now).0)
  {
    if Record(a, call, id, now).1.Recorded? {
      InsertDecisionKeeps(a, call, id, now);
    }
  }

  /** A call is recorded exactly when its event is new and has one to two hundred characters, its request known, open,
      undecided and, if bound to a deployment, asked of a mapped identity other than the requester, and the row's own id
      is unused; only then do the tables change, and then by that one row. */
  lemma RecordsExactly(a: Approvals, call: Call, id: nat, now: int)
    requires Sound(a)
    ensures var request, (b, outcome) := call.command.requestId, Record(a, call, id, now);
      && (outcome.Recorded? <==>
            && 1 <= |call.event| <= 200 && call.event !in a.events && id !in a.decisionIds
            && request in a.requests && request !in a.decisions && now < a.requests[request].expiresAt
            && (a.requests[request].deployment.Some? ==>
                  call.mapping.Some? && call.actor != a.requests[request].user))
      && (outcome.Recorded? ==>
            && outcome.decision == call.command.decision
            && b == Approvals(
                 a.requests, a.requestKeys,
                 a.decisions[request := DecisionRow(
                   id, call.command.decision, call.actor, call.mapping, call.openId, call.event, now)],
                 a.decisionIds[id := request], a.events[call.event := request]))
      && (!outcome.Recorded? ==> b == a)
  {
    assert EventKnown(a, call.event);
  }

  /** And every other answer, in the order in which the tests are made. */
  lemma RefusesExactly(a: Approvals, call: Call, id: nat, now: int)
    requires Sound(a)
    ensures var request, outcome := call.command.requestId, Record(a, call, id, now).1;
      var valid := 1 <= |call.event| <= 200;
      var unused := valid && call.event !in a.events;
      var known := unused && request in a.requests;
      var separated := known
        && (a.requests[request].deployment.Some? ==> call.mapping.Some? && call.actor != a.requests[request].user);
      var open := separated && now < a.requests[request].expiresAt;
      && (outcome.InvalidEvent? <==> !valid)
      && (valid && call.event in a.events ==>
            a.events[call.event] in a.decisions &&
            var row := a.decisions[a.events[call.event]];
            outcome ==
              if && a.events[call.event] == request && row.decision == call.command.decision
                 && row.actor == call.actor && row.openId == call.openId
              then Duplicate(call.command.decision) else EventConflict)
      && (outcome.UnknownRequest? <==> unused && !known)
      && (outcome.Unauthorized? <==> known && !separated)
      && (outcome.Expired? <==> separated && !open)
      && (outcome.AlreadyDecided? <==> open && request in a.decisions)
      && (outcome.Conflict? <==> open && request !in a.decisions && id in a.decisionIds)
  {
    assert EventKnown(a, call.event);
  }

  lemma UnmappedNeverDecides(a: Approvals, call: Call, id: nat, now: int, request: Uuid)
    requires Sound(a) && call.mapping.None?
    requires request in a.requests && a.requests[request].deployment.Some?
    ensures var b := Record(a, call, id, now).0;
      (request in b.decisions <==> request in a.decisions)
      && (request in a.decisions ==> b.decisions[request] == a.decisions[request])
  {
    RecordsExactly(a, call, id, now);
  }

  /** The text path passes no mapping, so whoever sends it, it never decides a deployment-bound request. */
  lemma TextNeverDecidesDeployments(a: Approvals, policy: Policy, m: MessageCall, id: nat, now: int, request: Uuid)
    requires Sound(a) && request in a.requests && a.requests[request].deployment.Some?
    ensures var b := ProcessMessage(a, policy, m, id, now).0;
      (request in b.decisions <==> request in a.decisions)
      && (request in a.decisions ==> b.decisions[request] == a.decisions[request])
  {
    match ParseCommand(m.text)
    case Parsed(command) =>
      if m.sender.Some? {
        UnmappedNeverDecides(a, Call(command, m.event, m.actor, m.sender.value, None), id, now, request);
      }
    case _ => {}
  }

  /** The lists and the chat, test by test. */
  predicate Permitted(policy: Policy, tenant: Option<string>, openId: Option<string>, chat: Option<string>) {
    && tenant.Some? && tenant.value != "" && tenant.value in policy.tenants
    && openId.Some? && openId.value != "" && openId.value in policy.openIds && openId.value in policy.approvers
    && policy.supervisionChat != "" && chat.Some? && chat.value == policy.supervisionChat
  }

  /** "wait" is never final: it changes nothing, and answers StillWaiting exactly for a request that could still be
      decided. */
  lemma WaitChangesNothing(a: Approvals, policy: Policy, card: CardCall, id: nat, now: int)
    requires card.action == "wait"
    ensures ProcessCard(a, policy, card, id, now).0 == a
    ensures ProcessCard(a, policy, card, id, now).1.StillWaiting? <==>
      && 1 <= |card.event| <= 200 && Permitted(policy, card.tenant, card.operator, card.chat)
      && card.request in a.requests && now < a.requests[card.request].expiresAt && card.request !in a.decisions
  {
  }

  /** What a card action does, whatever it is: "approve" records an approval and "reject" a rejection, exactly if the
      operator passes every list and the chat test and the request can be decided by this call; the row holds the
      operator, the user, the mapping and the event of the callback. Nothing else ever changes the tables. Who fails one
      of the tests is told so, before the request is even looked at. */
  lemma CardsExactly(a: Approvals, policy: Policy, card: CardCall, id: nat, now: int)
    requires Sound(a)
    ensures var (b, outcome) := ProcessCard(a, policy, card, id, now);
      var known := card.action == "approve" || card.action == "reject" || card.action == "wait";
      var valid := known && 1 <= |card.event| <= 200;
      && (outcome.Malformed? <==> !known)
      && (outcome.InvalidEvent? <==> known && !valid)
      && (valid && !Permitted(policy, card.tenant, card.operator, card.chat) ==> outcome.Unauthorized?)
      && (outcome.Recorded? <==>
            && valid && Permitted(policy, card.tenant, card.operator, card.chat) && card.action != "wait"
            && card.event !in a.events && id !in a.decisionIds
            && card.request in a.requests && card.request !in a.decisions && now < a.requests[card.request].expiresAt
            && (a.requests[card.request].deployment.Some? ==>
                  card.mapping.Some? && card.actor != a.requests[card.request].user))
      && (outcome.Recorded? ==>
            var decision := if card.action == "approve" then Approved else Rejected;
            && outcome.decision == decision
            && b == Approvals(
                 a.requests, a.requestKeys,
                 a.decisions[card.request := DecisionRow(
                   id, decision, card.actor, card.mapping, card.operator.value, card.event, now)],
                 a.decisionIds[id := card.request], a.events[card.event := card.request]))
      && (!outcome.Recorded? ==> b == a)
  {
    if card.operator.Some? {
      var decision := if card.action == "approve" then Approved else Rejected;
      RecordsExactly(
        a, Call(Command(decision, card.request), card.event, card.actor, card.operator.value, card.mapping), id, now);
      RefusesExactly(
        a, Call(Command(decision, card.request), card.event, card.actor, card.operator.value, card.mapping), id, now);
    }
  }

  /** The callback of a card as it arrives, with the user and mapping that the worker has resolved for it. */
  datatype Callback = Callback(
    value: Json, tenant: Option<string>, operator: Option<string>, chat: Option<string>, event: string, actor: nat,
    mapping: Option<Identity.Key>)

  /** handle_card_action: a value that is no button, or that the parser fails on, is answered as malformed. */
  function HandleCallback(a: Approvals, policy: Policy, c: Callback, id: nat, now: int): (Approvals, Outcome) {
    match ParseCardAction(c.value)
    case Failure(_) => (a, Outcome.Malformed)
    case Success(None) => (a, Outcome.Malformed)
    case Success(Some(card)) =>
      ProcessCard(
        a, policy,
        CardCall(card.action, card.requestId, c.tenant, c.operator, c.chat, c.event, c.actor, c.mapping), id, now)
  }

  predicate Decidable(a: Approvals, request: Uuid, actor: nat, mapping: Option<Identity.Key>, now: int) {
    && request in a.requests && request !in a.decisions && now < a.requests[request].expiresAt
    && (a.requests[request].deployment.Some? ==> mapping.Some? && actor != a.requests[request].user)
  }

  /** The tables with one more decision on the request. */
  function WithDecision(a: Approvals, request: Uuid, decision: Decision, c: Callback, id: nat, now: int): Approvals
    requires c.operator.Some?
  {
    Approvals(
      a.requests, a.requestKeys,
      a.decisions[request := DecisionRow(id, decision, c.actor, c.mapping, c.operator.value, c.event, now)],
      a.decisionIds[id := request], a.events[c.event := request])
  }

  lemma ButtonDecides(
    a: Approvals, policy: Policy, state: CardState, request: Uuid, c: Callback, i: nat, id: nat, now: int)
    requires Sound(a) && i < |Buttons(state, request)|
    ensures var card := CardCall(["approve", "reject", "wait"][i], request, c.tenant, c.operator, c.chat, c.event,
                                 c.actor, c.mapping);
      HandleCallback(a, policy, c.(value := Buttons(state, request)[i]), id, now)
        == ProcessCard(a, policy, card, id, now)
  {
    ButtonsRoundTrip(state, request, i);
  }

  /** One press: what the button that stands for this decision does. */
  lemma PressDecides(
    a: Approvals, policy: Policy, state: CardState, request: Uuid, c: Callback, decision: Decision, id: nat, now: int)
    requires Sound(a) && (state.Pending? || state.Waiting?)
    requires 1 <= |c.event| <= 200 && c.event !in a.events && id !in a.decisionIds
    ensures var press := c.(value := Buttons(state, request)[if decision.Approved? then 0 else 1]);
      && (Permitted(policy, c.tenant, c.operator, c.chat) && Decidable(a, request, c.actor, c.mapping, now) ==>
            HandleCallback(a, policy, press, id, now)
              == (WithDecision(a, request, decision, c, id, now), Recorded(decision)))
      && (!Permitted(policy, c.tenant, c.operator, c.chat) ==>
            HandleCallback(a, policy, press, id, now) == (a, Unauthorized))
  {
    ButtonDecides(a, policy, state, request, c, if decision.Approved? then 0 else 1, id, now);
    var card := CardCall(
      if decision.Approved? then "approve" else "reject", request, c.tenant, c.operator, c.chat, c.event, c.actor,
      c.mapping);
    CardsExactly(a, policy, card, id, now);
  }

  /** From the button to the row: pressing approve on an open card stores an approval, pressing reject a rejection,
      if the operator is in all three lists and in the supervision chat and the request can be decided; the row is
      the operator's, with the callback's user, mapping and event. Any other operator is told that he is not
      authorized, and nothing is stored. */
  lemma ButtonsDecide(
    a: Approvals, policy: Policy, state: CardState, request: Uuid, c: Callback, id: nat, now: int)
    requires Sound(a) && (state.Pending? || state.Waiting?)
    requires 1 <= |c.event| <= 200 && c.event !in a.events && id !in a.decisionIds
    ensures var approve, reject := c.(value := Buttons(state, request)[0]), c.(value := Buttons(state, request)[1]);
      && (Permitted(policy, c.tenant, c.operator, c.chat) && Decidable(a, request, c.actor, c.mapping, now) ==>
            && HandleCallback(a, policy, approve, id, now)
                 == (WithDecision(a, request, Approved, c, id, now), Recorded(Approved))
            && HandleCallback(a, policy, reject, id, now)
                 == (WithDecision(a, request, Rejected, c, id, now), Recorded(Rejected)))
      && (!Permitted(policy, c.tenant, c.operator, c.chat) ==>
            && HandleCallback(a, policy, approve, id, now) == (a, Unauthorized)
            && HandleCallback(a, policy, reject, id, now) == (a, Unauthorized))
  {
    PressDecides(a, policy, state, request, c, Approved, id, now);
    PressDecides(a, policy, state, request, c, Rejected, id, now);
  }

  /** The same for a chat message: the printed command, with any blanks and margins, from a permitted user in a
      permitted chat decides exactly as it says, with no mapping; from anyone else it is not authorized and stores
      nothing. */
  lemma CommandsDecide(
    a: Approvals, policy: Policy, m: MessageCall, command: Command, before: string, blanks: string, after: string,
    id: nat, now: int)
    requires Sound(a)
    requires blanks != "" && (forall c <- blanks :: IsBlank(c))
    requires (forall c <- before :: c in WHITESPACE) && (forall c <- after :: c in WHITESPACE)
    requires m.text == before + (Verb(command.decision) + blanks + Print(command.requestId) + after)
    ensures var (b, outcome) := ProcessMessage(a, policy, m, id, now);
      var permitted :=
        && Permitted(policy, m.tenant, m.sender, m.chat) && m.senderType == Some("user")
        && m.chatType.Some? && m.chatType.value != "" && m.chatType.value in policy.chatTypes;
      && outcome.Some?
      && (!permitted ==> outcome.value.Unauthorized? && b == a)
      && (outcome.value.Recorded? <==>
            && permitted && 1 <= |m.event| <= 200 && m.event !in a.events && id !in a.decisionIds
            && command.requestId in a.requests && command.requestId !in a.decisions
            && now < a.requests[command.requestId].expiresAt && a.requests[command.requestId].deployment.None?)
      && (outcome.value.Recorded? ==>
            && outcome.value.decision == command.decision
            && b == Approvals(
                 a.requests, a.requestKeys,
                 a.decisions[command.requestId := DecisionRow(
                   id, command.decision, m.actor, None, m.sender.value, m.event, now)],
                 a.decisionIds[id := command.requestId], a.events[m.event := command.requestId]))
      && (!outcome.value.Recorded? ==> b == a)
  {
    CommandRoundTrip(command, before, blanks, after);
    if m.sender.Some? {
      RecordsExactly(a, Call(command, m.event, m.actor, m.sender.value, None), id, now);
    }
  }

  /** A text that is no command decides nothing, whoever sends it. */
  lemma OtherTextsDecideNothing(a: Approvals, policy: Policy, m: MessageCall, id: nat, now: int)
    requires !ParseCommand(m.text).Parsed?
    ensures ProcessMessage(a, policy, m, id, now).0 == a
    ensures ProcessMessage(a, policy, m, id, now).1
         == if ParseCommand(m.text).NotApproval? then None else Some(Outcome.Malformed)
  {
  }

  /** Which requests are stored: one with a new key and id, valid in every field, and never bound to a deployment; a key
      that is taken yields the stored request exactly if all six fields agree. */
  lemma CreatesExactly(a: Approvals, id: Uuid, r: Request, ttl: int, now: int)
    requires Sound(a)
    ensures var created := CreateRequest(a, id, r, ttl, now);
      var valid :=
        && ValidRepository(r.repository) && ValidSha(r.targetSha) && ValidKey(r.key) && 1 <= ttl <= 86400
        && (r.pullRequest.Some? ==> r.pullRequest.value >= 1) && (r.action.MergePr? ==> r.pullRequest.Some?)
        && r.environment ==
             (if r.action.DevelopmentPlan? then Development else if r.action.MergePr? then Staging else Production);
      && (valid && r.key !in a.requestKeys && id !in a.requests ==>
            created == Success(a.(
              requests := a.requests[id := Request(
                r.user, r.action, r.repository, r.pullRequest, r.targetSha, r.environment, None, None, r.key, now,
                now + ttl)],
              requestKeys := a.requestKeys[r.key := id])))
      && (valid && r.key in a.requestKeys ==>
            a.requestKeys[r.key] in a.requests &&
            var stored := a.requests[a.requestKeys[r.key]];
            created ==
              if && stored.user == r.user && stored.action == r.action && stored.repository == r.repository
                 && stored.pullRequest == r.pullRequest && stored.targetSha == r.targetSha
                 && stored.environment == r.environment
              then Success(a) else Failure("idempotency_key conflict"))
      && (created.Success? ==> valid && (r.key in a.requestKeys || id !in a.requests))
  {
    assert KeyKnown(a, r.key);
  }

  /** "Waiting" means that a decision would still be recorded: it is answered exactly when every well-formed,
      separated call with an unused event and row id would be, and for every other request none would. */
  lemma WaitingExactlyWhileDecidable(a: Approvals, call: Call, id: nat, now: int)
    requires Sound(a) && ValidEvent(call.event) && call.event !in a.events && id !in a.decisionIds
    requires call.command.requestId in a.requests ==> Separated(a.requests[call.command.requestId], call)
    ensures Inspect(a, call.command.requestId, now).StillWaiting? <==> Record(a, call, id, now).1.Recorded?
    ensures !Inspect(a, call.command.requestId, now).StillWaiting? ==>
      Record(a, call, id, now) == (a, Inspect(a, call.command.requestId, now))
  {
    RecordsExactly(a, call, id, now);
  }

  // ---------------------------------------------------------------- the service, in place

  class ApprovalStore {
    var requests: map<Uuid, Request>
    var requestKeys: map<string, Uuid>
    var decisions: map<Uuid, DecisionRow>
    var decisionIds: map<nat, Uuid>
    var events: map<string, Uuid>

    function View(): Approvals
      reads this
    {
      Approvals(requests, requestKeys, decisions, decisionIds, events)
    }

    constructor ()
      ensures View() == NO_APPROVALS && Sound(View())
    {
      requests, requestKeys, decisions, decisionIds, events := map[], map[], map[], map[], map[];
    }

    method CreateApprovalRequest(id: Uuid, r: Request, ttl: int, now: int) returns (result: Result<Uuid, string>)
      requires Sound(View())
      modifies this`requests, this`requestKeys
      ensures Sound(View())
      ensures var spec := CreateRequest(old(View()), id, r, ttl, now);
        View() == spec.GetOr(old(View())) && (result.Success? <==> spec.Success?)
      ensures result.Success? ==>
        result.value in requests && requests[result.value].key == r.key && SameRequest(requests[result.value], r)
    {
      if !ValidRequest(r, ttl) {
        return Failure("invalid_request");
      }
      assert KeyKnown(View(), r.key);
      if r.key in requestKeys {
        var existing := requestKeys[r.key];
        if !SameRequest(requests[existing], r) {
          return Failure("idempotency_key conflict");
        }
        return Success(existing);
      }
      if id in requests {
        return Failure("unique_violation");
      }
      var row := r.(deployment := None, digest := None, requestedAt := now, expiresAt := now + ttl);
      InsertKeeps(View(), id, row);
      requests := requests[id := row];
      requestKeys := requestKeys[r.key := id];
      result := Success(id);
    }

    method RecordApprovalDecision(call: Call, id: nat, now: int) returns (outcome: Outcome)
      requires Sound(View())
      modifies this`decisions, this`decisionIds, this`events
      ensures Sound(View())
      ensures (View(), outcome) == Record(old(View()), call, id, now)
    {
      RecordKeeps(View(), call, id, now);
      assert EventKnown(View(), call.event);
      if !ValidEvent(call.event) {
        return InvalidEvent;
      }
      if call.event in events {
        var known := events[call.event];
        if MatchingDuplicate(decisions[known], known, call) {
          return Duplicate(call.command.decision);
        }
        return EventConflict;
      }
      var request := call.command.requestId;
      if request !in requests {
        return UnknownRequest;
      }
      if !Separated(requests[request], call) {
        return Unauthorized;
      }
      if now >= requests[request].expiresAt {
        return Expired;
      }
      if request in decisions {
        return AlreadyDecided;
      }
      if id in decisionIds {
        return Conflict;
      }
      decisions := decisions[request := RowOf(call, id, now)];
      decisionIds := decisionIds[id := request];
      events := events[call.event := request];
      outcome := Recorded(call.command.decision);
    }

    /** It says of each request whether it is unknown, over, decided or still open, in that order of precedence. */
    method InspectPendingApprovalRequest(request: Uuid, now: int) returns (outcome: Outcome)
      ensures outcome == Inspect(View(), request, now)
      ensures outcome.UnknownRequest? <==> request !in requests
      ensures outcome.Expired? <==> request in requests && requests[request].expiresAt <= now
      ensures outcome.AlreadyDecided? <==>
        request in requests && now < requests[request].expiresAt && request in decisions
      ensures outcome.StillWaiting? <==>
        request in requests && now < requests[request].expiresAt && request !in decisions
    {
      if request !in requests {
        return UnknownRequest;
      }
      if now >= requests[request].expiresAt {
        return Expired;
      }
      if request in decisions {
        return AlreadyDecided;
      }
      outcome := StillWaiting;
    }
  }
}
