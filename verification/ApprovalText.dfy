/** The two ways an approval enters as text: the chat command and the buttons of an approval card. */
module ApprovalText {
  import opened Wrappers
  import opened UuidText

  datatype Decision = Approved | Rejected

  // ---------------------------------------------------------------- the chat command

  const APPROVE := "\U{6279}\U{51C6}"
  const REJECT := "\U{62D2}\U{7EDD}"

  /** The characters str.strip() removes. */
  const WHITESPACE := {' ', '\t', '\n', '\r', '\U{0B}', '\U{0C}', '\U{1C}', '\U{1D}', '\U{1E}', '\U{1F}',
                       '\U{85}', '\U{A0}', '\U{1680}', '\U{2000}', '\U{2001}', '\U{2002}', '\U{2003}', '\U{2004}',
                       '\U{2005}', '\U{2006}', '\U{2007}', '\U{2008}', '\U{2009}', '\U{200A}', '\U{2028}', '\U{2029}',
                       '\U{202F}', '\U{205F}', '\U{3000}'}

  datatype Command = Command(decision: Decision, requestId: Uuid)

  /** approval_like without a command is what the reply "malformed" is sent for. */
  datatype CommandParse = NotApproval | Malformed | Parsed(command: Command)

  function Verb(decision: Decision): (verb: string)
    ensures |verb| == 2
  {
    if decision.Approved? then APPROVE else REJECT
  }

  predicate IsBlank(c: char) {
    c == ' ' || c == '\t'
  }

  /** How many blanks a text starts with. */
  function Blanks(s: string): (n: nat)
    ensures n <= |s|
    ensures forall i :: 0 <= i < n ==> IsBlank(s[i])
    ensures n < |s| ==> !IsBlank(s[n])
  {
    if s != "" && IsBlank(s[0]) then 1 + Blanks(s[1..]) else 0
  }

  /** 8-4-4-4-12 lower-case hexadecimal digits. */
  predicate UuidPattern(s: string) {
    && |s| == 36
    && forall i :: 0 <= i < 36 ==> if i in {8, 13, 18, 23} then s[i] == '-' else IsHexDigit(s[i])
  }

  function ParseCommand(text: string): CommandParse {
    var normalized := Strip(text, WHITESPACE);
    if !(APPROVE <= normalized) && !(REJECT <= normalized) then NotApproval
    else
      var rest := normalized[2..];
      var blanks := Blanks(rest);
      var requestText := rest[blanks..];
      if blanks == 0 || !UuidPattern(requestText) then Malformed
      else
        match ParseCanonical(requestText)
        case None => Malformed
        case Some(id) => Parsed(Command(if APPROVE <= normalized then Approved else Rejected, id))
  }

  lemma PrintedMatches(id: Uuid)
    ensures UuidPattern(Print(id))
  {
    var h := Hex(id, 32);
    assert forall i :: 0 <= i < 32 ==> h[i] in h;
    assert Print(id) == Grouped(h);
  }

  lemma {:induction false} BlanksCount(blanks: string, rest: string)
    requires (forall c <- blanks :: IsBlank(c)) && rest != "" && !IsBlank(rest[0])
    ensures Blanks(blanks + rest) == |blanks|
  {
    if blanks == "" {
      assert blanks + rest == rest;
    } else {
      var all := blanks + rest;
      assert all[0] == blanks[0] && blanks[0] in blanks;
      assert all[1..] == blanks[1..] + rest;
      assert forall c <- blanks[1..] :: c in blanks;
      BlanksCount(blanks[1..], rest);
    }
  }

  ghost predicate IsCommandText(normalized: string, command: Command) {
    exists blanks: string ::
      && blanks != "" && (forall c <- blanks :: IsBlank(c))
      && normalized == Verb(command.decision) + blanks + Print(command.requestId)
  }

  lemma VerbsDiffer()
    ensures APPROVE[0] != REJECT[0]
  {
  }

  lemma CommandTextParses(text: string, command: Command)
    requires IsCommandText(Strip(text, WHITESPACE), command)
    ensures ParseCommand(text) == Parsed(command)
  {
    var normalized := Strip(text, WHITESPACE);
    var uuid := Print(command.requestId);
    var blanks: string :|
      && blanks != "" && (forall c <- blanks :: IsBlank(c))
      && normalized == Verb(command.decision) + blanks + uuid;
    var rest := normalized[2..];
    assert rest == blanks + uuid;
    PrintedMatches(command.requestId);
    BlanksCount(blanks, uuid);
    assert rest[|blanks|..] == uuid;
    PrintParse(command.requestId);
    assert normalized[..2] == Verb(command.decision);
    VerbsDiffer();
  }

  lemma ParsedIsCommandText(text: string, command: Command)
    requires ParseCommand(text) == Parsed(command)
    ensures IsCommandText(Strip(text, WHITESPACE), command)
  {
    var normalized := Strip(text, WHITESPACE);
    var rest := normalized[2..];
    var blanks := rest[..Blanks(rest)];
    var uuid := rest[Blanks(rest)..];
    CanonicalExactly(uuid, command.requestId);
    assert normalized == normalized[..2] + blanks + uuid;
    assert normalized[..2] == Verb(command.decision);
  }

  /** A text is accepted as a command if and only if, after trimming, it is exactly the verb, at least one
      blank, and the canonical text of the identifier. */
  lemma CommandsExactly(text: string, command: Command)
    ensures ParseCommand(text) == Parsed(command) <==> IsCommandText(Strip(text, WHITESPACE), command)
  {
    if ParseCommand(text) == Parsed(command) {
      ParsedIsCommandText(text, command);
    }
    if IsCommandText(Strip(text, WHITESPACE), command) {
      CommandTextParses(text, command);
    }
  }

  lemma {:induction false} StripLeftPast(space: string, core: string, chars: set<char>)
    requires (forall c <- space :: c in chars) && core != "" && core[0] !in chars
    ensures StripLeft(space + core, chars) == core
  {
    if space == "" {
      assert space + core == core;
    } else {
      assert (space + core)[0] == space[0] && space[0] in space;
      assert (space + core)[1..] == space[1..] + core;
      assert forall c <- space[1..] :: c in space;
      StripLeftPast(space[1..], core, chars);
    }
  }

  lemma {:induction false} StripRightPast(core: string, space: string, chars: set<char>)
    requires (forall c <- space :: c in chars) && core != "" && core[|core| - 1] !in chars
    ensures StripRight(core + space, chars) == core
  {
    if space == "" {
      assert core + space == core;
    } else {
      var n := |space| - 1;
      assert (core + space)[|core + space| - 1] == space[n] && space[n] in space;
      assert (core + space)[..|core + space| - 1] == core + space[..n];
      assert forall c <- space[..n] :: c in space;
      StripRightPast(core, space[..n], chars);
    }
  }

  /** Printing a command and parsing it gives the command back, whatever blanks and margins are used. */
  lemma CommandRoundTrip(command: Command, before: string, blanks: string, after: string)
    requires blanks != "" && (forall c <- blanks :: IsBlank(c))
    requires (forall c <- before :: c in WHITESPACE) && (forall c <- after :: c in WHITESPACE)
    ensures ParseCommand(before + (Verb(command.decision) + blanks + Print(command.requestId) + after))
         == Parsed(command)
  {
    var core := Verb(command.decision) + blanks + Print(command.requestId);
    PrintedMatches(command.requestId);
    assert core[0] == Verb(command.decision)[0] && core[|core| - 1] == Print(command.requestId)[35];
    assert IsHexDigit(Print(command.requestId)[35]);
    assert core[0] !in WHITESPACE;
    StripLeftPast(before, core + after, WHITESPACE);
    StripRightPast(core, after, WHITESPACE);
    CommandTextParses(before + (core + after), command);
  }

  // ---------------------------------------------------------------- card buttons

  datatype CardAction = CardAction(action: string, requestId: Uuid)

  const CARD_ACTIONS := {"approve", "reject", "wait"}

  /** A callback value as decoded from JSON; only what the parser distinguishes. */
  datatype Json = Text(text: string) | Hashable | Unhashable | Dict(items: map<string, Json>)

  function ParseCardAction(value: Json): Result<Option<CardAction>, string> {
    if !value.Dict? || value.items.Keys != {"action", "request_id"} then Success(None)
    else
      var action := value.items["action"];
      var request := value.items["request_id"];
      if action.Unhashable? || action.Dict? then Failure("TypeError")  // membership test in a frozenset
      else if !action.Text? || action.text !in CARD_ACTIONS || !request.Text? then Success(None)
      else
        match ParseCanonical(request.text)
        case None => Success(None)
        case Some(id) => Success(Some(CardAction(action.text, id)))
  }

  datatype CardState = Pending | Waiting | ApprovedCard | RejectedCard

  function Button(action: string, id: Uuid): Json {
    Dict(map["action" := Text(action), "request_id" := Text(Print(id))])
  }

  /** The button payloads of a card, in display order. */
  function Buttons(state: CardState, id: Uuid): seq<Json> {
    if state.Pending? || state.Waiting? then [Button("approve", id), Button("reject", id), Button("wait", id)] else []
  }

  /** The parser accepts exactly the payloads a card can carry. */
  lemma ButtonsExactly(value: Json, id: Uuid, action: string)
    ensures ParseCardAction(value) == Success(Some(CardAction(action, id)))
       <==> action in CARD_ACTIONS && value == Button(action, id)
  {
    PrintParse(id);
    if ParseCardAction(value) == Success(Some(CardAction(action, id))) {
      CanonicalExactly(value.items["request_id"].text, id);
      assert value.items == Button(action, id).items;
    }
  }

  /** Every button of an open card parses back to its own action and request; a closed card has none. */
  lemma ButtonsRoundTrip(state: CardState, id: Uuid, i: nat)
    requires i < |Buttons(state, id)|
    ensures state.Pending? || state.Waiting?
    ensures ParseCardAction(Buttons(state, id)[i])
         == Success(Some(CardAction(["approve", "reject", "wait"][i], id)))
  {
    ButtonsExactly(Buttons(state, id)[i], id, ["approve", "reject", "wait"][i]);
  }
}
