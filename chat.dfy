/**
  `format_conversation_for_openai`: the chat prompt sent for the next customer
  turn. One system message describing the simulated customer, then the history
  in order with `employee` mapped to `user` and `customer` to `assistant`;
  entries with any other role are dropped.
*/
module Chat {
  import opened Wrappers
  import opened Transcript

  /** One chat-completion message, `{"role": ..., "content": ...}`. */
  datatype Message = Message(role: string, content: string)

  const UnknownScenario := "[Unknown scenario]"
  const UnknownPersonality := "[Unknown personality]"

  /**
    The system instruction: the chosen personality and scenario (or their
    placeholders when the session has none) and the menu, rendered by
    `json.dumps(menu, indent=2)`, which is an input here.
  */
  function SystemText(scenario: Option<string>, personality: Option<string>, menuJson: string): string {
    "You are a " + personality.GetOr(UnknownPersonality) + CustomerIntro + scenario.GetOr(UnknownScenario) + CustomerGuidance + menuJson
  }

  const CustomerIntro := " customer at BurgerXpress. Your issue is: '"
  const CustomerGuidance :=
    "'\nReact naturally with tone and behavior that matches your personality. "
    + "Use the menu to support your complaint. "
    + "If the situation escalates too much and the employee is crew, they should call a manager.\n"
    + "Here is the menu data:\n\n"

  /** The chat role a history role is sent under, if any. */
  function ChatRole(role: string): Option<string> {
    if role == EmployeeRole then Some("user")
    else if role == CustomerRole then Some("assistant")
    else None
  }

  /** The messages the loop appends for a history, in order. */
  function MappedTurns(history: seq<Turn>): seq<Message>
    decreases |history|
  {
    if history == [] then []
    else
      var last := history[|history| - 1];
      MappedTurns(history[..|history| - 1])
      + match ChatRole(last.role)
        case None => []
        case Some(r) => [Message(r, last.content)]
  }

  /** A message list: the system message with the given text, then the mapped history. */
  function Prompt(system: string, history: seq<Turn>): seq<Message> {
    [Message("system", system)] + MappedTurns(history)
  }

  /** The full message list of the app. */
  function ChatMessages(scenario: Option<string>, personality: Option<string>, menuJson: string, history: seq<Turn>): seq<Message> {
    Prompt(SystemText(scenario, personality, menuJson), history)
  }

  /** `format_conversation_for_openai`: the system message, then the loop over the history. */
  method FormatConversationForOpenai(scenario: Option<string>, personality: Option<string>, menuJson: string, convo: seq<Turn>)
    returns (messages: seq<Message>)
    ensures messages == ChatMessages(scenario, personality, menuJson, convo)
  {
    messages := BuildPrompt(SystemText(scenario, personality, menuJson), convo);
  }

  /** The loop of `format_conversation_for_openai`, for any system text. */
  method BuildPrompt(system: string, convo: seq<Turn>) returns (messages: seq<Message>)
    ensures messages == Prompt(system, convo)
  {
    messages := [Message("system", system)];
    for i := 0 to |convo|
      invariant messages == Prompt(system, convo[..i])
    {
      assert convo[..i + 1][..i] == convo[..i];
      var entry := convo[i];
      if entry.role == EmployeeRole {
        messages := messages + [Message("user", entry.content)];
      } else if entry.role == CustomerRole {
        messages := messages + [Message("assistant", entry.content)];
      }
    }
    assert convo[..|convo|] == convo;
  }

  // ---------------------------------------------------------------- properties

  /** The history entries with role `employee` or `customer`, in order. */
  function KeptTurns(history: seq<Turn>): seq<Turn>
    decreases |history|
  {
    if history == [] then []
    else
      var last := history[|history| - 1];
      KeptTurns(history[..|history| - 1]) + (if ChatRole(last.role).Some? then [last] else [])
  }

  /** How many entries carry exactly the given role. */
  function CountRole(history: seq<Turn>, role: string): nat
    decreases |history|
  {
    if history == [] then 0
    else CountRole(history[..|history| - 1], role) + (if history[|history| - 1].role == role then 1 else 0)
  }

  /**
    The mapped history is the kept entries, one message each, in the same order:
    `employee` becomes `user`, `customer` becomes `assistant`, content unchanged.
  */
  lemma {:induction false} MappedTurnsMatchKept(history: seq<Turn>)
    ensures |MappedTurns(history)| == |KeptTurns(history)|
    ensures forall i | 0 <= i < |KeptTurns(history)| ::
      Some(MappedTurns(history)[i].role) == ChatRole(KeptTurns(history)[i].role)
      && MappedTurns(history)[i].content == KeptTurns(history)[i].content
    decreases |history|
  {
    if history != [] {
      MappedTurnsMatchKept(history[..|history| - 1]);
    }
  }

  /** Every kept entry is an `employee` or a `customer` one. */
  lemma {:induction false} KeptTurnsRoles(history: seq<Turn>)
    ensures forall i | 0 <= i < |KeptTurns(history)| :: KeptTurns(history)[i].role in {EmployeeRole, CustomerRole}
    decreases |history|
  {
    if history != [] {
      KeptTurnsRoles(history[..|history| - 1]);
    }
  }

  /** The number of messages after the system one is the number of `employee` and `customer` entries. */
  lemma {:induction false} KeptTurnsCount(history: seq<Turn>)
    ensures |KeptTurns(history)| == CountRole(history, EmployeeRole) + CountRole(history, CustomerRole)
    decreases |history|
  {
    if history != [] {
      KeptTurnsCount(history[..|history| - 1]);
    }
  }

  /** When every entry is `employee` or `customer`, nothing is dropped. */
  lemma {:induction false} KeptTurnsAll(history: seq<Turn>)
    requires forall i | 0 <= i < |history| :: history[i].role in {EmployeeRole, CustomerRole}
    ensures KeptTurns(history) == history
    decreases |history|
  {
    if history != [] {
      var n := |history| - 1;
      KeptTurnsAll(history[..n]);
      assert history[..n] + [history[n]] == history;
    }
  }

  /**
    The whole message list: length one plus the number of `employee` and
    `customer` entries, the system message first, and after it the kept entries
    in history order under their chat roles.
  */
  lemma PromptShape(system: string, history: seq<Turn>)
    ensures var messages := Prompt(system, history);
      |messages| == 1 + CountRole(history, EmployeeRole) + CountRole(history, CustomerRole)
      && |messages| == 1 + |KeptTurns(history)|
      && messages[0].role == "system"
      && forall i | 0 <= i < |KeptTurns(history)| ::
           messages[i + 1] == Message(if KeptTurns(history)[i].role == EmployeeRole then "user" else "assistant",
                                      KeptTurns(history)[i].content)
  {
    var messages := Prompt(system, history);
    var mapped := MappedTurns(history);
    var kept := KeptTurns(history);
    MappedTurnsMatchKept(history);
    KeptTurnsCount(history);
    assert messages == [messages[0]] + mapped;
    forall i | 0 <= i < |kept|
      ensures messages[i + 1] == Message(if kept[i].role == EmployeeRole then "user" else "assistant", kept[i].content)
    {
      assert messages[i + 1] == mapped[i];
    }
  }

  /** Reading a message back as a history entry: `user` is the employee, `assistant` the customer. */
  function UnmapRole(m: Message): Turn {
    Turn(if m.role == "user" then EmployeeRole else CustomerRole, m.content)
  }

  /** Mapping then unmapping recovers exactly the kept entries. */
  lemma {:induction false} UnmapMappedTurns(history: seq<Turn>)
    ensures seq(|MappedTurns(history)|, i requires 0 <= i < |MappedTurns(history)| => UnmapRole(MappedTurns(history)[i]))
      == KeptTurns(history)
    decreases |history|
  {
    MappedTurnsMatchKept(history);
    KeptTurnsRoles(history);
  }
}
