/**
  The app's session state (`st.session_state`) and the handlers that change it:
  sidebar navigation and the developer password, entering the conversation
  page, an employee turn, the exit / cancel / confirm buttons, the feedback
  form's submit, and "Return Home" with `reset_session`. Random picks, the
  clock, the menu's JSON text and the outcomes of the model and Google calls
  are inputs.
*/
module Session {
  import opened Wrappers
  import opened Transcript
  import opened Coaching
  import opened Chat
  import opened Records
  import opened Persistence

  /** The pages of the sidebar, in the order of its buttons. */
  datatype Page = MainMenu | Instructions | StartConversation | ShowMenu
                | ServiceGuidelines | PastConversations | GeneralFeedback | Analytics

  const DeveloperPassword := "test123"
  const Greeting := "Hi, can I speak to someone about an issue with my order?"

  /** The session's values at one moment; `None` where the key is absent. */
  datatype State = State(
    page: Page, history: seq<Turn>, showFeedback: bool, pendingExit: bool,
    selectedConversation: Option<string>, testingMode: bool,
    chosenScenario: Option<string>, chosenPersonality: Option<string>,
    feedback: Option<string>, scores: Option<ScoreDict>,
    filename: Option<string>, submitted: bool)

  /** The concatenated reply of a stream: `chunk.choices[0].delta.content or ''` for each chunk. */
  function StreamText(chunks: seq<Option<string>>): string
    decreases |chunks|
  {
    if chunks == [] then "" else StreamText(chunks[..|chunks| - 1]) + chunks[|chunks| - 1].GetOr("")
  }

  /** Concatenating two streams' chunk lists concatenates their texts, in arrival order. */
  lemma {:induction false} StreamTextAppend(a: seq<Option<string>>, b: seq<Option<string>>)
    ensures StreamText(a + b) == StreamText(a) + StreamText(b)
    decreases |b|
  {
    if b == [] {
      assert a + b == a;
    } else {
      var n := |b| - 1;
      assert (a + b)[..|a + b| - 1] == a + b[..n];
      StreamTextAppend(a, b[..n]);
    }
  }

  /** The `for chunk in stream` loop. */
  method CollectStream(chunks: seq<Option<string>>) returns (message: string)
    ensures message == StreamText(chunks)
  {
    message := "";
    for i := 0 to |chunks|
      invariant message == StreamText(chunks[..i])
    {
      assert chunks[..i + 1][..i] == chunks[..i];
      var text := chunks[i].GetOr("");
      message := message + text;
    }
    assert chunks[..|chunks|] == chunks;
  }

  class Session {
    var page: Page
    var history: seq<Turn>
    var showFeedback: bool
    var pendingExit: bool
    var selectedConversation: Option<string>
    var testingMode: bool
    var chosenScenario: Option<string>
    var chosenPersonality: Option<string>
    var feedback: Option<string>
    var scores: Option<ScoreDict>
    var filename: Option<string>
    var submitted: bool

    function Snapshot(): State
      reads this
    {
      State(page, history, showFeedback, pendingExit, selectedConversation, testingMode,
            chosenScenario, chosenPersonality, feedback, scores, filename, submitted)
    }

    /**
      What the handlers keep true: a non-empty history opens with the
      customer's greeting and has a scenario and personality; the two picks are
      made together; coaching is shown only once stored; and the exit prompt
      and the coaching view are never both active.
    */
    predicate Valid()
      reads this
    {
      (history != [] ==> history[0] == Turn(CustomerRole, Greeting) && chosenScenario.Some?)
      && (chosenScenario.Some? <==> chosenPersonality.Some?)
      && (showFeedback ==> feedback.Some? && scores.Some?)
      && !(pendingExit && showFeedback)
    }

    /** The keys set when a browser session first runs the script. */
    constructor ()
      ensures Snapshot() == State(MainMenu, [], false, false, None, false, None, None, None, None, None, false)
      ensures Valid()
    {
      page := MainMenu;
      history := [];
      showFeedback := false;
      pendingExit := false;
      selectedConversation := None;
      testingMode := false;
      chosenScenario := None;
      chosenPersonality := None;
      feedback := None;
      scores := None;
      filename := None;
      submitted := false;
    }

    /** A sidebar button: the page changes and nothing else does. */
    method Navigate(p: Page)
      modifies this
      ensures Snapshot() == old(Snapshot()).(page := p)
      ensures Valid() == old(Valid())
    {
      page := p;
    }

    /** The password box, read on every run: testing mode is on exactly when it holds the developer password. */
    method ApplyDeveloperPassword(pwd: string)
      modifies this
      ensures Snapshot() == old(Snapshot()).(testingMode := pwd == DeveloperPassword)
      ensures Valid() == old(Valid())
    {
      if pwd == DeveloperPassword {
        testingMode := true;
      } else {
        testingMode := false;
      }
    }

    /**
      `reset_session`: clears the history, the coaching view, the selected past
      conversation and both picks; the stored feedback and scores, the exit
      prompt flag and the page are left as they were.
    */
    method ResetSession()
      requires Valid()
      modifies this
      ensures Snapshot() == old(Snapshot()).(history := [], showFeedback := false, selectedConversation := None,
                                             chosenScenario := None, chosenPersonality := None)
      ensures Valid()
    {
      history := [];
      showFeedback := false;
      selectedConversation := None;
      chosenScenario := None;
      chosenPersonality := None;
    }

    /**
      The opening of `start_conversation`: each pick is drawn only when absent,
      and the greeting is added only to an empty history.
    */
    method EnterConversation(scenarioPick: string, personalityPick: string)
      requires Valid()
      modifies this
      ensures Snapshot() == old(Snapshot()).(
        chosenScenario := Some(old(chosenScenario).GetOr(scenarioPick)),
        chosenPersonality := Some(old(chosenPersonality).GetOr(personalityPick)),
        history := if old(history) == [] then [Turn(CustomerRole, Greeting)] else old(history))
      ensures Valid()
      ensures history != [] && chosenScenario.Some? && chosenPersonality.Some?
    {
      if chosenScenario.None? {
        chosenScenario := Some(scenarioPick);
      }
      if chosenPersonality.None? {
        chosenPersonality := Some(personalityPick);
      }
      if history == [] {
        history := history + [Turn(CustomerRole, Greeting)];
      }
    }

    /**
      The employee's input box, shown while the coaching view is not. A
      non-empty input is appended as an employee turn first, the prompt is
      built from the history including it, and the customer's reply is
      appended only if the streamed call completes; a failed call leaves the
      employee turn in place. Returns the messages sent, if any.
    */
    method EmployeeTurn(input: string, menuJson: string, reply: Result<seq<Option<string>>, string>)
      returns (sent: Option<seq<Message>>)
      requires Valid() && history != [] && !showFeedback
      modifies this
      ensures input == "" ==> sent == None && Snapshot() == old(Snapshot())
      ensures input != "" ==>
        var asked := old(history) + [Turn(EmployeeRole, input)];
        sent == Some(ChatMessages(chosenScenario, chosenPersonality, menuJson, asked))
        && Snapshot() == old(Snapshot()).(history := asked
             + match reply case Ok(chunks) => [Turn(CustomerRole, StreamText(chunks))] case Err(_) => [])
      ensures Valid()
    {
      sent := None;
      if input != "" {
        history := history + [Turn(EmployeeRole, input)];
        var messages := FormatConversationForOpenai(chosenScenario, chosenPersonality, menuJson, history);
        sent := Some(messages);
        match reply {
          case Ok(chunks) =>
            var message := CollectStream(chunks);
            history := history + [Turn(CustomerRole, message)];
          case Err(_) =>
        }
      }
    }

    /** "Exit Conversation", shown in a started conversation while the coaching view is not: raises the confirmation prompt. */
    method RequestExit()
      requires Valid() && history != [] && !showFeedback
      modifies this
      ensures Snapshot() == old(Snapshot()).(pendingExit := true)
      ensures Valid()
    {
      pendingExit := true;
    }

    /** "Cancel" on the prompt: lowers it and changes nothing else; no coaching call is made. */
    method CancelExit()
      requires Valid() && history != [] && pendingExit
      modifies this
      ensures Snapshot() == old(Snapshot()).(pendingExit := false)
      ensures Valid()
    {
      pendingExit := false;
    }

    /**
      "Yes, End and Get Feedback" on the prompt: shows the coaching view, lowers
      the prompt and stores the coaching summary and scores for the history;
      `coachReply` is what the coaching model call produced.
    */
    method ConfirmExit(coachReply: Result<string, string>)
      requires Valid() && history != [] && pendingExit
      modifies this
      ensures var coached := Coach(old(history), coachReply);
        Snapshot() == old(Snapshot()).(showFeedback := true, pendingExit := false,
                                       feedback := Some(coached.summary), scores := Some(coached.scores))
      ensures Valid()
    {
      showFeedback := true;
      pendingExit := false;
      var result := GenerateCoachingFeedback(history, coachReply);
      feedback := Some(result.summary);
      scores := Some(result.scores);
    }

    /**
      The feedback form's submit, in the coaching view. The transcript file is
      always written; outside testing mode `save_conversation` follows,
      reading the form's rating from the session and empty written feedback
      and issue text, since no widget stores those two keys. The "report an
      issue" toggle is first drawn inside the submit branch, so on the submit
      run it is off and the transcript's issue text is always empty. An
      exception from the Google calls ends the run before the session records
      the submission. `clock` is the submit's `%Y-%m-%d %H:%M:%S` time and
      `saveClock` the one `save_conversation` reads itself.
    */
    method SubmitFeedback(gw: Gateway, feedbackText: string, rating: int,
                          clock: string, saveClock: string,
                          uploadOutcome: Result<string, string>, appendOutcome: Option<string>)
      returns (r: Result<string, string>)
      requires Valid() && showFeedback
      modifies this, gw
      ensures old(testingMode) ==>
        gw.files == old(gw.files)[SubmittedFileName(clock) :=
                      SubmittedTranscriptText(old(history), old(feedback).value, rating, feedbackText, "")]
        && gw.uploads == old(gw.uploads) && gw.appends == old(gw.appends)
        && r == Ok(SubmittedFileName(clock))
        && Snapshot() == old(Snapshot()).(filename := Some(SubmittedFileName(clock)), submitted := true)
      ensures !old(testingMode) ==>
        gw.files == old(gw.files)[SubmittedFileName(clock) :=
                      SubmittedTranscriptText(old(history), old(feedback).value, rating, feedbackText, "")]
                                 [ConversationFileName(saveClock) :=
                      ConversationLogText(old(history), old(feedback).value, old(scores).value, Some(rating), "", "")]
        && gw.uploads == old(gw.uploads) + [(ConversationFileName(saveClock), FolderConversations)]
      ensures !old(testingMode) ==>
        (r.Ok? ==> r == Ok(SubmittedFileName(clock))
                   && Snapshot() == old(Snapshot()).(filename := Some(SubmittedFileName(clock)), submitted := true))
        && (r.Err? ==> Snapshot() == old(Snapshot()))
      ensures !old(testingMode) && uploadOutcome.Err? ==> gw.appends == old(gw.appends) && r == Err(uploadOutcome.error)
      ensures !old(testingMode) && uploadOutcome.Ok? ==>
        gw.appends == old(gw.appends) + [(LogRow(ConversationFileName(saveClock), saveClock, Some(rating),
                                                 uploadOutcome.value, old(history), old(scores).value), ConversationSheet)]
        && r == if appendOutcome.Some? then Err(appendOutcome.value) else Ok(SubmittedFileName(clock))
      ensures Valid()
    {
      var name := SubmittedFileName(clock);
      var transcript := SubmittedTranscriptText(history, feedback.value, rating, feedbackText, "");
      gw.WriteFile(name, transcript);
      if !testingMode {
        var saved := SaveConversation(gw, history, feedback.value, scores.value, Some(rating), "", "",
                                      testingMode, saveClock, uploadOutcome, appendOutcome);
        if saved.Err? {
          return Err(saved.error);
        }
      }
      filename := Some(name);
      submitted := true;
      r := Ok(name);
    }

    /** "Return Home" in the coaching view: `reset_session`, then the main menu. */
    method ReturnHome()
      requires Valid() && showFeedback
      modifies this
      ensures Snapshot() == old(Snapshot()).(history := [], showFeedback := false, selectedConversation := None,
                                             chosenScenario := None, chosenPersonality := None, page := MainMenu)
      ensures Valid()
    {
      ResetSession();
      page := MainMenu;
    }
  }

  /** Submitting in testing mode writes the local transcript and calls neither Google service. */
  method SubmitInTestingMode(s: Session, gw: Gateway, feedbackText: string, rating: int, clock: string, saveClock: string,
                             uploadOutcome: Result<string, string>, appendOutcome: Option<string>)
    requires s.Valid() && s.showFeedback && s.testingMode
    modifies s, gw
    ensures gw.uploads == old(gw.uploads) && gw.appends == old(gw.appends)
    ensures s.submitted && s.Valid()
  {
    var r := s.SubmitFeedback(gw, feedbackText, rating, clock, saveClock, uploadOutcome, appendOutcome);
  }

  /** Raising the exit prompt and cancelling it gives back the session as it was. */
  method ExitThenCancel(s: Session)
    requires s.Valid() && s.history != [] && !s.showFeedback && !s.pendingExit
    modifies s
    ensures s.Snapshot() == old(s.Snapshot())
  {
    s.RequestExit();
    s.CancelExit();
  }

  /** Re-entering the conversation page keeps the picks and the history, whatever the new draws. */
  method ReenterKeepsPicks(s: Session, scenario1: string, personality1: string, scenario2: string, personality2: string)
    requires s.Valid()
    modifies s
    ensures s.chosenScenario == Some(old(s.chosenScenario).GetOr(scenario1))
    ensures s.chosenPersonality == Some(old(s.chosenPersonality).GetOr(personality1))
    ensures s.history != [] && s.history[0] == Turn(CustomerRole, Greeting)
  {
    s.EnterConversation(scenario1, personality1);
    ghost var first := s.Snapshot();
    s.EnterConversation(scenario2, personality2);
    assert s.Snapshot() == first;
  }

  /**
    A fresh session that opens the conversation and ends it at once: the
    history is only the greeting, so the coaching is the "too short" result
    whatever the coaching call would have produced.
  */
  method ImmediateExit(scenario: string, personality: string, coachReply: Result<string, string>) returns (s: Session)
    ensures s.history == [Turn(CustomerRole, Greeting)]
    ensures s.showFeedback && !s.pendingExit
    ensures s.feedback == Some(TooShortSummary) && s.scores == Some(AllNotAvailable)
  {
    s := new Session();
    s.EnterConversation(scenario, personality);
    s.RequestExit();
    s.ConfirmExit(coachReply);
  }

  /**
    Outside testing mode, when `save_conversation` reads the clock in the same
    second as the submit handler, both files get the same name and the
    conversation log, written second, replaces the submitted transcript.
  */
  method SameSecondSubmit(s: Session, gw: Gateway, feedbackText: string, rating: int,
                          clock: string, uploadOutcome: Result<string, string>, appendOutcome: Option<string>)
    requires s.Valid() && s.showFeedback && !s.testingMode
    modifies s, gw
    ensures SubmittedFileName(clock) in gw.files
    ensures gw.files[SubmittedFileName(clock)]
      == ConversationLogText(old(s.history), old(s.feedback).value, old(s.scores).value, Some(rating), "", "")
  {
    var r := s.SubmitFeedback(gw, feedbackText, rating, clock, Text.ReplaceChar(clock, ':', '-'),
                              uploadOutcome, appendOutcome);
  }

  /** `f"conversation_{timestamp.replace(':', '-')}.txt"`. */
  function SubmittedFileName(clock: string): string {
    "conversation_" + Text.ReplaceChar(clock, ':', '-') + ".txt"
  }
}
