# BurgerXpress training app: a Dafny model of its core

BurgerXpress Training is a Streamlit app for fast-food crew. An employee chats with a
simulated customer, played by a language model that has a random scenario and
personality. When the employee ends the conversation, the model acts as a coach:
it writes bullet-point feedback and a score breakdown, and the app parses that
breakdown into four categories. The employee then rates the experience and
submits. The app writes the conversation to a local file. Outside testing mode,
it also uploads the file to Google Drive and appends a 12-column analytics row
to a Google Sheet.

The model covers:

- **Text** (`text.dfy`): the Python `str` operations the app relies on, written out
  exactly:
  - `strip`, `lstrip`, `rstrip`, with Python's whitespace set;
  - `find`, `in`;
  - `split` (leftmost, non-overlapping), `"\n".join`;
  - `splitlines`, including `\r\n` and the other line boundaries;
  - ASCII `lower` and `capitalize`;
  - `str(int)`.
- **Transcript** (`transcript.dfy`): the `Role: content` lines that both
  conversation files write, and a reader that recovers the turns from them.
- **Coaching** (`coaching.dfy`): `generate_coaching_feedback`:
  - the too-short case, the error fallback and the parse of the reply;
  - the score dictionary, as an insertion-ordered association list;
  - the parsing loop.
- **Chat** (`chat.dfy`): `format_conversation_for_openai`. It builds the system
  prompt, then maps roles (`employee` to `user`, `customer` to `assistant`) and
  drops every other role.
- **Records** (`records.dfy`): what `save_conversation` computes:
  - the employee/customer counters and the escalation flag;
  - the log file's text;
  - the 12-column row;
  - the transcript the submit handler writes.
- **Persistence** (`persistence.dfy`): a `Gateway` object. It records the local
  files written and every `upload_to_drive` / `append_to_sheet` call, in order.
  On it sit `save_conversation` and the general-feedback submit.
- **Session** (`session.dfy`): `st.session_state` as a class, with one method per
  handler:
  - sidebar navigation and the developer password `test123`;
  - entering the conversation page;
  - an employee turn;
  - exit, cancel and confirm;
  - submit, including the testing-mode suppression of `save_conversation`;
  - return home with `reset_session`.

Inputs:
- The language model's replies, the Google services' outcomes, the clock, the
  random picks and the menu's JSON text are parameters.
- A model reply is `Ok(text)` or `Err(message of the exception)`.
- A stream reply is its list of chunk contents, where `None` stands for a null delta.

Behaviour of the code worth noting, as the model states it:

- In testing mode the submit handler does not call `save_conversation` at all
  (main.py:454-455). Its `FOLDER_TESTING` branch (main.py:180) therefore cannot be
  reached from the submit path. `UploadFolder` models it; `SubmitInTestingMode`
  shows that no service is called.
- The employee's turn is appended to the history before the model is called. When
  the call fails, the turn stays and no customer turn follows (main.py:375-400).
- A reply that does not split into exactly two pieces at `=== Scores ===` falls back
  to `"An error occurred: "` followed by the `ValueError` text. The text is the
  wording of Python 3.12 and earlier.
- The log file's order is:
  1. the history;
  2. the coaching header;
  3. the `AI Scoring` header;
  4. the score lines;
  5. the feedback text;
  6. the optional rating, written-feedback and issue blocks (main.py:144-177).
- `save_conversation` reads `feedback_text` and `issue_description` from the
  session, but no handler ever stores those keys. The submit handler therefore
  effectively passes `""` for both. The rating comes from the slider's key.
- The "report an issue" toggle is first drawn inside the submit branch
  (main.py:434-437). On the submit run it is therefore off, so the submitted
  transcript's `=== Issue Reported ===` block (main.py:451-452) is never written.
  `SubmitFeedback` passes empty issue text.
- The submitted transcript's name is `conversation_<clock with ':' replaced by '-'>.txt`.
  The log's name is `conversation_<clock formatted with '-'>.txt`. When both read
  the clock in the same second, the names are equal, and the log (written second)
  replaces the transcript (`SameSecondSubmit`).
- The counters compare `role.capitalize()` with `Employee` / `Customer`. The chat
  mapping compares the exact role with `employee` / `customer`. So a role such as
  `EMPLOYEE` is counted but never sent to the model (`CountedButNotSent`).
- `split` takes the leftmost non-overlapping occurrences. A reply whose delimiter
  occurrences overlap, such as `=== Scores === Scores ===`, parses successfully
  (`OverlappingDelimitersParse`).

## Model

| member | source | states |
|---|---|---|
| Text.Strip | main.py:241 | `content.strip()`: the result starts and ends with a non-space character, and it is empty exactly when the input is all whitespace |
| Text.StripIdempotent | main.py:241 | `strip()` is idempotent: stripping a stripped text changes nothing |
| Text.Find | main.py:243 | `find`: a found index is an occurrence with none before it; no result means no occurrence anywhere |
| Text.SplitJoin | main.py:243 | `sep.join(s.split(sep)) == s`: the pieces of `split` lose nothing |
| Text.SplitAbsent | main.py:243 | without the separator, `split` gives the whole string as one piece, so the two-name unpacking fails |
| Text.SplitInTwo | main.py:243 | one leftmost occurrence and none after it: exactly the two pieces before and after it |
| Text.SplitInThreeOrMore | main.py:243 | a second non-overlapping occurrence after the leftmost: three or more pieces |
| Text.SplitLinesJoin | main.py:244 | `"\n".join(s.splitlines())` gives back any text that holds only `\n` breaks and does not end in one |
| Text.SplitLinesOfJoin | main.py:244 | `splitlines` of `"\n".join` of lines without breaks, the last one non-empty, gives back exactly those lines |
| Text.Capitalize | main.py:147 | `capitalize()` keeps the length, upper-cases the first character, lower-cases every later one, and leaves every non-letter character where it was |
| Text.Lower | main.py:156 | `lower()` keeps the length and lower-cases every character |
| Text.NatToStringRoundTrip | main.py:173 | the decimal text of a number, as written by `f"{rating}/5"`, reads back to that number |
| Transcript.HistoryTextSnoc | main.py:146-149 | writing one more turn appends exactly its `Role: content\n` line |
| Transcript.ReadTurnLine | main.py:149 | a turn's line ends at its own newline and reads back as the capitalised role and the content |
| Transcript.ReadHistoryTextCons | main.py:146-149 | reading a block that starts with a turn's line gives that turn, then the rest |
| Transcript.HistoryTextRoundTrip | main.py:146-149 | round trip of the history block: reading the written lines back gives each turn's capitalised role and exact content, in order, when no content has a newline and no role a colon or newline |
| Coaching.GetNone | main.py:245-249 | a key is missing from the dictionary exactly when no entry carries it |
| Coaching.PutGet | main.py:249 | `scores[key] = val` makes `key` map to `val` and leaves every other key alone |
| Coaching.PutKeepsOrder | main.py:249 | assigning an existing key keeps the order of keys; assigning a new key appends it at the end |
| Coaching.PutDistinct | main.py:249 | assignment keeps the keys distinct |
| Coaching.Collect | main.py:245-249 | the dictionary built by the loop has distinct keys |
| Coaching.CollectKeyAbsent | main.py:245-249 | a key is absent from the loop's dictionary exactly when no line sets it |
| Coaching.CollectLastWins | main.py:245-249 | the last line setting a key decides its value |
| Coaching.ScoresOfKeyAbsent | main.py:244-249 | over the score lines: a category is missing exactly when no line with a colon has it as its stripped key |
| Coaching.ScoresOfKeyUnset | main.py:244-249 | a missing category was set by no line |
| Coaching.ScoresOfKeySet | main.py:244-249 | a present category was set by some line |
| Coaching.ScoresOfLastWins | main.py:246-249 | the last line naming a category decides its score |
| Coaching.ParseScoreLines | main.py:245-249 | the parsing loop computes exactly the dictionary of the line-by-line definition |
| Coaching.Coach | main.py:203-264 | fewer than three turns: the too-short summary and four `N/A` scores; a failed model call: `An error occurred: ` and the message, with four `N/A` scores; a reply whose unpacking fails: `An error occurred: ` and the `ValueError` text, with four `N/A` scores; a reply that parses: exactly the parsed summary and scores; the score keys are always distinct |
| Coaching.AllNotAvailableIsFourNA | main.py:205-213 | the fallback dictionary holds exactly the four categories, each `N/A` |
| Coaching.ParseAtDelimiter | main.py:241-254 | with one leftmost delimiter and none after it, the summary is the stripped text before it and the scores are those of the stripped lines after it |
| Coaching.ParseSingleDelimiter | main.py:243-252 | a single delimiter parses, and the summary is the stripped text before it |
| Coaching.ParseMissingDelimiter | main.py:243 | no delimiter: the unpacking fails with "not enough values" |
| Coaching.ParseRepeatedDelimiter | main.py:243 | two non-overlapping delimiters: the unpacking fails with "too many values" |
| Coaching.ScoreLineEntry | main.py:247-249 | a `Key: value` line with tidy parts and a colon-free key reads back as that key and value |
| Coaching.CollectPresent | main.py:245-249 | feeding a dictionary's own entries through the loop rebuilds it |
| Coaching.ScoresOfScoreLines | main.py:244-249 | the score lines of a well-formed dictionary parse back to that dictionary, in order |
| Coaching.ScoreBlock | main.py:244 | the joined score lines are tidy, contain no `=`, and `splitlines` gives them back |
| Coaching.FramedOccurrence | main.py:243 | in `summary`, blank line, delimiter, newline, block, the delimiter occurs once: right after the summary |
| Coaching.SplitFramed | main.py:243 | `split` of that text gives the summary with its blank line, then the block with its newline |
| Coaching.FramedParse | main.py:241-254 | parsing that text gives back the summary and the block's scores |
| Coaching.FormattedReplyRoundTrip | main.py:215-254 | round trip: a reply in the format the coaching prompt requests parses back to exactly its summary and its scores |
| Coaching.ParseOfSplit | main.py:241-254 | a stripped text that splits into two pieces parses to the stripped first piece and the scores of the second |
| Coaching.OverlappingDelimitersParse | main.py:243 | `=== Scores === Scores ===` holds the delimiter at 0 and at 11, yet it parses to an empty summary and no scores, because `split` does not count overlapping occurrences |
| Coaching.ParseStrippedAtStart | main.py:243-252 | a stripped text shorter than two delimiters and starting with one parses to an empty summary |
| Coaching.CoachFormattedReply | main.py:203-254 | with three turns or more, a reply in the requested format yields exactly its own summary and scores |
| Coaching.CoachMissingDelimiter | main.py:243-264 | with three turns or more, a reply without the delimiter yields the "not enough values" error text and four `N/A` scores |
| Coaching.CoachRepeatedDelimiter | main.py:243-264 | with three turns or more, a reply with two non-overlapping delimiters yields the "too many values" error text and four `N/A` scores |
| Coaching.GenerateCoachingFeedback | main.py:203-264 | the function itself, with its branches and loop, returns exactly `Coach`'s result |
| Chat.BuildPrompt | main.py:312-318 | the message loop produces the system message followed by the mapped history |
| Chat.FormatConversationForOpenai | main.py:298-318 | the message list is the system prompt, built from the chosen scenario and personality (or their placeholders) and the menu, followed by the mapped history |
| Chat.MappedTurnsMatchKept | main.py:313-317 | one message per kept entry, in order: `employee` becomes `user`, `customer` becomes `assistant`, the content is unchanged |
| Chat.KeptTurnsRoles | main.py:314-317 | only `employee` and `customer` entries are sent |
| Chat.KeptTurnsCount | main.py:313-317 | the number of sent turns is the number of `employee` entries plus the number of `customer` entries |
| Chat.KeptTurnsAll | main.py:313-317 | a history with only those two roles is sent in full |
| Chat.PromptShape | main.py:312-318 | the list has one message more than the kept turns; the first is the system message; message `i + 1` is kept turn `i` under its mapped role |
| Chat.UnmapMappedTurns | main.py:313-317 | mapping the roles back recovers the kept history: nothing is reordered or altered |
| Records.EscalationFlagIff | main.py:141-157 | the flag is `Yes` exactly when some turn's lower-cased content contains a keyword, and `No` exactly when none does |
| Records.EscalatedSoFarIff | main.py:156-157 | after any prefix, the loop's flag is set exactly when some turn so far mentioned a keyword |
| Records.MentionsEscalationIgnoresCase | main.py:156 | the keyword test ignores case |
| Records.KeywordAt | main.py:156 | any stretch of content that lower-cases to a keyword triggers the flag |
| Records.CapitalKeywordEscalates | main.py:156 | `MANAGER` in capitals triggers it |
| Records.KeywordInsideWordEscalates | main.py:156 | the test matches substrings: the `issue` in `tissue` triggers it |
| Records.CountsBound | main.py:139-154 | the two counters add up to at most the number of turns, and to exactly that number when every role capitalises to `Employee` or `Customer` |
| Records.CapitalizeRoles | main.py:147-153 | `employee` and `customer` capitalise to the compared names |
| Records.CountsCoverPlainRoles | main.py:139-154 | with only the app's own two roles, every turn is counted |
| Records.CountedButNotSent | main.py:147-153 | `EMPLOYEE` counts as an employee turn, but the chat mapping drops it |
| Records.TallyStep | main.py:146-157 | one more entry adds its line to the text, one to the matching counter, and sets the flag if it mentions a keyword |
| Records.CountEntry | main.py:151-157 | one entry adds one to the employee counter exactly when its capitalised role is `Employee`, one to the customer counter exactly when it is `Customer`, and sets the flag to `Yes` when its content mentions a keyword |
| Records.TallyHistory | main.py:139-157 | the loop computes the two counts, the flag and the history block of the definitions |
| Records.LogRow | main.py:185-198 | the analytics row has 12 columns |
| Records.LogRowHeadColumns | main.py:185-189 | the row starts with the file name and the timestamp; the rating column is `N/A` exactly when no non-zero rating is stored, and otherwise the rating; then the Drive link |
| Records.LogRowCountColumns | main.py:190-193 | column 5 holds the number of turns whose capitalised role is `Employee` and column 6 the number whose capitalised role is `Customer`; the two add up to at most the history's length, given in column 7; the flag column is `Yes` exactly when a turn mentions a keyword, and `No` otherwise |
| Records.LogRowScoreColumns | main.py:194-197 | the four score columns hold each category's score, or `N/A` |
| Persistence.Gateway.WriteFile | main.py:144 | writing a file replaces its whole contents and leaves the remote services untouched |
| Persistence.Gateway.UploadToDrive | main.py:181 | an upload is recorded and returns the link or the error |
| Persistence.Gateway.AppendToSheet | main.py:185 | an append is recorded |
| Persistence.ComposeConversationLog | main.py:139-177 | the counters and the flag as defined, and the file text in the app's order |
| Persistence.SaveConversation | main.py:133-200 | the log file is written, then uploaded to the testing or conversations folder; if the upload fails nothing is appended; otherwise the 12-column row is appended and the file name returned |
| Persistence.GeneralFeedbackRow | main.py:730-745 | the feedback row has 14 columns |
| Persistence.GeneralFeedbackColumns | main.py:730-745 | the row's columns in order: timestamp, duration, rating, the five experience answers, the three interface answers, suggestions, issues, and the Drive link |
| Persistence.SubmitGeneralFeedback | main.py:702-745 | the feedback file is always written; in testing mode no service is called; otherwise it is uploaded to the conversations folder and the row appended |
| Session.StreamTextAppend | main.py:380-383 | the reply collected from a stream is the concatenation of its chunks in order, with a null chunk counting as empty |
| Session.CollectStream | main.py:380-383 | the loop computes that reply |
| Session.Session.constructor | main.py:121-130 | a new session is on the main menu with an empty history, no feedback shown and testing mode off |
| Session.Session.Navigate | main.py:825-828 | a sidebar button changes the page and nothing else |
| Session.Session.ApplyDeveloperPassword | main.py:835-840 | testing mode is on exactly when the password is `test123`; nothing else changes |
| Session.Session.ResetSession | main.py:267-272 | reset clears the history, the feedback view, the selected conversation and both picks, and keeps the stored feedback, scores, the exit prompt and the page |
| Session.Session.EnterConversation | main.py:321-334 | existing picks are kept, missing ones are drawn; an empty history gets the customer's greeting |
| Session.Session.EmployeeTurn | main.py:374-400 | empty input changes nothing; otherwise the employee turn is appended, the model receives the prompt for the history including that turn, and the streamed reply is appended as the customer's turn only when the call succeeds |
| Session.Session.RequestExit | main.py:402-405 | the exit button only raises the confirmation prompt |
| Session.Session.CancelExit | main.py:416-418 | cancel only lowers the prompt |
| Session.Session.ConfirmExit | main.py:407-415 | confirming shows the coaching and stores the summary and scores that `Coach` computes from the history |
| Session.Session.SubmitFeedback | main.py:433-460 | the transcript is always written, with empty issue text because the issue toggle is first drawn on the submit run itself; in testing mode nothing else is saved; otherwise `save_conversation` runs with the stored feedback and scores, and the submission is marked only when it returns |
| Session.Session.ReturnHome | main.py:462-465 | reset, then back to the main menu |
| Session.SubmitInTestingMode | main.py:454-459 | in testing mode a submit calls no remote service and is marked submitted |
| Session.ExitThenCancel | main.py:402-418 | exit then cancel leaves the session as it was |
| Session.ReenterKeepsPicks | main.py:321-325 | re-entering the page never changes the scenario or personality already chosen |
| Session.ImmediateExit | main.py:321-334 | exiting right after the greeting gives the too-short summary and four `N/A` scores |
| Session.SameSecondSubmit | main.py:439-455 | outside testing mode, a log written in the same second takes the submitted transcript's name and replaces its contents |

## Left out

- The Streamlit UI is not modelled: layout, widgets, `st.rerun`, the chat bubbles, the feedback display and the charts. Button presses become method calls. Each method's `requires` states the session flags under which its widget is drawn (`show_feedback`, `pending_exit`) and, for the input box and the exit, confirm and cancel buttons, a started conversation (a non-empty history: the greeting is appended at main.py:327-334 before any of them is drawn). The requires leave out the page: the input box and the exit, confirm, cancel, submit and return-home buttons are drawn only on the conversation page (main.py:845-846), and no method requires `page == StartConversation`.
- The model calls (`openai.chat.completions.create`) are not modelled. Their replies are parameters, and the exception message of a failed call is a string.
- The coaching prompt's text (main.py:215-233) is not modelled: it only goes to the model, whose reply is an input.
- Voice input, Whisper transcription and gTTS speech synthesis are left out. They are I/O, and a transcription gives the same `user_input` as typed text.
- `google_utils` is not part of this model. `upload_to_drive` and `append_to_sheet` become recorded calls whose outcome is an input.
- `datetime.now()` and `strftime` become a timestamp string parameter. `random.choice` becomes the picked value, as a parameter.
- `json.dumps(menu, indent=2)` and the loading of the scenario and menu files become the menu's JSON text, as an input.
- The past-conversations, analytics, instructions, menu and guidelines pages and the chart export are not modelled. They only display data.
- Text.Lower: models only ASCII lower-casing. No keyword and no role name is affected by the non-ASCII cases.
- Text.Capitalize: models only ASCII letters, for the same reason.
- Records.LogRow: its contract states only the width. The columns are stated by `LogRowHeadColumns`, `LogRowCountColumns` and `LogRowScoreColumns`.
- The exception message of a failed Drive upload or sheet append is the method's `Err` result. The model does not say how Streamlit shows it.
