/**
  What `save_conversation` and the feedback-form submit write: the per-turn
  counters and the escalation flag, the conversation log file, the 12-column
  analytics row, and the transcript file the submit handler writes itself.
*/
module Records {
  import opened Wrappers
  import opened Text
  import opened Transcript
  import opened Coaching
  import Chat

  // ---------------------------------------------------------------- escalation

  /** The words whose presence in a lower-cased turn marks the conversation as escalated. */
  const EscalationKeywords := ["manager", "escalate", "supervisor", "complain", "issue"]

  /** `any(keyword in content.lower() for keyword in escalation_keywords)`. */
  predicate MentionsEscalation(content: string) {
    exists i | 0 <= i < |EscalationKeywords| :: Contains(Lower(content), EscalationKeywords[i])
  }

  /** Whether some turn so far mentioned a keyword, as the loop sees it after each entry. */
  function EscalatedSoFar(history: seq<Turn>): bool
    decreases |history|
  {
    if history == [] then false
    else EscalatedSoFar(history[..|history| - 1]) || MentionsEscalation(history[|history| - 1].content)
  }

  /** The escalation flag written to the analytics row. */
  function EscalationFlag(history: seq<Turn>): string {
    if EscalatedSoFar(history) then "Yes" else "No"
  }

  /** The flag is `Yes` exactly when some turn's lower-cased content holds a keyword, whatever the length. */
  lemma EscalationFlagIff(history: seq<Turn>)
    ensures EscalationFlag(history) == "Yes" <==> exists i | 0 <= i < |history| :: MentionsEscalation(history[i].content)
    ensures EscalationFlag(history) == "No" <==> forall i | 0 <= i < |history| :: !MentionsEscalation(history[i].content)
  {
    EscalatedSoFarIff(history);
    assert "Yes" != "No" by { assert "Yes"[0] != "No"[0]; }
  }

  /** The loop's flag is raised by the end exactly when some turn mentions a keyword. */
  lemma {:induction false} EscalatedSoFarIff(history: seq<Turn>)
    ensures EscalatedSoFar(history) <==> exists i | 0 <= i < |history| :: MentionsEscalation(history[i].content)
    decreases |history|
  {
    if history != [] {
      var n := |history| - 1;
      EscalatedSoFarIff(history[..n]);
      AnySnoc(history, (t: Turn) => MentionsEscalation(t.content));
    }
  }

  /** Lower-casing twice is lower-casing once. */
  lemma LowerIdempotent(s: string)
    ensures Lower(Lower(s)) == Lower(s)
  {
  }

  /** The keyword test ignores case: it gives the same answer on the lower-cased text. */
  lemma MentionsEscalationIgnoresCase(content: string)
    ensures MentionsEscalation(Lower(content)) == MentionsEscalation(content)
  {
    LowerIdempotent(content);
  }

  /** A stretch of the content that lower-cases to a keyword makes the turn count as an escalation. */
  lemma KeywordAt(content: string, k: nat, i: nat)
    requires i < |EscalationKeywords| && k + |EscalationKeywords[i]| <= |content|
    requires Lower(content[k..k + |EscalationKeywords[i]|]) == EscalationKeywords[i]
    ensures MentionsEscalation(content)
  {
    var w := EscalationKeywords[i];
    var lowered := Lower(content);
    assert lowered[k..k + |w|] == Lower(content[k..k + |w|]);
    ContainsAt(lowered, w, k);
  }

  /** A keyword written in capitals counts: `"Get your MANAGER"` escalates. */
  lemma CapitalKeywordEscalates()
    ensures MentionsEscalation("Get your MANAGER")
  {
    var content := "Get your MANAGER";
    assert content[9..16] == "MANAGER";
    assert Lower("MANAGER") == EscalationKeywords[0];
    KeywordAt(content, 9, 0);
  }

  /** The test is on substrings, so a keyword inside another word counts too: `"tissue"` holds `issue`. */
  lemma KeywordInsideWordEscalates()
    ensures MentionsEscalation("No tissue in the bag")
  {
    var content := "No tissue in the bag";
    assert content[4..9] == "issue";
    assert Lower("issue") == EscalationKeywords[4];
    KeywordAt(content, 4, 4);
  }

  // ---------------------------------------------------------------- counters

  const EmployeeName := "Employee"
  const CustomerName := "Customer"

  /** How many entries have a role whose `capitalize()` is `name`. */
  function CountCapitalized(history: seq<Turn>, name: string): nat
    decreases |history|
  {
    if history == [] then 0
    else CountCapitalized(history[..|history| - 1], name) + (if Capitalize(history[|history| - 1].role) == name then 1 else 0)
  }

  /** The role is counted as an employee or a customer turn. */
  predicate Counted(t: Turn) {
    var name := Capitalize(t.role);
    name == EmployeeName || name == CustomerName
  }

  /**
    The employee and customer counts together never exceed the number of turns,
    and equal it exactly when every role capitalises to one of the two names.
  */
  lemma {:induction false} CountsBound(history: seq<Turn>)
    ensures CountCapitalized(history, EmployeeName) + CountCapitalized(history, CustomerName) <= |history|
    ensures CountCapitalized(history, EmployeeName) + CountCapitalized(history, CustomerName) == |history|
      <==> forall i | 0 <= i < |history| :: Counted(history[i])
    decreases |history|
  {
    if history != [] {
      var n := |history| - 1;
      CountsBound(history[..n]);
      CountsLast(history);
      CountedSplit(history);
    }
  }

  /** Counting the last turn adds it to at most one of the two counts. */
  lemma CountsLast(history: seq<Turn>)
    requires history != []
    ensures var n := |history| - 1;
      CountCapitalized(history, EmployeeName) + CountCapitalized(history, CustomerName)
      == CountCapitalized(history[..n], EmployeeName) + CountCapitalized(history[..n], CustomerName)
         + (if Counted(history[n]) then 1 else 0)
  {
    assert EmployeeName != CustomerName by { assert EmployeeName[0] != CustomerName[0]; }
  }

  /** Every turn is counted exactly when every turn before the last is and the last one is. */
  lemma CountedSplit(history: seq<Turn>)
    requires history != []
    ensures var n := |history| - 1;
      (forall i | 0 <= i < |history| :: Counted(history[i]))
      <==> (forall i | 0 <= i < n :: Counted(history[..n][i])) && Counted(history[n])
  {
    AllSnoc(history, Counted);
  }

  /** A property holds of some element exactly when it holds of some element but the last, or of the last. */
  lemma AnySnoc<T>(s: seq<T>, p: T -> bool)
    requires s != []
    ensures var n := |s| - 1;
      (exists i | 0 <= i < |s| :: p(s[i])) <==> (exists i | 0 <= i < n :: p(s[..n][i])) || p(s[n])
  {
    AllSnoc(s, (x: T) => !p(x));
  }

  /** A property holds of every element exactly when it holds of every element but the last, and of the last. */
  lemma AllSnoc<T>(s: seq<T>, p: T -> bool)
    requires s != []
    ensures var n := |s| - 1;
      (forall i | 0 <= i < |s| :: p(s[i])) <==> (forall i | 0 <= i < n :: p(s[..n][i])) && p(s[n])
  {
    var n := |s| - 1;
    assert forall i | 0 <= i < n :: s[..n][i] == s[i];
  }

  /** The two plain roles capitalise to the two names the counters look for. */
  lemma CapitalizeRoles()
    ensures Capitalize(EmployeeRole) == EmployeeName
    ensures Capitalize(CustomerRole) == CustomerName
  {
    CapitalizeLowerWord(EmployeeRole, EmployeeName);
    CapitalizeLowerWord(CustomerRole, CustomerName);
  }

  /** A word in lower case capitalises to its first letter upper-cased, the rest as is. */
  lemma CapitalizeLowerWord(word: string, name: string)
    requires word != [] && |name| == |word| && name[0] == UpperChar(word[0]) && name[1..] == word[1..]
    requires forall j | 0 <= j < |word| :: !('A' <= word[j] <= 'Z')
    ensures Capitalize(word) == name
  {
    LowerNoCapitals(word[1..]);
    assert name == [name[0]] + name[1..];
  }

  /** With only `employee` and `customer` roles, the two counts add up to the length of the history. */
  lemma CountsCoverPlainRoles(history: seq<Turn>)
    requires forall i | 0 <= i < |history| :: history[i].role in {EmployeeRole, CustomerRole}
    ensures CountCapitalized(history, EmployeeName) + CountCapitalized(history, CustomerName) == |history|
  {
    CapitalizeRoles();
    CountsBound(history);
  }

  /**
    The counters compare capitalised roles, the chat prompt exact ones: an
    `EMPLOYEE` entry is counted as an employee turn but is not sent to the model.
  */
  lemma CountedButNotSent()
    ensures CountCapitalized([Turn("EMPLOYEE", "hello")], EmployeeName) == 1
    ensures Chat.KeptTurns([Turn("EMPLOYEE", "hello")]) == []
  {
    assert [Turn("EMPLOYEE", "hello")][..0] == [];
    assert Lower("MPLOYEE") == "mployee";
  }

  // ---------------------------------------------------------------- log file

  const HistoryHeader := "=== Conversation History ===\n"
  const CoachingHeader := "\n=== Coaching Feedback ===\n"

  /** The `Key: value` lines of the scores, in dictionary order. */
  function ScoreLines(scores: ScoreDict): string
    decreases |scores|
  {
    if scores == [] then "" else scores[0].0 + ": " + scores[0].1 + "\n" + ScoreLines(scores[1..])
  }

  /** Python truthiness of the rating read from the session: present and non-zero. */
  predicate RatingGiven(rating: Option<int>) {
    rating.Some? && rating.value != 0
  }

  const ScoringHeader := "\n=== AI Scoring ===\n"

  function RatingBlock(rating: Option<int>): string {
    if RatingGiven(rating) then "\n\n=== Feedback Rating ===\n" + IntToString(rating.value) + "/5" else ""
  }

  function WrittenFeedbackBlock(feedbackText: string): string {
    if feedbackText != "" then "\n\n=== Written Feedback ===\n" + feedbackText else ""
  }

  function IssueBlock(issueDescription: string): string {
    if issueDescription != "" then "\n\n=== Issue Description ===\n" + issueDescription else ""
  }

  /** The file `save_conversation` writes. */
  function ConversationLogText(history: seq<Turn>, feedback: string, scores: ScoreDict,
                               rating: Option<int>, feedbackText: string, issueDescription: string): string
  {
    HistoryHeader + HistoryText(history) + CoachingHeader + ScoringHeader + ScoreLines(scores) + feedback
    + RatingBlock(rating) + WrittenFeedbackBlock(feedbackText) + IssueBlock(issueDescription)
  }

  /** The file the submit handler writes before (and whether or not) `save_conversation` runs. */
  function SubmittedTranscriptText(history: seq<Turn>, feedback: string, rating: int,
                                   feedbackText: string, issueDescription: string): string
  {
    HistoryHeader + HistoryText(history) + CoachingHeader + feedback
    + "\n\n=== Feedback Rating ===\n" + IntToString(rating) + "/5\n"
    + "\n=== Written Feedback ===\n" + feedbackText + "\n"
    + (if issueDescription != "" then "\n=== Issue Reported ===\n" + issueDescription + "\n" else "")
  }

  // ---------------------------------------------------------------- the loop

  /** What one more turn does to the counters, the flag and the written block. */
  lemma TallyStep(prefix: seq<Turn>, t: Turn)
    ensures CountCapitalized(prefix + [t], EmployeeName)
      == CountCapitalized(prefix, EmployeeName) + (if Capitalize(t.role) == EmployeeName then 1 else 0)
    ensures CountCapitalized(prefix + [t], CustomerName)
      == CountCapitalized(prefix, CustomerName) + (if Capitalize(t.role) == CustomerName then 1 else 0)
    ensures EscalationFlag(prefix + [t]) == if MentionsEscalation(t.content) then "Yes" else EscalationFlag(prefix)
    ensures HistoryHeader + HistoryText(prefix + [t]) == (HistoryHeader + HistoryText(prefix)) + TurnLine(t)
  {
    assert (prefix + [t])[..|prefix|] == prefix;
    HistoryTextSnoc(prefix, t);
  }

  /** The counter and flag updates for one entry: the `if`/`elif` on the role, then the keyword test. */
  method CountEntry(employee: nat, customer: nat, flag: string, entry: Turn)
    returns (employee': nat, customer': nat, flag': string)
    ensures employee' == employee + (if Capitalize(entry.role) == EmployeeName then 1 else 0)
    ensures customer' == customer + (if Capitalize(entry.role) == CustomerName then 1 else 0)
    ensures flag' == if MentionsEscalation(entry.content) then "Yes" else flag
  {
    employee', customer', flag' := employee, customer, flag;
    var role := Capitalize(entry.role);
    if role == EmployeeName {
      employee' := employee + 1;
    } else if role == CustomerName {
      customer' := customer + 1;
    }
    if MentionsEscalation(entry.content) {
      flag' := "Yes";
    }
  }

  /**
    The loop of `save_conversation` over the history: writes each turn's line
    after the header and updates the two counters and the flag.
  */
  method TallyHistory(history: seq<Turn>) returns (employee: nat, customer: nat, flag: string, text: string)
    ensures employee == CountCapitalized(history, EmployeeName)
    ensures customer == CountCapitalized(history, CustomerName)
    ensures flag == EscalationFlag(history)
    ensures text == HistoryHeader + HistoryText(history)
  {
    employee, customer, flag := 0, 0, "No";
    text := HistoryHeader;
    for i := 0 to |history|
      invariant employee == CountCapitalized(history[..i], EmployeeName)
      invariant customer == CountCapitalized(history[..i], CustomerName)
      invariant flag == EscalationFlag(history[..i])
      invariant text == HistoryHeader + HistoryText(history[..i])
    {
      var entry := history[i];
      assert history[..i + 1] == history[..i] + [entry];
      TallyStep(history[..i], entry);
      text := text + TurnLine(entry);
      employee, customer, flag := CountEntry(employee, customer, flag, entry);
    }
    assert history[..|history|] == history;
  }

  // ---------------------------------------------------------------- the row

  /** One cell of a spreadsheet row: text or a number. */
  datatype Cell = Str(s: string) | Num(n: int)

  /** `rating or "N/A"`. */
  function RatingCell(rating: Option<int>): Cell {
    if RatingGiven(rating) then Num(rating.value) else Str(NotAvailable)
  }

  /** The 12-column row appended to the conversation analytics sheet. */
  function LogRow(filename: string, timestamp: string, rating: Option<int>, driveUrl: string,
                  history: seq<Turn>, scores: ScoreDict): (row: seq<Cell>)
    ensures |row| == 12
  {
    [Str(filename), Str(timestamp), RatingCell(rating), Str(driveUrl),
     Num(CountCapitalized(history, EmployeeName)), Num(CountCapitalized(history, CustomerName)),
     Num(|history|), Str(EscalationFlag(history))]
    + ScoreCellsOf(scores)
  }

  /** The four score cells, in category order, `"N/A"` where a key is missing. */
  function ScoreCellsOf(scores: ScoreDict): seq<Cell> {
    seq(4, i requires 0 <= i < 4 => Str(GetOr(scores, Categories[i], NotAvailable)))
  }

  /** The first four columns: file name, timestamp, rating (`N/A` exactly when it is not truthy) and link. */
  lemma LogRowHeadColumns(filename: string, timestamp: string, rating: Option<int>, driveUrl: string,
                          history: seq<Turn>, scores: ScoreDict)
    ensures var row := LogRow(filename, timestamp, rating, driveUrl, history, scores);
      row[0] == Str(filename) && row[1] == Str(timestamp) && row[3] == Str(driveUrl)
      && (row[2] == Str(NotAvailable) <==> !RatingGiven(rating))
      && (RatingGiven(rating) ==> row[2] == Num(rating.value))
  {
  }

  /**
    The counting columns: columns 5 and 6 hold the employee and customer counts,
    which are non-negative and sum to at most the total turn count in column 7,
    and the flag is `Yes` exactly when some turn
    mentions an escalation keyword, `No` otherwise.
  */
  lemma LogRowCountColumns(filename: string, timestamp: string, rating: Option<int>, driveUrl: string,
                           history: seq<Turn>, scores: ScoreDict)
    ensures var row := LogRow(filename, timestamp, rating, driveUrl, history, scores);
      row[4] == Num(CountCapitalized(history, EmployeeName)) && row[5] == Num(CountCapitalized(history, CustomerName))
    ensures LogRow(filename, timestamp, rating, driveUrl, history, scores)[6] == Num(|history|)
    ensures var row := LogRow(filename, timestamp, rating, driveUrl, history, scores);
      0 <= row[4].n && 0 <= row[5].n && row[4].n + row[5].n <= row[6].n
    ensures var row := LogRow(filename, timestamp, rating, driveUrl, history, scores);
      row[7] == Str("Yes") || row[7] == Str("No")
    ensures var row := LogRow(filename, timestamp, rating, driveUrl, history, scores);
      row[7] == Str("Yes") <==> exists i | 0 <= i < |history| :: MentionsEscalation(history[i].content)
  {
    LogRowCountCells(filename, timestamp, rating, driveUrl, history, scores);
    CountsBound(history);
    EscalationFlagIff(history);
  }

  /** Columns 5 and 6 of the row hold the employee and the customer count. */
  lemma LogRowCountCells(filename: string, timestamp: string, rating: Option<int>, driveUrl: string,
                         history: seq<Turn>, scores: ScoreDict)
    ensures var row := LogRow(filename, timestamp, rating, driveUrl, history, scores);
      row[4] == Num(CountCapitalized(history, EmployeeName)) && row[5] == Num(CountCapitalized(history, CustomerName))
  {
  }

  /** The last four columns: the scores of the four categories in fixed order, `N/A` where a key is missing. */
  lemma LogRowScoreColumns(filename: string, timestamp: string, rating: Option<int>, driveUrl: string,
                           history: seq<Turn>, scores: ScoreDict)
    ensures var row := LogRow(filename, timestamp, rating, driveUrl, history, scores);
      forall c | 0 <= c < 4 ::
        row[8 + c] == Str(if Get(scores, Categories[c]).Some? then Get(scores, Categories[c]).value else NotAvailable)
  {
  }
}
