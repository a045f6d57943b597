/**
  The effects of saving: the local files the app writes, and the calls made to
  `upload_to_drive` and `append_to_sheet`. The remote services are opaque:
  every call is recorded in order, and its outcome (the file's link or the
  exception's message) is an input.
*/
module Persistence {
  import opened Wrappers
  import opened Text
  import opened Transcript
  import opened Coaching
  import opened Records

  const FolderConversations := "1bgLn49otCu9G7lP8XgkCdGPNDRm70hKX"
  const FolderTesting := "1PD0VBVIyJIZPIcvE7h4sFwj02irgTrfL"
  const ConversationSheet := "BurgerXpress_Analytics"
  const GeneralFeedbackSheet := "Feedback_Analytics"

  /** The local working directory and the two remote services, as far as the app can observe them. */
  class Gateway {
    /** File name to contents, for the files written in the working directory. */
    var files: map<string, string>
    /** Every `upload_to_drive(file, folder)` call, in order. */
    var uploads: seq<(string, string)>
    /** Every `append_to_sheet(row, sheet)` call, in order. */
    var appends: seq<(seq<Cell>, string)>

    constructor ()
      ensures files == map[] && uploads == [] && appends == []
    {
      files := map[];
      uploads := [];
      appends := [];
    }

    /** `open(name, "w")` followed by the writes: the file now holds exactly `contents`. */
    method WriteFile(name: string, contents: string)
      modifies this
      ensures files == old(files)[name := contents]
      ensures uploads == old(uploads) && appends == old(appends)
    {
      files := files[name := contents];
    }

    /** `upload_to_drive(name, folder)`: returns the link, or raises with the given message. */
    method UploadToDrive(name: string, folder: string, outcome: Result<string, string>) returns (link: Result<string, string>)
      modifies this
      ensures uploads == old(uploads) + [(name, folder)]
      ensures files == old(files) && appends == old(appends)
      ensures link == outcome
    {
      uploads := uploads + [(name, folder)];
      link := outcome;
    }

    /** `append_to_sheet(row, sheet)`: returns nothing, or raises with the given message. */
    method AppendToSheet(row: seq<Cell>, sheet: string, outcome: Option<string>) returns (failure: Option<string>)
      modifies this
      ensures appends == old(appends) + [(row, sheet)]
      ensures files == old(files) && uploads == old(uploads)
      ensures failure == outcome
    {
      appends := appends + [(row, sheet)];
      failure := outcome;
    }
  }

  /** `f"conversation_{timestamp}.txt"`. */
  function ConversationFileName(timestamp: string): string {
    "conversation_" + timestamp + ".txt"
  }

  /** The folder `save_conversation` uploads to. */
  function UploadFolder(testingMode: bool): string {
    if testingMode then FolderTesting else FolderConversations
  }

  /**
    The body of the `with open(...)` block of `save_conversation`: the history
    loop, then the coaching, scoring and optional rating, written-feedback and
    issue blocks. Returns the loop's counters and flag with the file's text.
  */
  method ComposeConversationLog(history: seq<Turn>, feedback: string, scores: ScoreDict,
                                rating: Option<int>, feedbackText: string, issueDescription: string)
    returns (employee: nat, customer: nat, flag: string, text: string)
    ensures employee == CountCapitalized(history, EmployeeName)
    ensures customer == CountCapitalized(history, CustomerName)
    ensures flag == EscalationFlag(history)
    ensures text == ConversationLogText(history, feedback, scores, rating, feedbackText, issueDescription)
  {
    employee, customer, flag, text := TallyHistory(history);
    text := text + CoachingHeader + ScoringHeader + ScoreLines(scores) + feedback;
    text := text + RatingBlock(rating);
    text := text + WrittenFeedbackBlock(feedbackText);
    text := text + IssueBlock(issueDescription);
  }

  /**
    `save_conversation(history, feedback)`, given the session values it reads
    (`scores`, `feedback_rating`, `feedback_text`, `issue_description`,
    `testing_mode`), the clock's `timestamp` and the two services' outcomes.
    It writes the log file, uploads it, and appends the 12-column row; an
    exception from either service propagates, so a failed upload appends nothing.
  */
  method SaveConversation(gw: Gateway, history: seq<Turn>, feedback: string, scores: ScoreDict,
                          rating: Option<int>, feedbackText: string, issueDescription: string,
                          testingMode: bool, timestamp: string,
                          uploadOutcome: Result<string, string>, appendOutcome: Option<string>)
    returns (r: Result<string, string>)
    modifies gw
    ensures var name := ConversationFileName(timestamp);
      gw.files == old(gw.files)[name := ConversationLogText(history, feedback, scores, rating, feedbackText, issueDescription)]
      && gw.uploads == old(gw.uploads) + [(name, UploadFolder(testingMode))]
    ensures uploadOutcome.Err? ==> gw.appends == old(gw.appends) && r == Err(uploadOutcome.error)
    ensures uploadOutcome.Ok? ==>
      gw.appends == old(gw.appends)
        + [(LogRow(ConversationFileName(timestamp), timestamp, rating, uploadOutcome.value, history, scores), ConversationSheet)]
      && r == if appendOutcome.Some? then Err(appendOutcome.value) else Ok(ConversationFileName(timestamp))
  {
    var filename := ConversationFileName(timestamp);
    var employee, customer, flag, text := ComposeConversationLog(history, feedback, scores, rating, feedbackText, issueDescription);
    gw.WriteFile(filename, text);

    var link := gw.UploadToDrive(filename, UploadFolder(testingMode), uploadOutcome);
    if link.Err? {
      return Err(link.error);
    }
    var row := [Str(filename), Str(timestamp), RatingCell(rating), Str(link.value),
                Num(employee), Num(customer), Num(|history|), Str(flag)] + ScoreCellsOf(scores);
    assert row == LogRow(filename, timestamp, rating, link.value, history, scores);
    var failure := gw.AppendToSheet(row, ConversationSheet, appendOutcome);
    if failure.Some? {
      return Err(failure.value);
    }
    r := Ok(filename);
  }

  // ---------------------------------------------------------------- general feedback

  /** The answers of the general feedback form. */
  datatype GeneralAnswers = GeneralAnswers(
    rating: int, clarity: string, aiQuality: string, speed: string, usability: string, learning: string,
    fontComfort: string, layoutClarity: string, accessibility: string, suggestions: string, issues: string)

  /** The file the general feedback page writes. */
  function GeneralFeedbackText(timestamp: string, duration: int, a: GeneralAnswers): string {
    "=== General Feedback Submitted ===\n"
    + "Timestamp: " + timestamp + "\n"
    + "Time to complete: " + IntToString(duration) + " seconds\n"
    + "Experience Rating: " + IntToString(a.rating) + "/5\n"
    + "Task Clarity: " + a.clarity + "\n"
    + "AI Quality: " + a.aiQuality + "\n"
    + "Speed: " + a.speed + "\n"
    + "Usability: " + a.usability + "\n"
    + "Learning Value: " + a.learning + "\n"
    + "Font Comfort: " + a.fontComfort + "\n"
    + "Layout Clarity: " + a.layoutClarity + "\n"
    + "Ease of Navigation: " + a.accessibility + "\n"
    + "Suggestions: " + a.suggestions + "\n"
    + "Issues: " + a.issues + "\n"
  }

  /** The 14-column row of the general feedback sheet. */
  function GeneralFeedbackRow(timestamp: string, duration: int, a: GeneralAnswers, link: string): (row: seq<Cell>)
    ensures |row| == 14
  {
    [Str(timestamp), Num(duration), Num(a.rating), Str(a.clarity), Str(a.aiQuality), Str(a.speed),
     Str(a.usability), Str(a.learning), Str(a.fontComfort), Str(a.layoutClarity), Str(a.accessibility),
     Str(a.suggestions), Str(a.issues), Str(link)]
  }

  /**
    The columns of the general feedback row, in the order of the sheet: the
    timestamp, the duration, the rating, the five experience answers, the
    three interface answers, the two free texts, then the Drive link.
  */
  lemma GeneralFeedbackColumns(timestamp: string, duration: int, a: GeneralAnswers, link: string)
    ensures var row := GeneralFeedbackRow(timestamp, duration, a, link);
      row[0] == Str(timestamp) && row[1] == Num(duration) && row[2] == Num(a.rating)
      && row[3..8] == [Str(a.clarity), Str(a.aiQuality), Str(a.speed), Str(a.usability), Str(a.learning)]
      && row[8..11] == [Str(a.fontComfort), Str(a.layoutClarity), Str(a.accessibility)]
      && row[11] == Str(a.suggestions) && row[12] == Str(a.issues) && row[13] == Str(link)
  {
  }

  /**
    The submit branch of the general feedback page: the file is always written;
    outside testing mode it is uploaded to the conversations folder and the row
    appended, and in testing mode neither service is called.
  */
  method SubmitGeneralFeedback(gw: Gateway, testingMode: bool, timestamp: string, duration: int, a: GeneralAnswers,
                               uploadOutcome: Result<string, string>, appendOutcome: Option<string>)
    returns (r: Result<(), string>)
    modifies gw
    ensures gw.files == old(gw.files)["general_feedback_" + ReplaceChar(timestamp, ':', '-') + ".txt" := GeneralFeedbackText(timestamp, duration, a)]
    ensures testingMode ==> gw.uploads == old(gw.uploads) && gw.appends == old(gw.appends) && r == Ok(())
    ensures !testingMode ==> gw.uploads == old(gw.uploads) + [("general_feedback_" + ReplaceChar(timestamp, ':', '-') + ".txt", FolderConversations)]
    ensures !testingMode && uploadOutcome.Err? ==> gw.appends == old(gw.appends) && r == Err(uploadOutcome.error)
    ensures !testingMode && uploadOutcome.Ok? ==>
      gw.appends == old(gw.appends) + [(GeneralFeedbackRow(timestamp, duration, a, uploadOutcome.value), GeneralFeedbackSheet)]
      && r == if appendOutcome.Some? then Err(appendOutcome.value) else Ok(())
  {
    var filename := "general_feedback_" + ReplaceChar(timestamp, ':', '-') + ".txt";
    gw.WriteFile(filename, GeneralFeedbackText(timestamp, duration, a));
    r := Ok(());
    if !testingMode {
      var link := gw.UploadToDrive(filename, FolderConversations, uploadOutcome);
      if link.Err? {
        return Err(link.error);
      }
      var failure := gw.AppendToSheet(GeneralFeedbackRow(timestamp, duration, a, link.value), GeneralFeedbackSheet, appendOutcome);
      if failure.Some? {
        return Err(failure.value);
      }
    }
  }
}
