/**
  Turns of the conversation and the `Role: content` lines that both transcript
  files of the app write for them, with a reader that recovers the turns.
*/
module Transcript {
  import opened Wrappers
  import opened Text

  /** One entry of `conversation_history`: `{"role": ..., "content": ...}`. */
  datatype Turn = Turn(role: string, content: string)

  const EmployeeRole := "employee"
  const CustomerRole := "customer"

  /** The line written for one turn: `f"{role.capitalize()}: {content}\n"`. */
  function TurnLine(t: Turn): string {
    Capitalize(t.role) + ": " + t.content + "\n"
  }

  /** All turn lines, in history order. */
  function HistoryText(history: seq<Turn>): string
    decreases |history|
  {
    if history == [] then "" else TurnLine(history[0]) + HistoryText(history[1..])
  }

  /** Writing one more turn appends its line: the shape of the writing loop. */
  lemma {:induction false} HistoryTextSnoc(history: seq<Turn>, t: Turn)
    ensures HistoryText(history + [t]) == HistoryText(history) + TurnLine(t)
    decreases |history|
  {
    if history == [] {
      assert [] + [t] == [t];
    } else {
      assert (history + [t])[1..] == history[1..] + [t];
      HistoryTextSnoc(history[1..], t);
    }
  }

  /** Reads one `Role: content` line back into its two halves. */
  function ReadLine(line: string): (string, string) {
    match Find(line, ": ")
    case None => (line, "")
    case Some(i) => (line[..i], line[i + 2..])
  }

  /** Reads every `\n`-terminated line of a history block. */
  function ReadHistoryText(text: string): seq<(string, string)>
    decreases |text|
  {
    match Find(text, "\n")
    case None => []
    case Some(i) => [ReadLine(text[..i])] + ReadHistoryText(text[i + 1..])
  }

  /** What a reader can recover of each turn: the capitalised role and the content. */
  function Rendered(history: seq<Turn>): seq<(string, string)> {
    seq(|history|, i requires 0 <= i < |history| => (Capitalize(history[i].role), history[i].content))
  }

  /** The turn is written on one line and its role ends at the first `: `. */
  predicate Readable(t: Turn) {
    ':' !in t.role && '\n' !in t.role && '\n' !in t.content
  }

  /** A readable turn's line is read back at its own `\n` as its capitalised role and its content. */
  lemma ReadTurnLine(t: Turn, rest: string)
    requires Readable(t)
    ensures Find(TurnLine(t) + rest, "\n") == Some(|TurnLine(t)| - 1)
    ensures ReadLine(TurnLine(t)[..|TurnLine(t)| - 1]) == (Capitalize(t.role), t.content)
  {
    var role := Capitalize(t.role);
    CapitalizeKeepsOut(t.role, '\n');
    CapitalizeKeepsOut(t.role, ':');
    var line := role + ": " + t.content;
    assert TurnLine(t) + rest == line + "\n" + rest;
    FindAfterPrefix(line, "\n", rest);
    assert TurnLine(t)[..|TurnLine(t)| - 1] == line;
    assert line + [] == role + ": " + t.content;
    FindAfterPrefix(role, ": ", t.content);
    assert line[..|role|] == role;
    assert line[|role| + 2..] == t.content;
  }

  /** The rendered view of a non-empty history: its first turn, then the rest. */
  lemma RenderedCons(history: seq<Turn>)
    requires history != []
    ensures Rendered(history) == [(Capitalize(history[0].role), history[0].content)] + Rendered(history[1..])
  {
    assert forall i | 1 <= i < |history| :: Rendered(history)[i] == Rendered(history[1..])[i - 1];
  }

  /** Reading a block that starts with a readable turn's line gives that turn first, then the rest. */
  lemma ReadHistoryTextCons(t: Turn, rest: string)
    requires Readable(t)
    ensures ReadHistoryText(TurnLine(t) + rest) == [(Capitalize(t.role), t.content)] + ReadHistoryText(rest)
  {
    var text := TurnLine(t) + rest;
    var n := |TurnLine(t)| - 1;
    ReadTurnLine(t, rest);
    assert text[n + 1..] == rest;
    assert text[..n] == TurnLine(t)[..n];
  }

  /**
    Round trip of the transcript block: reading the written lines back gives, in
    order, the capitalised role and the exact content of every turn, as long as
    no content holds a newline and no role a colon or newline.
  */
  lemma {:induction false} HistoryTextRoundTrip(history: seq<Turn>)
    requires forall i | 0 <= i < |history| :: Readable(history[i])
    ensures ReadHistoryText(HistoryText(history)) == Rendered(history)
    decreases |history|
  {
    if history != [] {
      var t := history[0];
      var tail := history[1..];
      assert HistoryText(history) == TurnLine(t) + HistoryText(tail);
      ReadHistoryTextCons(t, HistoryText(tail));
      assert forall i | 0 <= i < |tail| :: Readable(tail[i]) by {
        assert forall i | 0 <= i < |tail| :: tail[i] == history[i + 1];
      }
      HistoryTextRoundTrip(tail);
      RenderedCons(history);
    }
  }
}
