/**
  The coaching engine of `generate_coaching_feedback`: the short-history
  short-circuit, the split of the model's reply at the `=== Scores ===` trailer,
  the `Key: value` score parser and the error fallback. The model call itself
  is an input: the reply text, or the message of the exception it raised.
*/
module Coaching {
  import opened Wrappers
  import opened Text
  import opened Transcript

  /** A Python dict from str to str: pairs in insertion order, one per key. */
  type ScoreDict = seq<(string, string)>

  predicate DistinctKeys(d: ScoreDict) {
    forall i, j | 0 <= i < j < |d| :: d[i].0 != d[j].0
  }

  /** `d.get(k)`. */
  function Get(d: ScoreDict, k: string): Option<string>
    decreases |d|
  {
    if d == [] then None
    else if d[0].0 == k then Some(d[0].1)
    else Get(d[1..], k)
  }

  /** A key is missing exactly when no pair carries it. */
  lemma {:induction false} GetNone(d: ScoreDict, k: string)
    ensures Get(d, k).None? <==> forall i | 0 <= i < |d| :: d[i].0 != k
    decreases |d|
  {
    if d != [] {
      GetNone(d[1..], k);
      assert forall i | 1 <= i < |d| :: d[1..][i - 1] == d[i];
    }
  }

  /** `d.get(k, default)`. */
  function GetOr(d: ScoreDict, k: string, default: string): string {
    Get(d, k).GetOr(default)
  }

  /** `d[k] = v`. */
  function Put(d: ScoreDict, k: string, v: string): ScoreDict
    decreases |d|
  {
    if d == [] then [(k, v)]
    else if d[0].0 == k then [(k, v)] + d[1..]
    else [d[0]] + Put(d[1..], k, v)
  }

  /** After `d[k] = v` the key maps to `v` and every other key keeps its value. */
  lemma {:induction false} PutGet(d: ScoreDict, k: string, v: string, k': string)
    ensures Get(Put(d, k, v), k') == if k' == k then Some(v) else Get(d, k')
    decreases |d|
  {
    if d != [] && d[0].0 != k {
      PutGet(d[1..], k, v, k');
    }
  }

  /** An existing key keeps its place; a new key goes last. */
  lemma {:induction false} PutKeepsOrder(d: ScoreDict, k: string, v: string)
    ensures Get(d, k).Some? ==> |Put(d, k, v)| == |d| && forall i | 0 <= i < |d| :: Put(d, k, v)[i].0 == d[i].0
    ensures Get(d, k).None? ==> Put(d, k, v) == d + [(k, v)]
    decreases |d|
  {
    if d != [] && d[0].0 != k {
      PutKeepsOrder(d[1..], k, v);
      var r := Put(d, k, v);
      if Get(d, k).None? {
        assert d[1..] + [(k, v)] == (d + [(k, v)])[1..];
      } else {
        assert forall i | 1 <= i < |d| :: r[i] == Put(d[1..], k, v)[i - 1];
      }
    }
  }

  /** `d[k] = v` keeps the keys distinct. */
  lemma PutDistinct(d: ScoreDict, k: string, v: string)
    requires DistinctKeys(d)
    ensures DistinctKeys(Put(d, k, v))
  {
    PutKeepsOrder(d, k, v);
    GetNone(d, k);
  }

  // ---------------------------------------------------------------- score lines

  /**
    One line of the scores block: a line holding `:` gives the stripped text
    before its first `:` as key and the stripped remainder as value; any other
    line gives nothing.
  */
  function ScoreEntry(line: string): Option<(string, string)> {
    match IndexOfChar(line, ':')
    case None => None
    case Some(i) => Some((Strip(line[..i]), Strip(line[i + 1..])))
  }

  /** The entry sets key `k`. */
  predicate SetsKey(e: Option<(string, string)>, k: string) {
    e.Some? && e.value.0 == k
  }

  /** The dict built by storing the entries one after another, skipping the empty ones. */
  function Collect(entries: seq<Option<(string, string)>>): (d: ScoreDict)
    ensures DistinctKeys(d)
    decreases |entries|
  {
    if entries == [] then []
    else
      var d := Collect(entries[..|entries| - 1]);
      match entries[|entries| - 1]
      case None => d
      case Some(e) =>
        PutDistinct(d, e.0, e.1);
        Put(d, e.0, e.1)
  }

  /** A key is in the dict exactly when some entry sets it. */
  lemma {:induction false} CollectKeyAbsent(entries: seq<Option<(string, string)>>, k: string)
    ensures Get(Collect(entries), k).None? <==> forall i | 0 <= i < |entries| :: !SetsKey(entries[i], k)
    decreases |entries|
  {
    if entries != [] {
      var n := |entries| - 1;
      var prefix := entries[..n];
      CollectKeyAbsent(prefix, k);
      assert (forall i | 0 <= i < |entries| :: !SetsKey(entries[i], k))
        <==> (forall i | 0 <= i < n :: !SetsKey(prefix[i], k)) && !SetsKey(entries[n], k) by {
        assert forall i | 0 <= i < n :: prefix[i] == entries[i];
      }
      match entries[n]
      case None =>
      case Some(e) => PutGet(Collect(prefix), e.0, e.1, k);
    }
  }

  /** The last entry that sets a key decides its value. */
  lemma {:induction false} CollectLastWins(entries: seq<Option<(string, string)>>, i: nat)
    requires i < |entries| && entries[i].Some?
    requires forall j | i < j < |entries| :: !SetsKey(entries[j], entries[i].value.0)
    ensures Get(Collect(entries), entries[i].value.0) == Some(entries[i].value.1)
    decreases |entries|
  {
    var n := |entries| - 1;
    var e := entries[i].value;
    if i < n {
      assert entries[..n][i] == entries[i];
      assert forall j | i < j < n :: entries[..n][j] == entries[j];
      CollectLastWins(entries[..n], i);
      match entries[n]
      case None =>
      case Some(e') => PutGet(Collect(entries[..n]), e'.0, e'.1, e.0);
    } else {
      PutGet(Collect(entries[..n]), e.0, e.1, e.0);
    }
  }

  /** The entry of every line. */
  function Entries(lines: seq<string>): (entries: seq<Option<(string, string)>>)
    ensures |entries| == |lines|
  {
    seq(|lines|, i requires 0 <= i < |lines| => ScoreEntry(lines[i]))
  }

  /** The dict the parsing loop builds from the lines of the scores block. */
  function ScoresOf(lines: seq<string>): ScoreDict {
    Collect(Entries(lines))
  }

  /**
    A key is in the parsed dict exactly when some line sets it: lines without `:`
    contribute nothing, and keys outside the four categories are kept.
  */
  lemma ScoresOfKeyAbsent(lines: seq<string>, k: string)
    ensures Get(ScoresOf(lines), k).None? <==> forall i | 0 <= i < |lines| :: !SetsKey(ScoreEntry(lines[i]), k)
  {
    if Get(ScoresOf(lines), k).None? {
      ScoresOfKeyUnset(lines, k);
    } else {
      ScoresOfKeySet(lines, k);
    }
  }

  /** A category missing from the parsed scores was set by no line of the block. */
  lemma ScoresOfKeyUnset(lines: seq<string>, k: string)
    requires Get(ScoresOf(lines), k).None?
    ensures forall i | 0 <= i < |lines| :: !SetsKey(ScoreEntry(lines[i]), k)
  {
    var entries := Entries(lines);
    CollectKeyAbsent(entries, k);
    forall i | 0 <= i < |lines| ensures !SetsKey(ScoreEntry(lines[i]), k) {
      assert entries[i] == ScoreEntry(lines[i]);
    }
  }

  /** A category present in the parsed scores was set by some line of the block. */
  lemma ScoresOfKeySet(lines: seq<string>, k: string)
    requires Get(ScoresOf(lines), k).Some?
    ensures exists i :: 0 <= i < |lines| && SetsKey(ScoreEntry(lines[i]), k)
  {
    var entries := Entries(lines);
    CollectKeyAbsent(entries, k);
    var i :| 0 <= i < |entries| && SetsKey(entries[i], k);
    assert entries[i] == ScoreEntry(lines[i]);
  }

  /** The last line that sets a key decides its value: later duplicates overwrite earlier ones. */
  lemma ScoresOfLastWins(lines: seq<string>, i: nat)
    requires i < |lines| && ScoreEntry(lines[i]).Some?
    requires forall j | i < j < |lines| :: !SetsKey(ScoreEntry(lines[j]), ScoreEntry(lines[i]).value.0)
    ensures Get(ScoresOf(lines), ScoreEntry(lines[i]).value.0) == Some(ScoreEntry(lines[i]).value.1)
  {
    var entries := Entries(lines);
    assert entries[i] == ScoreEntry(lines[i]);
    forall j | i < j < |entries| ensures !SetsKey(entries[j], entries[i].value.0) {
      assert entries[j] == ScoreEntry(lines[j]);
    }
    CollectLastWins(entries, i);
  }

  /** The parsing loop of the coaching engine: fills a fresh dict line by line. */
  method ParseScoreLines(lines: seq<string>) returns (scores: ScoreDict)
    ensures scores == ScoresOf(lines)
  {
    ghost var entries := Entries(lines);
    scores := [];
    for i := 0 to |lines|
      invariant scores == Collect(entries[..i])
    {
      assert entries[..i + 1][..i] == entries[..i];
      assert entries[..i + 1][i] == ScoreEntry(lines[i]);
      match ScoreEntry(lines[i])
      case None =>
      case Some(e) =>
        scores := Put(scores, e.0, e.1);
    }
    assert entries[..|lines|] == entries;
  }

  // ---------------------------------------------------------------- the reply

  const ScoresDelimiter := "=== Scores ==="
  const NotAvailable := "N/A"
  const TooShortSummary := "Conversation was too short to generate useful coaching feedback."
  const ErrorPrefix := "An error occurred: "

  /** The four score categories, in the order the app lists them. */
  const Categories := ["Rule Compliance", "Escalation Handling", "Professionalism", "Clarity"]

  /** The fallback dict: every category `"N/A"`. */
  const AllNotAvailable: ScoreDict :=
    [("Rule Compliance", "N/A"), ("Escalation Handling", "N/A"), ("Professionalism", "N/A"), ("Clarity", "N/A")]

  /** `{"summary": ..., "scores": ...}` as returned by the coaching engine. */
  datatype CoachingResult = CoachingResult(summary: string, scores: ScoreDict)

  /** The ValueError that `summary, scores_block = content.split(...)` raises on a wrong piece count. */
  datatype UnpackError = NotEnoughValues | TooManyValues

  function UnpackMessage(e: UnpackError): string {
    match e
    case NotEnoughValues => "not enough values to unpack (expected 2, got 1)"
    case TooManyValues => "too many values to unpack (expected 2)"
  }

  /** The parse of a reply text: strip, split at the delimiter into exactly two pieces, read the scores. */
  function ParseCoachingReply(text: string): Result<CoachingResult, UnpackError> {
    var content := Strip(text);
    var parts := Split(content, ScoresDelimiter);
    if |parts| < 2 then Err(NotEnoughValues)
    else if |parts| > 2 then Err(TooManyValues)
    else Ok(CoachingResult(Strip(parts[0]), ScoresOf(SplitLines(Strip(parts[1])))))
  }

  function Fallback(summary: string): CoachingResult {
    CoachingResult(summary, AllNotAvailable)
  }

  /**
    `generate_coaching_feedback(history)` given what the model call produced:
    `Ok(text)` for the reply's content, `Err(message)` for the exception it raised.
  */
  function Coach(history: seq<Turn>, reply: Result<string, string>): (r: CoachingResult)
    ensures |history| < 3 ==> r.summary == TooShortSummary && r.scores == AllNotAvailable
    ensures |history| >= 3 && reply.Err? ==> r.summary == ErrorPrefix + reply.error && r.scores == AllNotAvailable
    ensures |history| >= 3 && reply.Ok? && ParseCoachingReply(reply.value).Err? ==>
      r.summary == ErrorPrefix + UnpackMessage(ParseCoachingReply(reply.value).error) && r.scores == AllNotAvailable
    ensures |history| >= 3 && reply.Ok? && ParseCoachingReply(reply.value).Ok? ==> r == ParseCoachingReply(reply.value).value
    ensures DistinctKeys(r.scores)
  {
    if |history| < 3 then Fallback(TooShortSummary)
    else match reply
      case Err(message) => Fallback(ErrorPrefix + message)
      case Ok(text) =>
        match ParseCoachingReply(text)
        case Err(e) => Fallback(ErrorPrefix + UnpackMessage(e))
        case Ok(result) => result
  }

  /** The fallback dict holds exactly the four categories, each `"N/A"`. */
  lemma AllNotAvailableIsFourNA(k: string)
    ensures Get(AllNotAvailable, k) == if k in Categories then Some(NotAvailable) else None
  {
  }

  /**
    The reply parses when the stripped text has its leftmost delimiter at `i` and
    no further one from `i + |delimiter|` on: the summary is the stripped text
    before it and the scores come from the stripped text after it.
  */
  lemma ParseAtDelimiter(text: string, i: nat)
    requires Occurs(Strip(text), ScoresDelimiter, i)
    requires forall j :: 0 <= j < i ==> !Occurs(Strip(text), ScoresDelimiter, j)
    requires forall j :: i + |ScoresDelimiter| <= j <= |Strip(text)| ==> !Occurs(Strip(text), ScoresDelimiter, j)
    ensures ParseCoachingReply(text) == Ok(CoachingResult(
      Strip(Strip(text)[..i]),
      ScoresOf(SplitLines(Strip(Strip(text)[i + |ScoresDelimiter|..])))))
  {
    SplitInTwo(Strip(text), ScoresDelimiter, i);
  }

  /** A delimiter found at exactly one position is enough for the parse to succeed. */
  lemma ParseSingleDelimiter(text: string, i: nat)
    requires Occurs(Strip(text), ScoresDelimiter, i)
    requires forall j :: 0 <= j <= |Strip(text)| && j != i ==> !Occurs(Strip(text), ScoresDelimiter, j)
    ensures ParseCoachingReply(text).Ok?
    ensures ParseCoachingReply(text).value.summary == Strip(Strip(text)[..i])
  {
    ParseAtDelimiter(text, i);
  }

  /** No delimiter: the unpacking raises "not enough values". */
  lemma ParseMissingDelimiter(text: string)
    requires forall j :: 0 <= j <= |Strip(text)| ==> !Occurs(Strip(text), ScoresDelimiter, j)
    ensures ParseCoachingReply(text) == Err(NotEnoughValues)
  {
    SplitAbsent(Strip(text), ScoresDelimiter);
  }

  /** A second delimiter that does not overlap the first: the unpacking raises "too many values". */
  lemma ParseRepeatedDelimiter(text: string, i: nat, j: nat)
    requires Occurs(Strip(text), ScoresDelimiter, i)
    requires forall k :: 0 <= k < i ==> !Occurs(Strip(text), ScoresDelimiter, k)
    requires i + |ScoresDelimiter| <= j && Occurs(Strip(text), ScoresDelimiter, j)
    ensures ParseCoachingReply(text) == Err(TooManyValues)
  {
    SplitInThreeOrMore(Strip(text), ScoresDelimiter, i, j);
  }

  // ---------------------------------------------------------------- the requested format

  /** One `Key: value` line of the score breakdown the coaching prompt asks for. */
  function ScoreLine(e: (string, string)): string {
    e.0 + ": " + e.1
  }

  function ScoreLinesOf(scores: ScoreDict): (lines: seq<string>)
    ensures |lines| == |scores|
  {
    seq(|scores|, i requires 0 <= i < |scores| => ScoreLine(scores[i]))
  }

  /** The reply shape the coaching prompt asks for: the feedback, a blank line, the delimiter, one line per score. */
  function FormattedReply(summary: string, scores: ScoreDict): string
    requires scores != []
  {
    Framed(summary, ScoresDelimiter, Join("\n", ScoreLinesOf(scores)))
  }

  /** `summary`, a blank line, `sep`, a line break, then `block`. */
  function Framed(summary: string, sep: string, block: string): string {
    (summary + "\n\n") + sep + ("\n" + block)
  }

  /** Non-blank, with no whitespace at either end: what `strip()` leaves unchanged. */
  predicate Tidy(s: string) {
    s != [] && !IsSpace(s[0]) && !IsSpace(s[|s| - 1])
  }

  predicate OneLine(s: string) {
    forall j | 0 <= j < |s| :: !IsLineBreak(s[j])
  }

  /**
    Scores the breakdown can carry: at least one, distinct keys, every key and
    value tidy, on one line and free of `=`, and no key holding `:`.
  */
  predicate WellFormedScores(scores: ScoreDict) {
    scores != [] && DistinctKeys(scores)
    && forall i | 0 <= i < |scores| ::
         Tidy(scores[i].0) && Tidy(scores[i].1) && OneLine(scores[i].0) && OneLine(scores[i].1)
         && ':' !in scores[i].0 && '=' !in scores[i].0 && '=' !in scores[i].1
  }

  /** A `Key: value` line with a tidy key free of `:` and a tidy value is read back as that pair. */
  lemma ScoreLineEntry(e: (string, string))
    requires Tidy(e.0) && Tidy(e.1) && ':' !in e.0
    ensures ScoreEntry(ScoreLine(e)) == Some(e)
  {
    var (key, val) := e;
    var line := ScoreLine(e);
    var n := |key|;
    assert line == key + (":" + (" " + val));
    assert line[n] == ':';
    assert forall j | 0 <= j < n :: line[j] == key[j];
    assert IndexOfChar(line, ':') == Some(n);
    assert line[..n] == key;
    StripTrimmed(key);
    assert line[n + 1..] == " " + val;
    StripAfterBlank(val);
    ScoreEntryAt(line, n);
  }

  /** A line whose first colon is at `n` yields the stripped text on either side of it. */
  lemma ScoreEntryAt(line: string, n: nat)
    requires IndexOfChar(line, ':') == Some(n)
    ensures ScoreEntry(line) == Some((Strip(line[..n]), Strip(line[n + 1..])))
  {
  }

  /** Each pair as a present entry. */
  function Present(d: ScoreDict): (entries: seq<Option<(string, string)>>)
    ensures |entries| == |d|
  {
    seq(|d|, i requires 0 <= i < |d| => Some(d[i]))
  }

  /** Storing pairs with distinct keys one after another rebuilds them in order. */
  lemma {:induction false} CollectPresent(d: ScoreDict)
    requires DistinctKeys(d)
    ensures Collect(Present(d)) == d
    decreases |d|
  {
    if d != [] {
      var n := |d| - 1;
      var prefix := d[..n];
      assert Present(d)[..n] == Present(prefix);
      assert DistinctKeys(prefix);
      CollectPresent(prefix);
      GetNone(prefix, d[n].0);
      PutKeepsOrder(prefix, d[n].0, d[n].1);
      assert prefix + [d[n]] == d;
    }
  }

  /** The breakdown lines of well-formed scores parse back to exactly those scores, in order. */
  lemma ScoresOfScoreLines(scores: ScoreDict)
    requires WellFormedScores(scores)
    ensures ScoresOf(ScoreLinesOf(scores)) == scores
  {
    forall i | 0 <= i < |scores| ensures ScoreEntry(ScoreLinesOf(scores)[i]) == Some(scores[i]) {
      ScoreLineEntry(scores[i]);
    }
    assert Entries(ScoreLinesOf(scores)) == Present(scores);
    CollectPresent(scores);
  }

  /** The breakdown block: tidy, free of `=`, and `splitlines()` gives back its lines. */
  lemma ScoreBlock(scores: ScoreDict)
    requires WellFormedScores(scores)
    ensures var block := Join("\n", ScoreLinesOf(scores));
      Tidy(block) && '=' !in block && SplitLines(block) == ScoreLinesOf(scores)
  {
    var lines := ScoreLinesOf(scores);
    var n := |lines| - 1;
    forall k | 0 <= k < |lines|
      ensures '=' !in lines[k] && OneLine(lines[k]) && lines[k] != []
    {
      ScoreLineShape(scores[k]);
    }
    JoinAvoids("\n", lines, '=');
    SplitLinesOfJoin(lines);
    JoinEnds("\n", lines);
    ScoreLineShape(scores[0]);
    ScoreLineShape(scores[n]);
  }

  /** A breakdown line starts with its key's first character, ends with its value's last, and stays on one line without `=`. */
  lemma ScoreLineShape(e: (string, string))
    requires Tidy(e.0) && Tidy(e.1) && OneLine(e.0) && OneLine(e.1) && '=' !in e.0 && '=' !in e.1
    ensures var line := ScoreLine(e);
      line != [] && line[0] == e.0[0] && line[|line| - 1] == e.1[|e.1| - 1]
      && '=' !in line && OneLine(line)
  {
    var (key, val) := e;
    var line := ScoreLine(e);
    forall j | 0 <= j < |line| ensures line[j] != '=' && !IsLineBreak(line[j]) {
      if j >= |key| + 2 {
        assert line[j] == val[j - |key| - 2];
      } else if j < |key| {
        assert line[j] == key[j];
      }
    }
  }

  /**
    In a framed text whose separator holds no line break, whose summary does
    not contain it and whose block lacks its first character, the separator
    occurs once: right after the blank line. No other occurrence starts before
    it, inside it or after it.
  */
  lemma FramedOccurrence(summary: string, sep: string, block: string)
    requires sep != [] && '\n' !in sep && sep[0] !in block && !Contains(summary, sep)
    ensures var text := Framed(summary, sep, block);
      var i := |summary| + 2;
      Occurs(text, sep, i)
      && (forall j :: 0 <= j < i ==> !Occurs(text, sep, j))
      && (forall j :: i < j < i + |sep| ==> !Occurs(text, sep, j))
      && (forall j :: i + |sep| <= j <= |text| ==> !Occurs(text, sep, j))
  {
    var head := summary + "\n\n";
    var tail := "\n" + block;
    var text := Framed(summary, sep, block);
    var i := |head|;
    var d := |sep|;
    assert text[i..i + d] == sep;
    forall j | 0 <= j < i ensures !Occurs(text, sep, j) {
      if j + d <= |summary| {
        NoOccurrenceInPrefix(text, summary, sep, j);
      } else {
        var k := if j <= |summary| then |summary| else |summary| + 1;
        assert text[k] == '\n';
        NoOccurrenceAcrossBreak(text, sep, k, j);
      }
    }
    assert text[i + d] == '\n';
    forall j | i < j < i + d ensures !Occurs(text, sep, j) {
      NoOccurrenceAcrossBreak(text, sep, i + d, j);
    }
    forall j | i + d <= j <= |text| ensures !Occurs(text, sep, j) {
      if j < |text| {
        assert text[j] != sep[0] by {
          if j == i + d {
            assert text[j] == '\n';
          } else {
            assert text[j] == block[j - i - d - 1];
          }
        }
      }
      NoOccurrenceAtOtherChar(text, sep, j);
    }
  }

  /** An occurrence inside a prefix that does not contain the separator is impossible. */
  lemma NoOccurrenceInPrefix(text: string, prefix: string, sep: string, j: nat)
    requires prefix <= text && !Contains(prefix, sep)
    requires j + |sep| <= |prefix|
    ensures !Occurs(text, sep, j)
  {
    assert text[j..j + |sep|] == prefix[j..j + |sep|];
    assert !Occurs(prefix, sep, j);
  }

  /** No occurrence starts at a character other than the separator's first. */
  lemma NoOccurrenceAtOtherChar(text: string, sep: string, j: nat)
    requires sep != []
    requires j < |text| ==> text[j] != sep[0]
    ensures !Occurs(text, sep, j)
  {
    if j + |sep| <= |text| {
      assert text[j..j + |sep|][0] == text[j];
    }
  }

  /** An occurrence of a separator without line breaks cannot cover a `\n`. */
  lemma NoOccurrenceAcrossBreak(text: string, sep: string, k: nat, j: nat)
    requires '\n' !in sep
    requires k < |text| && text[k] == '\n'
    requires j <= k < j + |sep|
    ensures !Occurs(text, sep, j)
  {
    if j + |sep| <= |text| {
      assert text[j..j + |sep|][k - j] == text[k];
    }
  }

  /** A framed text around tidy parts is already stripped, and so are its two sides of the separator once stripped. */
  lemma FramedStripped(summary: string, sep: string, block: string)
    requires Tidy(summary) && Tidy(block)
    ensures var text := Framed(summary, sep, block);
      Strip(text) == text && Strip(summary + "\n\n") == summary && Strip("\n" + block) == block
  {
    var text := Framed(summary, sep, block);
    assert text[0] == summary[0];
    assert text[|text| - 1] == block[|block| - 1];
    StripTrimmed(text);
    assert summary + "\n\n" == [] + summary + "\n\n";
    StripUnpads([], summary, "\n\n");
    assert "\n" + block == "\n" + block + [];
    StripUnpads("\n", block, []);
  }

  /** Under the conditions of `FramedOccurrence`, splitting a framed text at its separator gives its two sides. */
  lemma SplitFramed(summary: string, sep: string, block: string)
    requires sep != [] && '\n' !in sep && sep[0] !in block && !Contains(summary, sep)
    ensures Split(Framed(summary, sep, block), sep) == [summary + "\n\n", "\n" + block]
  {
    var text := Framed(summary, sep, block);
    var i := |summary| + 2;
    FramedOccurrence(summary, sep, block);
    SplitInTwo(text, sep, i);
    assert text[..i] == summary + "\n\n";
    assert text[i + |sep|..] == "\n" + block;
  }

  /** The delimiter starts with `=` and holds no line break. */
  lemma DelimiterShape()
    ensures ScoresDelimiter != [] && ScoresDelimiter[0] == '=' && '\n' !in ScoresDelimiter
  {
    forall k | 0 <= k < |ScoresDelimiter|
      ensures ScoresDelimiter[k] != '\n'
    {
      assert ScoresDelimiter[k] in {'=', ' ', 'S', 'c', 'o', 'r', 'e', 's'};
    }
  }

  /**
    Round trip of the requested format: a reply written as the coaching prompt
    asks (a tidy summary free of the delimiter, a blank line, the delimiter,
    then one `Key: value` line per score) parses back to that summary and
    exactly those scores, in order.
  */
  lemma FormattedReplyRoundTrip(summary: string, scores: ScoreDict)
    requires Tidy(summary) && !Contains(summary, ScoresDelimiter) && WellFormedScores(scores)
    ensures ParseCoachingReply(FormattedReply(summary, scores)) == Ok(CoachingResult(summary, scores))
  {
    var block := Join("\n", ScoreLinesOf(scores));
    ScoreBlock(scores);
    FramedParse(summary, block);
    ScoresOfScoreLines(scores);
  }

  /**
    A framed reply around a tidy summary free of the delimiter and a tidy block
    without `=` parses to that summary and the scores read from the block's lines.
  */
  lemma FramedParse(summary: string, block: string)
    requires Tidy(summary) && !Contains(summary, ScoresDelimiter)
    requires Tidy(block) && '=' !in block
    ensures ParseCoachingReply(Framed(summary, ScoresDelimiter, block))
      == Ok(CoachingResult(summary, ScoresOf(SplitLines(block))))
  {
    FramedStripped(summary, ScoresDelimiter, block);
    DelimiterShape();
    SplitFramed(summary, ScoresDelimiter, block);
    ParseOfSplit(Framed(summary, ScoresDelimiter, block), summary + "\n\n", "\n" + block);
  }

  /** A stripped text that splits into exactly two pieces parses to the stripped pieces. */
  lemma ParseOfSplit(text: string, head: string, tail: string)
    requires Strip(text) == text
    requires Split(text, ScoresDelimiter) == [head, tail]
    ensures ParseCoachingReply(text) == Ok(CoachingResult(Strip(head), ScoresOf(SplitLines(Strip(tail)))))
  {
  }

  const OverlappingReply := "=== Scores === Scores ==="

  /** The reply has no surrounding whitespace. */
  lemma OverlappingReplyIsStripped()
    ensures Strip(OverlappingReply) == OverlappingReply
  {
    StripUnpads([], OverlappingReply, []);
    assert [] + OverlappingReply + [] == OverlappingReply;
  }

  /** What follows the delimiter found at the start, once stripped. */
  lemma OverlappingReplyBlock()
    ensures Strip(OverlappingReply[14..]) == "Scores ==="
  {
    assert OverlappingReply[14..] == " " + "Scores ===" + [];
    StripUnpads(" ", "Scores ===", []);
  }

  /** That text is a single line without a colon. */
  lemma OverlappingReplyLine()
    ensures SplitLines("Scores ===") == ["Scores ==="]
    ensures ScoreEntry("Scores ===") == None
  {
    var line := "Scores ===";
    assert forall j | 0 <= j < |line| :: ' ' <= line[j] <= '~' && line[j] != ':';
    PrintableHasNoBreak(line);
    SplitLinesOneLine(line);
    assert IndexOfChar(line, ':') == None;
  }

  /** So the score block after the first delimiter yields no scores. */
  lemma OverlappingReplyBlockIsEmpty()
    ensures ScoresOf(SplitLines(Strip(OverlappingReply[14..]))) == []
  {
    OverlappingReplyBlock();
    OverlappingReplyLine();
    ScoresOfUnscoredLine("Scores ===");
  }

  /** A single line without `:` gives an empty dict. */
  lemma ScoresOfUnscoredLine(line: string)
    requires ScoreEntry(line) == None
    ensures ScoresOf([line]) == []
  {
    var entries := Entries([line]);
    assert entries[0] == ScoreEntry(line);
    assert entries[..0] == [];
    assert Collect(entries) == Collect(entries[..0]);
  }

  /** The delimiter is found at 0 and again at 11, the two copies sharing `===`. */
  lemma OverlappingReplyOccurrences()
    ensures Occurs(OverlappingReply, ScoresDelimiter, 0)
    ensures Occurs(OverlappingReply, ScoresDelimiter, 11)
  {
    assert OverlappingReply[0..14] == ScoresDelimiter;
    assert OverlappingReply[11..25] == ScoresDelimiter;
  }

  /**
    Two overlapping delimiters still parse: `str.split` resumes after the first
    one, so the shared `===` is not seen a second time.
  */
  lemma OverlappingDelimitersParse()
    ensures Occurs(OverlappingReply, ScoresDelimiter, 0)
    ensures Occurs(OverlappingReply, ScoresDelimiter, 11)
    ensures ParseCoachingReply(OverlappingReply) == Ok(CoachingResult("", []))
  {
    OverlappingReplyOccurrences();
    OverlappingReplyIsStripped();
    assert |OverlappingReply| == 25;
    ParseStrippedAtStart(OverlappingReply);
    OverlappingReplyBlockIsEmpty();
  }

  /** A text that starts with `sep` and is too short to hold a second copy after it splits into `""` and the rest. */
  lemma SplitAtStart(text: string, sep: string)
    requires sep != [] && Occurs(text, sep, 0) && |text| < 2 * |sep|
    ensures Split(text, sep) == [[], text[|sep|..]]
  {
    forall j | |sep| <= j <= |text| ensures !Occurs(text, sep, j) {
      assert j + |sep| > |text|;
    }
    SplitInTwo(text, sep, 0);
    assert text[..0] == [];
  }

  /** A stripped text that starts with the delimiter and is too short for a second one parses to an empty summary. */
  lemma ParseStrippedAtStart(text: string)
    requires Strip(text) == text && Occurs(text, ScoresDelimiter, 0) && |text| < 2 * |ScoresDelimiter|
    ensures ParseCoachingReply(text) == Ok(CoachingResult("", ScoresOf(SplitLines(Strip(text[|ScoresDelimiter|..])))))
  {
    var d := |ScoresDelimiter|;
    DelimiterShape();
    SplitAtStart(text, ScoresDelimiter);
    ParseOfSplit(text, [], text[d..]);
    assert Strip([]) == [];
  }

  /** `generate_coaching_feedback` itself: the same branches, with the parsing loop. */
  method GenerateCoachingFeedback(history: seq<Turn>, reply: Result<string, string>) returns (r: CoachingResult)
    ensures r == Coach(history, reply)
  {
    if |history| < 3 {
      return Fallback(TooShortSummary);
    }
    match reply
    case Err(message) =>
      r := Fallback(ErrorPrefix + message);
    case Ok(text) =>
      var content := Strip(text);
      var parts := Split(content, ScoresDelimiter);
      if |parts| < 2 {
        r := Fallback(ErrorPrefix + UnpackMessage(NotEnoughValues));
      } else if |parts| > 2 {
        r := Fallback(ErrorPrefix + UnpackMessage(TooManyValues));
      } else {
        var scores := ParseScoreLines(SplitLines(Strip(parts[1])));
        r := CoachingResult(Strip(parts[0]), scores);
      }
  }

  // ---------------------------------------------------------------- coaching a reply

  /**
    A conversation of three turns or more whose coaching reply is written in the
    requested format gets exactly that reply's summary and scores.
  */
  lemma CoachFormattedReply(history: seq<Turn>, summary: string, scores: ScoreDict)
    requires |history| >= 3
    requires Tidy(summary) && !Contains(summary, ScoresDelimiter) && WellFormedScores(scores)
    ensures Coach(history, Ok(FormattedReply(summary, scores))) == CoachingResult(summary, scores)
  {
    FormattedReplyRoundTrip(summary, scores);
  }

  /**
    A coaching reply without the delimiter falls back to the unpacking error's
    message and four `N/A` scores.
  */
  lemma CoachMissingDelimiter(history: seq<Turn>, text: string)
    requires |history| >= 3
    requires forall j :: 0 <= j <= |Strip(text)| ==> !Occurs(Strip(text), ScoresDelimiter, j)
    ensures Coach(history, Ok(text))
      == CoachingResult(ErrorPrefix + UnpackMessage(NotEnoughValues), AllNotAvailable)
  {
    ParseMissingDelimiter(text);
  }

  /**
    A coaching reply with two non-overlapping delimiters falls back to the
    unpacking error's message and four `N/A` scores.
  */
  lemma CoachRepeatedDelimiter(history: seq<Turn>, text: string, i: nat, j: nat)
    requires |history| >= 3
    requires Occurs(Strip(text), ScoresDelimiter, i)
    requires forall k :: 0 <= k < i ==> !Occurs(Strip(text), ScoresDelimiter, k)
    requires i + |ScoresDelimiter| <= j && Occurs(Strip(text), ScoresDelimiter, j)
    ensures Coach(history, Ok(text)) == CoachingResult(ErrorPrefix + UnpackMessage(TooManyValues), AllNotAvailable)
  {
    ParseRepeatedDelimiter(text, i, j);
  }
}
