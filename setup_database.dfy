/**
 * The one-off database setup script: it reads the SQL file, removes
 * `--` comments and blank lines, splits the text into `;`-separated
 * commands and sends each one to the database in turn, reporting but
 * never stopping on a failing command, then runs a connection test.
 *
 * The database is a parameter: the answer to the statement sent at
 * position `i` is `outcome(i)`, and the answer to the connection test is
 * `connection`. The file read is an `Option`: `None` is a read that
 * throws.
 */
module SetupDatabase {
  import opened Wrappers
  import opened Text

  // ----- cleaning the SQL text -----

  /** No two adjacent dashes: the text holds no `--` comment marker. */
  predicate NoDoubleDash(s: string) {
    forall i :: 0 <= i < |s| - 1 ==> !(s[i] == '-' && s[i + 1] == '-')
  }

  /** Index of the first line terminator at or after `p`, or `|s|`. */
  function LineEnd(s: string, p: nat): (e: nat)
    requires p <= |s|
    ensures p <= e <= |s|
    ensures e < |s| ==> IsLineTerminator(s[e])
    ensures forall j :: p <= j < e ==> !IsLineTerminator(s[j])
    decreases |s| - p
  {
    if p == |s| || IsLineTerminator(s[p]) then p else LineEnd(s, p + 1)
  }

  /**
   * `.replace(/--.*$/gm, '')`: scanning left to right, every `--` is
   * removed together with the rest of its line; the line terminator
   * itself stays.
   */
  function StripComments(s: string): (r: string)
    ensures |r| <= |s|
    decreases |s|
  {
    if |s| == 0 then ""
    else if |s| >= 2 && s[0] == '-' && s[1] == '-' then StripComments(s[LineEnd(s, 2)..])
    else [s[0]] + StripComments(s[1..])
  }

  /** A text that does not start a comment keeps its first character. */
  lemma StripCommentsHead(s: string)
    requires |s| > 0 && s[0] != '-'
    ensures |StripComments(s)| > 0 && StripComments(s)[0] == s[0]
  {
  }

  /** Every `--` is gone once the comments are stripped. */
  lemma {:induction false} StripCommentsLeavesNoDoubleDash(s: string)
    ensures NoDoubleDash(StripComments(s))
    decreases |s|
  {
    if |s| == 0 {
    } else if |s| >= 2 && s[0] == '-' && s[1] == '-' {
      StripCommentsLeavesNoDoubleDash(s[LineEnd(s, 2)..]);
    } else {
      var rest := StripComments(s[1..]);
      StripCommentsLeavesNoDoubleDash(s[1..]);
      if s[0] == '-' && |s| >= 2 {
        StripCommentsHead(s[1..]);
      }
      assert StripComments(s) == [s[0]] + rest;
    }
  }

  /** Index of the first non-whitespace character at or after `p`, or `|s|`. */
  function SpaceRunEnd(s: string, p: nat): (e: nat)
    requires p <= |s|
    ensures p <= e <= |s|
    ensures e < |s| ==> !IsSpace(JavaScript, s[e])
    ensures forall j :: p <= j < e ==> IsSpace(JavaScript, s[j])
    decreases |s| - p
  {
    if p == |s| || !IsSpace(JavaScript, s[p]) then p else SpaceRunEnd(s, p + 1)
  }

  /** The last newline in `s[lo..hi]`, if any. */
  function LastNewline(s: string, lo: nat, hi: nat): (j: Option<nat>)
    requires lo <= hi <= |s|
    ensures j.Some? ==> lo <= j.value < hi && s[j.value] == '\n'
    ensures j.Some? ==> forall k :: j.value < k < hi ==> s[k] != '\n'
    ensures j.None? ==> forall k :: lo <= k < hi ==> s[k] != '\n'
    decreases hi - lo
  {
    if hi == lo then None
    else if s[hi - 1] == '\n' then Some(hi - 1)
    else LastNewline(s, lo, hi - 1)
  }

  /**
   * `.replace(/\n\s*\n/g, '\n')`: from a newline, the greedy `\s*` takes
   * the whole whitespace run (newlines included) and backs off to its last
   * newline; that stretch becomes a single newline.
   */
  function CollapseBlankLines(s: string): (r: string)
    ensures |r| <= |s|
    ensures |s| > 0 ==> |r| > 0 && r[0] == s[0]
    decreases |s|
  {
    if |s| == 0 then ""
    else if s[0] == '\n' then
      match LastNewline(s, 1, SpaceRunEnd(s, 1))
      case Some(j) => "\n" + CollapseBlankLines(s[j + 1..])
      case None => "\n" + CollapseBlankLines(s[1..])
    else [s[0]] + CollapseBlankLines(s[1..])
  }

  lemma NoDoubleDashSuffix(s: string, k: nat)
    requires NoDoubleDash(s) && k <= |s|
    ensures NoDoubleDash(s[k..])
  {
    forall i | 0 <= i < |s[k..]| - 1 ensures !(s[k..][i] == '-' && s[k..][i + 1] == '-') {
      assert s[k..][i] == s[k + i] && s[k..][i + 1] == s[k + i + 1];
    }
  }

  /** Collapsing blank lines only removes whitespace, so it brings no `--` back. */
  lemma {:induction false} CollapseKeepsNoDoubleDash(s: string)
    requires NoDoubleDash(s)
    ensures NoDoubleDash(CollapseBlankLines(s))
    decreases |s|
  {
    if |s| == 0 {
    } else if s[0] == '\n' {
      var next := match LastNewline(s, 1, SpaceRunEnd(s, 1)) case Some(j) => j + 1 case None => 1;
      NoDoubleDashSuffix(s, next);
      CollapseKeepsNoDoubleDash(s[next..]);
      assert CollapseBlankLines(s) == "\n" + CollapseBlankLines(s[next..]);
    } else {
      NoDoubleDashSuffix(s, 1);
      CollapseKeepsNoDoubleDash(s[1..]);
      assert CollapseBlankLines(s) == [s[0]] + CollapseBlankLines(s[1..]);
      if |s| >= 2 {
        assert s[1..][0] == s[1];
      }
    }
  }

  /** The whitespace at the start of `x` holds no newline: no blank line begins here. */
  predicate PlainRun(x: string)
    decreases |x|
  {
    |x| == 0 || !IsSpace(JavaScript, x[0]) || (x[0] != '\n' && PlainRun(x[1..]))
  }

  /** Every newline is followed by text before the next newline: no blank lines. */
  predicate NoBlankLine(r: string) {
    forall i :: 0 <= i < |r| && r[i] == '\n' ==> PlainRun(r[i + 1..])
  }

  /** Whitespace without newlines up to `e`, then text or the end, is a plain run. */
  lemma {:induction false} PlainRunFrom(s: string, q: nat, e: nat)
    requires q <= e <= |s|
    requires forall k :: q <= k < e ==> s[k] != '\n'
    requires e < |s| ==> !IsSpace(JavaScript, s[e])
    ensures PlainRun(s[q..])
    decreases e - q
  {
    if q < e {
      PlainRunFrom(s, q + 1, e);
      assert s[q..][1..] == s[q + 1..];
    }
  }

  /** Collapsing keeps a plain run plain: it keeps the run's characters. */
  lemma {:induction false} CollapseKeepsPlainRun(t: string)
    requires PlainRun(t)
    ensures PlainRun(CollapseBlankLines(t))
    decreases |t|
  {
    if |t| > 0 && IsSpace(JavaScript, t[0]) {
      CollapseKeepsPlainRun(t[1..]);
      assert CollapseBlankLines(t) == [t[0]] + CollapseBlankLines(t[1..]);
      assert CollapseBlankLines(t)[1..] == CollapseBlankLines(t[1..]);
    }
  }

  /** After the collapse no blank line is left. */
  lemma {:induction false} CollapseLeavesNoBlankLine(s: string)
    ensures NoBlankLine(CollapseBlankLines(s))
    decreases |s|
  {
    if |s| > 0 {
      var r := CollapseBlankLines(s);
      var next := if s[0] == '\n' then
          match LastNewline(s, 1, SpaceRunEnd(s, 1)) case Some(j) => j + 1 case None => 1
        else 1;
      var x := CollapseBlankLines(s[next..]);
      CollapseLeavesNoBlankLine(s[next..]);
      assert r == [s[0]] + x;
      if s[0] == '\n' {
        PlainRunFrom(s, next, SpaceRunEnd(s, 1));
        CollapseKeepsPlainRun(s[next..]);
      }
      forall i | 0 <= i < |r| && r[i] == '\n' ensures PlainRun(r[i + 1..]) {
        assert r[i + 1..] == x[i..];
        if i > 0 {
          assert r[i] == x[i - 1];
        }
      }
    }
  }

  lemma {:induction false} PlainRunPrefix(x: string, n: nat)
    requires PlainRun(x) && n <= |x|
    ensures PlainRun(x[..n])
    decreases n
  {
    if n > 0 && IsSpace(JavaScript, x[0]) {
      PlainRunPrefix(x[1..], n - 1);
      assert x[..n][1..] == x[1..][..n - 1];
    }
  }

  /** A stretch of a text without blank lines has none either. */
  lemma NoBlankLineInfix(s: string, w: string)
    requires NoBlankLine(s) && Contains(s, w)
    ensures NoBlankLine(w)
  {
    var a :| 0 <= a <= |s| - |w| && OccursAt(s, a, w);
    forall i | 0 <= i < |w| && w[i] == '\n' ensures PlainRun(w[i + 1..]) {
      assert w[i] == s[a..a + |w|][i] == s[a + i];
      PlainRunPrefix(s[a + i + 1..], |w| - i - 1);
      assert w[i + 1..] == s[a + i + 1..][..|w| - i - 1];
    }
  }

  /** A stretch of a text without `--` has none either. */
  lemma NoDoubleDashInfix(s: string, w: string)
    requires NoDoubleDash(s) && Contains(s, w)
    ensures NoDoubleDash(w)
  {
    var i :| 0 <= i <= |s| - |w| && OccursAt(s, i, w);
    forall k | 0 <= k < |w| - 1 ensures !(w[k] == '-' && w[k + 1] == '-') {
      assert w[k] == s[i..i + |w|][k] == s[i + k];
      assert w[k + 1] == s[i..i + |w|][k + 1] == s[i + k + 1];
    }
  }

  /** `cleanedSql`: comments removed, blank lines collapsed, then trimmed. */
  function CleanSql(content: string): string {
    Trim(JavaScript, CollapseBlankLines(StripComments(content)))
  }

  /** The cleaned text holds no `--`, no blank line and no whitespace at either end. */
  lemma CleanSqlWellFormed(content: string)
    ensures var clean := CleanSql(content);
      && NoDoubleDash(clean) && NoBlankLine(clean)
      && (|clean| == 0 || (!IsSpace(JavaScript, clean[0]) && !IsSpace(JavaScript, clean[|clean| - 1])))
  {
    var collapsed := CollapseBlankLines(StripComments(content));
    StripCommentsLeavesNoDoubleDash(content);
    CollapseKeepsNoDoubleDash(StripComments(content));
    TrimSpec(JavaScript, collapsed);
    NoDoubleDashInfix(collapsed, CleanSql(content));
    CollapseLeavesNoBlankLine(StripComments(content));
    NoBlankLineInfix(collapsed, CleanSql(content));
  }

  /** `commands`: the `;`-separated pieces, trimmed, empty ones dropped. */
  function Commands(content: string): seq<string> {
    TrimmedNonEmpty(JavaScript, Split(CleanSql(content), ';'))
  }

  /**
   * Every command is a non-empty stretch of the cleaned text with no `;`,
   * no `--` and no whitespace at either end.
   */
  lemma CommandsWellFormed(content: string, k: nat)
    requires k < |Commands(content)|
    ensures var command := Commands(content)[k];
      && Stripped(JavaScript, command) && ';' !in command && NoDoubleDash(command)
      && Contains(CleanSql(content), command)
  {
    SplitTrimmedPieces(JavaScript, CleanSql(content), ';', k);
    CleanSqlWellFormed(content);
    NoDoubleDashInfix(CleanSql(content), Commands(content)[k]);
  }

  // ----- running the commands -----

  /** What the database answers: success, or an error whose `message` may be missing. */
  datatype QueryResult = Ok | Failed(message: Option<string>)

  /** How a command's outcome is reported. */
  datatype CommandReport = Executed | SkippedExisting | Errored(message: string)

  const AlreadyExists := "already exists"

  /**
   * The `catch` around one command; `None` when `error.message` is
   * missing, so that `.includes` throws out of the loop.
   */
  function Classify(r: QueryResult): Option<CommandReport> {
    match r
    case Ok => Some(Executed)
    case Failed(None) => None
    case Failed(Some(m)) => Some(if Contains(m, AlreadyExists) then SkippedExisting else Errored(m))
  }

  /** The statements sent so far, the reports logged, and whether the loop was thrown out of. */
  datatype Trace = Trace(sent: seq<string>, reports: seq<CommandReport>, aborted: bool)

  /** The loop over the first `n` commands. */
  function RunCommands(commands: seq<string>, outcome: nat -> QueryResult, n: nat): (t: Trace)
    requires n <= |commands|
  {
    if n == 0 then Trace([], [], false)
    else
      var t := RunCommands(commands, outcome, n - 1);
      if t.aborted then t
      else
        var sent := t.sent + [commands[n - 1] + ";"];
        match Classify(outcome(n - 1))
        case None => Trace(sent, t.reports, true)
        case Some(report) => Trace(sent, t.reports + [report], false)
  }

  const ConnectionQuery := "SELECT COUNT(*) FROM user_profiles"

  /** The connection test's answer: a count row, no rows, or an error. */
  datatype ConnectionOutcome = Counted(profiles: int) | NoRows | Refused

  /** What a run of the script did. */
  datatype SetupResult =
    | ReadFailed
    | Ran(commands: seq<string>, sent: seq<string>, reports: seq<CommandReport>,
          completed: bool, profiles: Option<int>)

  /** The whole script, as a function of the file and the database's answers. */
  function Setup(file: Option<string>, outcome: nat -> QueryResult, connection: ConnectionOutcome): SetupResult {
    match file
    case None => ReadFailed
    case Some(content) => RunScript(Commands(content), outcome, connection)
  }

  /** Running the commands read from the file, then the connection test unless the loop was thrown out of. */
  function RunScript(commands: seq<string>, outcome: nat -> QueryResult, connection: ConnectionOutcome): SetupResult {
    var t := RunCommands(commands, outcome, |commands|);
    if t.aborted then Ran(commands, t.sent, t.reports, false, None)
    else Ran(commands, t.sent + [ConnectionQuery], t.reports, true,
             if connection.Counted? then Some(connection.profiles) else None)
  }

  /** Once the loop is thrown out of, nothing more is sent or reported. */
  lemma {:induction false} AbortSticks(commands: seq<string>, outcome: nat -> QueryResult, i: nat, n: nat)
    requires i <= n <= |commands|
    requires RunCommands(commands, outcome, i).aborted
    ensures RunCommands(commands, outcome, n) == RunCommands(commands, outcome, i)
    decreases n
  {
    if n > i {
      AbortSticks(commands, outcome, i, n - 1);
    }
  }

  /** The loop over all commands (lines 33-48). */
  method RunAll(commands: seq<string>, outcome: nat -> QueryResult) returns (t: Trace)
    ensures t == RunCommands(commands, outcome, |commands|)
  {
    var sent: seq<string> := [];
    var reports: seq<CommandReport> := [];
    var i := 0;
    while i < |commands|
      invariant 0 <= i <= |commands|
      invariant RunCommands(commands, outcome, i) == Trace(sent, reports, false)
    {
      var command := commands[i] + ";";
      sent := sent + [command];
      match outcome(i) {
        case Ok =>
          reports := reports + [Executed];
        case Failed(message) =>
          if message.None? {
            AbortSticks(commands, outcome, i + 1, |commands|);
            return Trace(sent, reports, true);
          }
          if Contains(message.value, AlreadyExists) {
            reports := reports + [SkippedExisting];
          } else {
            reports := reports + [Errored(message.value)];
          }
      }
      i := i + 1;
    }
    t := Trace(sent, reports, false);
  }

  /** `setupDatabase()`. */
  method SetupDatabase(file: Option<string>, outcome: nat -> QueryResult, connection: ConnectionOutcome)
    returns (result: SetupResult)
    ensures result == Setup(file, outcome, connection)
  {
    if file.None? {
      return ReadFailed;
    }
    var cleanedSql := CleanSql(file.value);
    var commands := TrimmedNonEmpty(JavaScript, Split(cleanedSql, ';'));
    var t := RunAll(commands, outcome);
    if t.aborted {
      return Ran(commands, t.sent, t.reports, false, None);
    }
    var profiles := if connection.Counted? then Some(connection.profiles) else None;
    result := Ran(commands, t.sent + [ConnectionQuery], t.reports, true, profiles);
  }

  // ----- what a run promises -----

  /** Every answer among the first `n` carries a message (or is a success). */
  predicate AllAnswered(outcome: nat -> QueryResult, n: nat) {
    forall i :: 0 <= i < n ==> outcome(i) != Failed(None)
  }

  /** Each command with its `;` put back. */
  function WithSemicolons(commands: seq<string>): (r: seq<string>)
    ensures |r| == |commands|
    ensures forall i :: 0 <= i < |commands| ==> r[i] == commands[i] + ";"
  {
    seq(|commands|, i requires 0 <= i < |commands| => commands[i] + ";")
  }

  /**
   * While every error has a message, the first `n` commands are each sent
   * exactly once, in order, with `;` appended; each gets one report, and
   * the report of command `i` depends only on its own answer.
   */
  lemma {:induction false} RunCommandsInOrder(commands: seq<string>, outcome: nat -> QueryResult, n: nat)
    requires n <= |commands| && AllAnswered(outcome, n)
    ensures var t := RunCommands(commands, outcome, n);
      && !t.aborted
      && t.sent == WithSemicolons(commands[..n])
      && |t.reports| == n
      && forall i :: 0 <= i < n ==> Classify(outcome(i)) == Some(t.reports[i])
  {
    if n > 0 {
      RunCommandsInOrder(commands, outcome, n - 1);
      assert outcome(n - 1) != Failed(None);
      assert commands[..n] == commands[..n - 1] + [commands[n - 1]];
    }
  }

  /**
   * Reports that follow `Classify` say "executed" exactly for successes, and
   * for an error with a message say "skipped" exactly when the message
   * mentions "already exists", and "error" otherwise.
   */
  lemma ClassifiedReports(reports: seq<CommandReport>, outcome: nat -> QueryResult)
    requires forall i :: 0 <= i < |reports| ==> Classify(outcome(i)) == Some(reports[i])
    ensures forall i :: 0 <= i < |reports| ==> (reports[i] == Executed <==> outcome(i) == Ok)
    ensures forall i, m :: 0 <= i < |reports| && outcome(i) == Failed(Some(m)) ==>
              (reports[i] == SkippedExisting <==> Contains(m, AlreadyExists))
              && (reports[i] == Errored(m) <==> !Contains(m, AlreadyExists))
  {
  }

    /**
   * One report per command, each following that command's own answer:
   * executed exactly when it succeeded, skipped exactly when its error
   * message mentions "already exists", otherwise an error carrying the message.
   */
  ghost predicate ReportsFollowAnswers(reports: seq<CommandReport>, outcome: nat -> QueryResult, n: nat)
  {
    && |reports| == n
    && (forall i :: 0 <= i < n ==> (reports[i] == Executed <==> outcome(i) == Ok))
    && (forall i, m :: 0 <= i < n && outcome(i) == Failed(Some(m)) ==>
          (reports[i] == SkippedExisting <==> Contains(m, AlreadyExists))
          && (reports[i] == Errored(m) <==> !Contains(m, AlreadyExists)))
  }

/**
   * A run that reads the file and gets a message with every error sends
   * every command once, in order, then the connection query; a failing
   * command stops nothing, and an error is reported as skipped exactly
   * when its message mentions "already exists".
   */
  lemma EveryCommandRunsOnce(content: string, outcome: nat -> QueryResult, connection: ConnectionOutcome)
    requires AllAnswered(outcome, |Commands(content)|)
    ensures var r := Setup(Some(content), outcome, connection);
      var commands := Commands(content);
      && r.Ran? && r.completed
      && r.sent == WithSemicolons(commands) + [ConnectionQuery]
      && ReportsFollowAnswers(r.reports, outcome, |commands|)
  {
    ScriptRunsEveryCommand(Commands(content), outcome, connection);
  }

  lemma ScriptRunsEveryCommand(commands: seq<string>, outcome: nat -> QueryResult, connection: ConnectionOutcome)
    requires AllAnswered(outcome, |commands|)
    ensures var r := RunScript(commands, outcome, connection);
      && r.Ran? && r.completed
      && r.sent == WithSemicolons(commands) + [ConnectionQuery]
      && ReportsFollowAnswers(r.reports, outcome, |commands|)
  {
    RunToCompletion(commands, outcome);
  }

  /** Every command answered: the run goes to the end, and each report is its own answer's. */
  lemma RunToCompletion(commands: seq<string>, outcome: nat -> QueryResult)
    requires AllAnswered(outcome, |commands|)
    ensures var t := RunCommands(commands, outcome, |commands|);
      && !t.aborted
      && t.sent == WithSemicolons(commands)
      && ReportsFollowAnswers(t.reports, outcome, |commands|)
  {
    RunCommandsInOrder(commands, outcome, |commands|);
    assert commands[..|commands|] == commands;
    ClassifiedReports(RunCommands(commands, outcome, |commands|).reports, outcome);
  }

  /**
   * The first error without a message ends the run: the commands up to and
   * including it have been sent, nothing after it, no connection test.
   */
  lemma MissingMessageAborts(content: string, outcome: nat -> QueryResult, connection: ConnectionOutcome, k: nat)
    requires k < |Commands(content)|
    requires AllAnswered(outcome, k) && outcome(k) == Failed(None)
    ensures var r := Setup(Some(content), outcome, connection);
      && r.Ran? && !r.completed && r.profiles.None?
      && r.sent == WithSemicolons(Commands(content)[..k + 1])
      && |r.reports| == k
  {
    RunAbortsAt(Commands(content), outcome, k);
  }

  /** The loop is thrown out of at the first error without a message. */
  lemma RunAbortsAt(commands: seq<string>, outcome: nat -> QueryResult, k: nat)
    requires k < |commands|
    requires AllAnswered(outcome, k) && outcome(k) == Failed(None)
    ensures var t := RunCommands(commands, outcome, |commands|);
      && t.aborted && t.sent == WithSemicolons(commands[..k + 1]) && |t.reports| == k
  {
    RunCommandsInOrder(commands, outcome, k);
    var t := RunCommands(commands, outcome, k);
    assert RunCommands(commands, outcome, k + 1) == Trace(t.sent + [commands[k] + ";"], t.reports, true);
    assert commands[..k + 1] == commands[..k] + [commands[k]];
    AbortSticks(commands, outcome, k + 1, |commands|);
  }

  /** The connection test only reports: its failure changes nothing else. */
  lemma ConnectionTestOnlyReports(content: string, outcome: nat -> QueryResult, c1: ConnectionOutcome, c2: ConnectionOutcome)
    ensures var r1 := Setup(Some(content), outcome, c1);
      var r2 := Setup(Some(content), outcome, c2);
      && r1.Ran? && r2.Ran?
      && r1.sent == r2.sent && r1.reports == r2.reports && r1.completed == r2.completed
      && (r1.completed && c1.Counted? ==> r1.profiles == Some(c1.profiles))
      && (!c1.Counted? ==> r1.profiles.None?)
  {
  }
}
