/**
 * The job submission coordinator's pure parts: the environment SQL
 * prologue (buildEnvSql), the savepoint part of the execution
 * configuration (buildJobConfig), the redaction of sensitive variables
 * before an export (exportSql), and the short error report a failed
 * packaged-artifact submission leaves in the process log (submitTask).
 */
module JobSubmission {
  import opened TaskTypes
  import opened JavaStrings
  import opened SavepointResolver

  /** CommonConstant.LineSep, the platform line separator; "\n" here. */
  const LineSep: string := "\n"

  /** The option key the resolved savepoint path is also written under. */
  const SavepointKey: string := "execution.savepoint.path"

  /** True when `s` ends with `suffix`. */
  predicate EndsWith(s: string, suffix: string)
  {
    |suffix| <= |s| && s[|s| - |suffix|..] == suffix
  }

  /** Asserts.isNotNullString: neither null nor empty. */
  predicate NotNullString(s: Option<string>)
  {
    s.Some? && s.value != ""
  }

  /** The statement of the environment task a task refers to, when the
      reference is set, non-zero, names a task with a statement, and that
      statement is not empty. */
  function EnvStatement(envId: Option<int>, statements: map<int, string>): (r: Option<string>)
    ensures r.Some? <==> envId.Some? && envId.value != 0 && envId.value in statements && statements[envId.value] != ""
    ensures r.Some? ==> r.value == statements[envId.value]
  {
    if envId.Some? && envId.value != 0 && envId.value in statements && statements[envId.value] != ""
    then Some(statements[envId.value])
    else None
  }

  /**
   * buildEnvSql: a line separator, then the enabled fragment SQL when the
   * task asks for fragments, then the environment task's statement, each of
   * the two followed by a line separator.
   */
  function BuildEnvSql(fragment: Option<bool>, flinkWithSql: Option<string>, envId: Option<int>, statements: map<int, string>): (sql: string)
    ensures LineSep <= sql && EndsWith(sql, LineSep)
    ensures fragment == Some(true) && NotNullString(flinkWithSql) ==> LineSep + flinkWithSql.value + LineSep <= sql
    ensures EnvStatement(envId, statements).Some? ==> EndsWith(sql, EnvStatement(envId, statements).value + LineSep)
    ensures (fragment != Some(true) || !NotNullString(flinkWithSql)) && EnvStatement(envId, statements).None? ==>
      sql == LineSep
    // nothing else: one separator, plus each part that is present with its own separator
    ensures |sql| == |LineSep|
      + (if fragment == Some(true) && NotNullString(flinkWithSql) then |flinkWithSql.value| + |LineSep| else 0)
      + (if EnvStatement(envId, statements).Some? then |EnvStatement(envId, statements).value| + |LineSep| else 0)
  {
    var withFragment :=
      if fragment == Some(true) && NotNullString(flinkWithSql) then LineSep + flinkWithSql.value + LineSep
      else LineSep;
    match EnvStatement(envId, statements)
    case None => withFragment
    case Some(env) =>
      assert withFragment <= withFragment + env + LineSep;
      withFragment + env + LineSep
  }

  /** What a task's submission is built from besides the task: the
      tenant's enabled fragment SQL and the enabled shared variables. */
  datatype Environment = Environment(flinkWithSql: Option<string>, enabledVariables: map<string, string>)

  /** The part of JobConfig this model follows. */
  datatype JobConfig = JobConfig(
    taskId: int,
    jarTask: bool,
    statement: string,
    savePointStrategy: SavePointStrategy,
    savePointPath: string,
    configJson: map<string, string>,
    variables: map<string, string>)

  /**
   * buildJobConfig: a SQL task's statement gets the environment prologue
   * in front; the savepoint resolved for the task's strategy, when there
   * is one, is written both to the configuration's savepoint path and to
   * the execution option; the enabled variables are attached.
   */
  function BuildJobConfig(id: int, t: Task, statement: string, env: Environment, statements: map<int, string>,
                          stored: seq<Savepoint>): (c: JobConfig)
    ensures c.taskId == id && c.jarTask == IsJarTask(t.dialect)
    ensures c.savePointStrategy == t.configure.savePointStrategy && c.variables == env.enabledVariables
    ensures IsJarTask(t.dialect) ==> c.statement == statement
    ensures !IsJarTask(t.dialect) ==>
      c.statement == BuildEnvSql(t.configure.fragment, env.flinkWithSql, t.configure.envId, statements) + statement
    ensures match BuildSavepoint(t.configure.savePointStrategy, t.configure.savePointPath, stored)
      case Some(p) =>
        c.savePointPath == p && c.configJson == t.configure.configJson[SavepointKey := p]
      case None =>
        c.savePointPath == t.configure.savePointPath && c.configJson == t.configure.configJson
  {
    var full :=
      if IsJarTask(t.dialect) then statement
      else BuildEnvSql(t.configure.fragment, env.flinkWithSql, t.configure.envId, statements) + statement;
    var base := JobConfig(id, IsJarTask(t.dialect), full, t.configure.savePointStrategy,
                          t.configure.savePointPath, t.configure.configJson, env.enabledVariables);
    match BuildSavepoint(t.configure.savePointStrategy, t.configure.savePointPath, stored)
    case Some(p) => base.(savePointPath := p, configJson := base.configJson[SavepointKey := p])
    case None => base
  }

  /** A CUSTOM strategy submits the configured path verbatim, in both
      places, whatever savepoints are stored; NONE leaves both untouched. */
  lemma CustomPathSubmittedVerbatim(id: int, t: Task, statement: string, env: Environment,
                                    statements: map<int, string>, stored: seq<Savepoint>)
    ensures var c := BuildJobConfig(id, t, statement, env, statements, stored);
      (t.configure.savePointStrategy == Custom ==>
         c.savePointPath == t.configure.savePointPath && c.configJson[SavepointKey] == t.configure.savePointPath)
      && (t.configure.savePointStrategy == NoSavepoint ==> c.configJson == t.configure.configJson)
  {
  }

  /** The variables after exportSql's loop: every sensitive key's value is
      replaced by the hidden marker, the others are kept. */
  function Redacted(vars: map<string, string>, isSensitive: string -> bool, hidden: string): map<string, string>
  {
    map k | k in vars :: if isSensitive(k) then hidden else vars[k]
  }

  /** Redacting twice is redacting once, and no sensitive value survives. */
  lemma RedactionIdempotent(vars: map<string, string>, isSensitive: string -> bool, hidden: string)
    ensures Redacted(Redacted(vars, isSensitive, hidden), isSensitive, hidden) == Redacted(vars, isSensitive, hidden)
    ensures forall k :: k in vars && isSensitive(k) ==> Redacted(vars, isSensitive, hidden)[k] == hidden
  {
  }

  /** exportSql's loop over the variable entries, overwriting the value of
      each sensitive key; a null variable map is left alone. */
  method RedactVariables(variables: Option<map<string, string>>, isSensitive: string -> bool, hidden: string)
    returns (r: Option<map<string, string>>)
    ensures r.None? <==> variables.None?
    ensures r.Some? ==> r.value == Redacted(variables.value, isSensitive, hidden)
    ensures r.Some? ==>
      (r.value.Keys == variables.value.Keys
       && forall k :: k in r.value ==> r.value[k] == (if isSensitive(k) then hidden else variables.value[k]))
  {
    if variables.None? {
      return None;
    }
    var vars := variables.value;
    var result := vars;
    var todo := vars.Keys;
    while todo != {}
      invariant todo <= vars.Keys && result.Keys == vars.Keys
      invariant forall k :: k in todo ==> result[k] == vars[k]
      invariant forall k :: k in vars && k !in todo ==> result[k] == (if isSensitive(k) then hidden else vars[k])
      decreases todo
    {
      var k :| k in todo;
      if isSensitive(k) {
        result := result[k := hidden];
      }
      todo := todo - {k};
    }
    r := Some(result);
  }

  const CausedBy: string := "Caused by"

  /** The lines that contain "Caused by", in order, each as often as it
      occurs. */
  function CausedByLines(lines: seq<string>): (r: seq<string>)
    ensures |r| <= |lines|
    ensures forall i :: 0 <= i < |r| ==> Contains(r[i], CausedBy)
    ensures forall x :: x in r <==> x in lines && Contains(x, CausedBy)
    ensures |lines| == 1 ==> r == (if Contains(lines[0], CausedBy) then lines else [])
  {
    if lines == [] then []
    else
      var rest := CausedByLines(lines[1..]);
      assert forall x :: x in lines <==> x == lines[0] || x in lines[1..];
      if Contains(lines[0], CausedBy) then [lines[0]] + rest else rest
  }

  /** Filtering distributes over concatenation: the kept lines of two
      blocks are the kept lines of the first, then those of the second. */
  lemma {:induction false} CausedByLinesAppend(a: seq<string>, b: seq<string>)
    ensures CausedByLines(a + b) == CausedByLines(a) + CausedByLines(b)
    decreases |a|
  {
    if a == [] {
      assert a + b == b;
    } else {
      assert (a + b)[0] == a[0] && (a + b)[1..] == a[1..] + b;
      CausedByLinesAppend(a[1..], b);
    }
  }

  /** submitTask's error report as written: the first line of the error,
      then every line containing "Caused by". None stands for the
      ArrayIndexOutOfBoundsException thrown when the split has no lines. */
  function SubmitErrorLog(error: string): (r: Option<seq<string>>)
    ensures r.None? <==> SplitLines(error) == []
    ensures r.Some? ==> r.value != [] && r.value[0] == SplitLines(error)[0] && r.value[1..] == CausedByLines(SplitLines(error))
  {
    var lines := SplitLines(error);
    if lines == [] then None else Some([lines[0]] + CausedByLines(lines))
  }

  /** The error report as intended: the first line when there is one, then
      every "Caused by" line. */
  function ErrorSummary(error: string): (r: seq<string>)
    ensures forall x :: x in r ==> x in SplitLines(error)
    ensures forall x :: x in SplitLines(error) && Contains(x, CausedBy) ==> x in r
    ensures SplitLines(error) == [] ==> r == []
    ensures SplitLines(error) != [] ==> r != [] && r[0] == SplitLines(error)[0]
    // after the first line, only "Caused by" lines, in order and as often as they occur
    ensures forall i :: 1 <= i < |r| ==> Contains(r[i], CausedBy)
    ensures SplitLines(error) != [] ==> r[1..] == CausedByLines(SplitLines(error))
  {
    var lines := SplitLines(error);
    (if lines == [] then [] else [lines[0]]) + CausedByLines(lines)
  }

  /** Where the report as written does not throw, it is the intended one. */
  lemma SubmitErrorLogAgrees(error: string)
    ensures SubmitErrorLog(error).Some? ==> SubmitErrorLog(error).value == ErrorSummary(error)
  {
  }

  /** The text consists of newline characters only. */
  predicate NewlinesOnly(s: string)
  {
    forall i :: 0 <= i < |s| ==> s[i] == '\n'
  }

  /** Every piece is empty. */
  predicate AllEmpty(ps: seq<string>)
  {
    forall i :: 0 <= i < |ps| ==> ps[i] == ""
  }

  /** Pieces of a string are all empty exactly when the string is newlines only. */
  lemma {:induction false} PiecesAllEmpty(s: string)
    ensures AllEmpty(Pieces(s)) <==> NewlinesOnly(s)
    decreases |s|
  {
    if |s| > 0 {
      PiecesAllEmpty(s[1..]);
      var rest := Pieces(s[1..]);
      var ps := Pieces(s);
      assert NewlinesOnly(s) <==> s[0] == '\n' && NewlinesOnly(s[1..]) by {
        assert forall i :: 1 <= i < |s| ==> s[i] == s[1..][i - 1];
      }
      if s[0] == '\n' {
        assert ps == [""] + rest;
        assert forall i :: 0 <= i < |rest| ==> ps[i + 1] == rest[i];
        assert AllEmpty(ps) <==> AllEmpty(rest);
      } else {
        assert ps[0] == [s[0]] + rest[0];
        assert !AllEmpty(ps);
      }
    }
  }

  /** Java's split on "\n" returns no line exactly for a non-empty text
      of newline characters only. */
  lemma SplitLinesEmpty(error: string)
    ensures SplitLines(error) == [] <==> error != "" && forall i :: 0 <= i < |error| ==> error[i] == '\n'
  {
    if '\n' in error {
      var ps := Pieces(error);
      var dropped := DropTrailingEmpty(ps);
      assert SplitLines(error) == dropped;
      PiecesAllEmpty(error);
      var allEmpty := AllEmpty(ps);
      var allNewlines := NewlinesOnly(error);
      assert allEmpty == allNewlines;
      if dropped != [] {
        assert ps[|dropped| - 1] != "";
        assert !allEmpty;
      } else {
        assert allEmpty;
      }
      assert error != "";
    } else {
      assert SplitLines(error) == [error];
      if error != "" {
        assert error[0] != '\n';
      }
    }
  }

  /** The report as written throws exactly for a non-empty error made of
      newline characters only. */
  lemma SubmitErrorLogThrowsOnNewlinesOnly(error: string)
    ensures SubmitErrorLog(error).None? <==> error != "" && forall i :: 0 <= i < |error| ==> error[i] == '\n'
  {
    SplitLinesEmpty(error);
  }

  /** An error text of a single newline makes the report as written throw. */
  lemma BareNewlineThrows()
    ensures SubmitErrorLog("\n").None?
  {
    SubmitErrorLogThrowsOnNewlinesOnly("\n");
  }
}
