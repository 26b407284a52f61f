/** The API installed on the remote resource (cerise/back_end/remote_api.py):
    the macro substitutions in the runner location and in API steps, the
    rewriting of a workflow's steps to their installed paths, and the
    installation of each project's files, steps and install script under
    `<basedir>/api/<project>`. */
module RemoteApi {
  import opened Wrappers
  import opened Json
  import opened Text
  import opened InputFiles
  import opened RemoteFs

  /** The macro tokens. */
  const ApiToken: string := "$CERISE_API"
  const UserToken: string := "$CERISE_USERNAME"
  const FilesToken: string := "$CERISE_API_FILES"

  /** `basedir / 'api'`. */
  function ApiDir(basedir: string): string {
    JoinPath(basedir, "api")
  }

  /* ---------------- translate_runner_location ---------------- */

  /** A configured user name: Python tests `self._username` for truth, so
      a missing and an empty name both count as not configured. */
  predicate Configured(username: Option<string>) {
    username.Some? && username.value != []
  }

  /** `translate_runner_location(loc)`. */
  function RunnerLocation(apiDir: string, username: Option<string>, loc: string): string {
    var located := ReplaceAll(loc, ApiToken, apiDir);
    if Configured(username) then ReplaceAll(located, UserToken, username.value) else located
  }

  /** Every `$CERISE_API` becomes the API directory, the text between the
      tokens staying as it was; then, only with a configured user name,
      every `$CERISE_USERNAME` becomes that name. */
  lemma RunnerLocationSplit(apiDir: string, username: Option<string>, loc: string)
    ensures var located := Join(Split(loc, ApiToken), apiDir);
      RunnerLocation(apiDir, username, loc) ==
        if Configured(username) then Join(Split(located, UserToken), username.value) else located
  {
    ReplaceAllIsJoinOfSplit(loc, ApiToken, apiDir);
    if Configured(username) {
      ReplaceAllIsJoinOfSplit(ReplaceAll(loc, ApiToken, apiDir), UserToken, username.value);
    }
  }

  /** Without a configured user name, a location that holds no
      `$CERISE_API` comes back as it was, `$CERISE_USERNAME` and all. */
  lemma RunnerLocationUnconfigured(apiDir: string, username: Option<string>, loc: string)
    requires !Configured(username) && !Contains(loc, ApiToken)
    ensures RunnerLocation(apiDir, username, loc) == loc
  {
    ReplaceAllAbsent(loc, ApiToken, apiDir);
  }

  /** A location that holds neither token comes back as it was. */
  lemma RunnerLocationPlain(apiDir: string, username: Option<string>, loc: string)
    requires !Contains(loc, ApiToken) && !Contains(loc, UserToken)
    ensures RunnerLocation(apiDir, username, loc) == loc
  {
    ReplaceAllAbsent(loc, ApiToken, apiDir);
    if Configured(username) {
      ReplaceAllAbsent(loc, UserToken, username.value);
    }
  }

  /* ---------------- translate_workflow ---------------- */

  /** `api_dir / project / 'steps'`. */
  function StepsDir(apiDir: string, project: string): string {
    JoinPath(JoinPath(apiDir, project), "steps")
  }

  /** The project a step's `run` names: `run.split('/')[0]`. */
  function Project(run: string): string {
    Split(run, "/")[0]
  }

  /** The installed location `translate_workflow` gives a step whose `run`
      is `run`. */
  function InstalledRun(apiDir: string, run: string): string {
    var parts := Split(run, "/");
    StepsDir(apiDir, parts[0]) + "/" + Join(parts, "/")
  }

  /** The whole of `run` is kept behind the project's steps directory,
      because `'/'.join(run.split('/')) == run`. */
  lemma InstalledRunKeepsRun(apiDir: string, run: string)
    ensures InstalledRun(apiDir, run) == StepsDir(apiDir, Project(run)) + "/" + run
  {
    JoinSplit(run, "/");
  }

  /** The project is the text of `run` before its first `/`, or all of it. */
  lemma {:induction false} ProjectIsFirstSegment(run: string)
    ensures Project(run) <= run
    ensures forall i :: 0 <= i < |Project(run)| ==> run[i] != '/'
    ensures |Project(run)| == |run| || run[|Project(run)|] == '/'
    decreases |run|
  {
    if run != [] && run[0] != '/' {
      assert !("/" <= run);
      ProjectIsFirstSegment(run[1..]);
    }
  }

  /** A step `<project>/<rest>` is installed under `<project>`'s steps
      directory, `<project>/<rest>` and all. */
  lemma InstalledRunOf(apiDir: string, project: string, rest: string)
    requires forall i :: 0 <= i < |project| ==> project[i] != '/'
    ensures InstalledRun(apiDir, project + "/" + rest) == StepsDir(apiDir, project) + "/" + project + "/" + rest
  {
    var run := project + "/" + rest;
    ProjectIsFirstSegment(run);
    InstalledRunKeepsRun(apiDir, run);
    var q := Project(run);
    assert forall i :: 0 <= i < |project| ==> run[i] == project[i];
    assert run[|project|] == '/';
    assert |q| == |project|;
    assert q == run[..|project|] == project;
    assert StepsDir(apiDir, project) + "/" + run == StepsDir(apiDir, project) + "/" + project + "/" + rest;
  }

  /** A step `translate_workflow` accepts: a dict whose `run` is a string. */
  predicate RunnableStep(step: Json) {
    step.JObject? && Lookup(step.fields, "run").Some? && Lookup(step.fields, "run").value.JString?
  }

  /** One turn of the loop over the steps. */
  function TranslatedStep(apiDir: string, step: Json): (r: Result<Json>)
    ensures r.Ok? <==> RunnableStep(step)
  {
    var run :- Field(step, "run");
    if run.JString? then SetField(step, "run", JString(InstalledRun(apiDir, run.s))) else Err(InvalidStep)
  }

  /** A runnable step gets its installed `run` and keeps its other fields,
      in order; a dict without a `run` or with a `run` that is not a string
      is refused, and so is anything that is not a dict. */
  lemma TranslatedStepSpec(apiDir: string, step: Json)
    ensures !step.JObject? ==> TranslatedStep(apiDir, step) == Err(WrongType)
    ensures step.JObject? && Lookup(step.fields, "run").None? ==> TranslatedStep(apiDir, step) == Err(KeyMissing("run"))
    ensures step.JObject? && Lookup(step.fields, "run").Some? && !Lookup(step.fields, "run").value.JString? ==>
      TranslatedStep(apiDir, step) == Err(InvalidStep)
    ensures RunnableStep(step) ==>
      var run := Lookup(step.fields, "run").value.s;
      var r := TranslatedStep(apiDir, step).value;
      && r.JObject? && Keys(r.fields) == Keys(step.fields)
      && Lookup(r.fields, "run") == Some(JString(StepsDir(apiDir, Project(run)) + "/" + run))
      && forall k :: k != "run" ==> Lookup(r.fields, k) == Lookup(step.fields, k)
  {
    if RunnableStep(step) {
      var run := Lookup(step.fields, "run").value.s;
      InstalledRunKeepsRun(apiDir, run);
      UpdateKeys(step.fields, "run", JString(InstalledRun(apiDir, run)));
    }
  }

  /** The loop `for _, step in workflow['steps'].items()`, over the steps
      dict's entries in order; the first step refused stops it. */
  function TranslatedSteps(apiDir: string, steps: seq<(string, Json)>): Result<seq<(string, Json)>>
    decreases |steps|
  {
    if steps == [] then Ok([])
    else
      match TranslatedStep(apiDir, steps[0].1)
      case Err(e) => Err(e)
      case Ok(step) => Prepended([(steps[0].0, step)], TranslatedSteps(apiDir, steps[1..]))
  }

  /** The steps are translated exactly when every step is runnable, and
      then one for one. */
  lemma {:induction false} TranslatedStepsSpec(apiDir: string, steps: seq<(string, Json)>)
    ensures TranslatedSteps(apiDir, steps).Ok? <==> forall i :: 0 <= i < |steps| ==> RunnableStep(steps[i].1)
    ensures TranslatedSteps(apiDir, steps).Ok? ==> |TranslatedSteps(apiDir, steps).value| == |steps|
    decreases |steps|
  {
    if steps != [] {
      TranslatedStepsSpec(apiDir, steps[1..]);
      if TranslatedStep(apiDir, steps[0].1).Ok? && TranslatedSteps(apiDir, steps[1..]).Err? {
        var k :| 0 <= k < |steps[1..]| && !RunnableStep(steps[1..][k].1);
        assert steps[1..][k] == steps[k + 1];
      }
    }
  }

  /** When every step is a dict with a `run`, the only way to fail is a
      `run` that is not a string. */
  lemma {:induction false} TranslatedStepsInvalid(apiDir: string, steps: seq<(string, Json)>)
    requires forall i :: 0 <= i < |steps| ==> steps[i].1.JObject? && Lookup(steps[i].1.fields, "run").Some?
    ensures TranslatedSteps(apiDir, steps).Err? ==> TranslatedSteps(apiDir, steps).error == InvalidStep
    decreases |steps|
  {
    if steps != [] {
      TranslatedStepSpec(apiDir, steps[0].1);
      assert forall i :: 0 <= i < |steps[1..]| ==> steps[1..][i] == steps[i + 1];
      TranslatedStepsInvalid(apiDir, steps[1..]);
    }
  }

  /** The i-th translated step is the i-th step, translated, under the
      same key. */
  lemma {:induction false} TranslatedStepsAt(apiDir: string, steps: seq<(string, Json)>, i: nat)
    requires TranslatedSteps(apiDir, steps).Ok? && i < |steps|
    ensures var r := TranslatedSteps(apiDir, steps).value;
      i < |r| && r[i].0 == steps[i].0 && TranslatedStep(apiDir, steps[i].1) == Ok(r[i].1)
    decreases i
  {
    if i > 0 {
      TranslatedStepsAt(apiDir, steps[1..], i - 1);
      assert steps[1..][i - 1] == steps[i];
    }
  }

  /** The loop from position `i` on: the i-th step, then the rest. */
  lemma TranslatedStepsFrom(apiDir: string, steps: seq<(string, Json)>, i: nat)
    requires i < |steps|
    ensures var t := TranslatedStep(apiDir, steps[i].1);
      TranslatedSteps(apiDir, steps[i..]) ==
        if t.Err? then Err(t.error) else Prepended([(steps[i].0, t.value)], TranslatedSteps(apiDir, steps[i + 1..]))
  {
    assert steps[i..][0] == steps[i];
    assert steps[i..][1..] == steps[i + 1..];
  }

  /** One turn of the loop of `translate_workflow`: the i-th step is
      replaced by its translation. */
  lemma TranslatedStepsTurn(apiDir: string, steps: seq<(string, Json)>, fields: seq<(string, Json)>, i: nat, newStep: Json)
    requires i < |fields| == |steps| && fields[i..] == steps[i..]
    requires TranslatedSteps(apiDir, steps) == Prepended(fields[..i], TranslatedSteps(apiDir, steps[i..]))
    requires TranslatedStep(apiDir, fields[i].1) == Ok(newStep)
    ensures var next := fields[i := (fields[i].0, newStep)];
      && next[i + 1..] == steps[i + 1..]
      && TranslatedSteps(apiDir, steps) == Prepended(next[..i + 1], TranslatedSteps(apiDir, steps[i + 1..]))
  {
    var entry := (fields[i].0, newStep);
    UpdatedAt(fields, steps, i, entry);
    TranslatedStepsFrom(apiDir, steps, i);
    PrependedTwice(fields[..i], [entry], TranslatedSteps(apiDir, steps[i + 1..]));
  }

  /** Replacing position `i` of a list that agrees with another from `i`
      on: the prefix grows by the new entry and the rest still agrees. */
  lemma UpdatedAt<T>(xs: seq<T>, ys: seq<T>, i: nat, x: T)
    requires i < |xs| == |ys| && xs[i..] == ys[i..]
    ensures xs[i] == ys[i]
    ensures xs[i := x][..i + 1] == xs[..i] + [x]
    ensures xs[i := x][i + 1..] == ys[i + 1..]
  {
    assert xs[i] == xs[i..][0];
    assert xs[i + 1..] == xs[i..][1..];
  }

  /** Python's `key in j`: a dict's keys, a list's elements, a string's
      substrings; anything else raises. */
  function HasMember(j: Json, key: string): (r: Result<bool>)
    ensures j.JObject? ==> r == Ok(key in Keys(j.fields))
  {
    match j
    case JObject(fields) => Ok(key in Keys(fields))
    case JArray(items) => Ok(JString(key) in items)
    case JString(s) => Ok(Contains(s, key))
    case _ => Err(WrongType)
  }

  /** `translate_workflow` on the parsed document, before `json.dumps`. */
  function TranslatedWorkflow(apiDir: string, workflow: Json): Result<Json> {
    var hasSteps :- HasMember(workflow, "steps");
    if !hasSteps then Err(NoSteps)
    else
      var steps :- Field(workflow, "steps");
      if !steps.JObject? then Err(WrongType)
      else
        var translated :- TranslatedSteps(apiDir, steps.fields);
        SetField(workflow, "steps", JObject(translated))
  }

  /** A document without `steps` is refused; one whose steps dict holds
      only runnable steps is accepted, and then only `steps` changes: it
      keeps its keys and gets the translated steps. */
  lemma TranslatedWorkflowSpec(apiDir: string, workflow: Json)
    ensures HasMember(workflow, "steps") == Ok(false) ==> TranslatedWorkflow(apiDir, workflow) == Err(NoSteps)
    ensures TranslatedWorkflow(apiDir, workflow).Ok? <==>
      && workflow.JObject?
      && Lookup(workflow.fields, "steps").Some? && Lookup(workflow.fields, "steps").value.JObject?
      && forall i :: 0 <= i < |Lookup(workflow.fields, "steps").value.fields| ==>
           RunnableStep(Lookup(workflow.fields, "steps").value.fields[i].1)
    ensures TranslatedWorkflow(apiDir, workflow).Ok? ==>
      var r := TranslatedWorkflow(apiDir, workflow).value;
      var steps := Lookup(workflow.fields, "steps").value.fields;
      && r.JObject? && Keys(r.fields) == Keys(workflow.fields)
      && Lookup(r.fields, "steps") == Some(JObject(TranslatedSteps(apiDir, steps).value))
      && forall k :: k != "steps" ==> Lookup(r.fields, k) == Lookup(workflow.fields, k)
  {
    if workflow.JObject? && Lookup(workflow.fields, "steps").Some? {
      var steps := Lookup(workflow.fields, "steps").value;
      if steps.JObject? {
        TranslatedStepsSpec(apiDir, steps.fields);
        var t := TranslatedSteps(apiDir, steps.fields);
        if t.Ok? {
          UpdateKeys(workflow.fields, "steps", JObject(t.value));
        }
      }
    }
  }

  /* ---------------- _translate_api_step ---------------- */

  /** `remote_project_dir / 'files'`. */
  function FilesDir(projectDir: string): string {
    JoinPath(projectDir, "files")
  }

  /** A `baseCommand` string whose left-stripped form starts with
      `$CERISE_API_FILES` has that first occurrence, right after its
      leading white space, replaced by the files directory. */
  lemma BaseCommandReplaced(filesDir: string, command: string)
    requires FilesToken <= LStrip(command)
    ensures var t := LStrip(command);
      ReplaceFirst(command, FilesToken, filesDir) == command[..|command| - |t|] + filesDir + t[|FilesToken|..]
  {
    var t := LStrip(command);
    var w := command[..|command| - |t|];
    assert forall i :: 0 <= i < |w| ==> IsSpace(w[i]);
    assert !IsSpace('$');
    ReplaceFirstAfterRun(w, t, FilesToken, filesDir);
  }

  /** `'baseCommand'` handling: a string that starts with the token after
      its white space gets the files directory; another string is kept;
      any other value has no `lstrip` and raises. */
  function WithBaseCommand(filesDir: string, fields: seq<(string, Json)>): Result<seq<(string, Json)>> {
    match Lookup(fields, "baseCommand")
    case None => Ok(fields)
    case Some(command) =>
      if !command.JString? then Err(WrongType)
      else if FilesToken <= LStrip(command.s) then
        Ok(Update(fields, "baseCommand", JString(ReplaceFirst(command.s, FilesToken, filesDir))))
      else Ok(fields)
  }

  /** `[a.replace('$CERISE_API_FILES', files_dir) for a in arguments]`; an
      element that is not a string has no `replace` and raises. */
  function ReplacedArguments(filesDir: string, args: seq<Json>): Result<seq<Json>>
    decreases |args|
  {
    if args == [] then Ok([])
    else if !args[0].JString? then Err(WrongType)
    else Prepended([JString(ReplaceAll(args[0].s, FilesToken, filesDir))], ReplacedArguments(filesDir, args[1..]))
  }

  /** The arguments are replaced one for one, in order, exactly when all
      of them are strings. */
  lemma {:induction false} ReplacedArgumentsSpec(filesDir: string, args: seq<Json>)
    ensures ReplacedArguments(filesDir, args).Ok? <==> forall i :: 0 <= i < |args| ==> args[i].JString?
    ensures ReplacedArguments(filesDir, args).Ok? ==>
      var r := ReplacedArguments(filesDir, args).value;
      && |r| == |args|
      && forall i :: 0 <= i < |args| ==> r[i] == JString(ReplaceAll(args[i].s, FilesToken, filesDir))
    decreases |args|
  {
    if args != [] {
      ReplacedArgumentsSpec(filesDir, args[1..]);
      if ReplacedArguments(filesDir, args).Ok? {
        var r := ReplacedArguments(filesDir, args).value;
        assert r[1..] == ReplacedArguments(filesDir, args[1..]).value;
        forall i | 0 <= i < |args|
          ensures r[i] == JString(ReplaceAll(args[i].s, FilesToken, filesDir))
        {
          if i > 0 {
            assert r[i] == r[1..][i - 1];
            assert args[i] == args[1..][i - 1];
          }
        }
      } else if args[0].JString? {
        var k :| 0 <= k < |args[1..]| && !args[1..][k].JString?;
        assert args[1..][k] == args[k + 1];
      }
    }
  }

  /** The loop from position `i` on. */
  lemma ReplacedArgumentsFrom(filesDir: string, args: seq<Json>, i: nat)
    requires i < |args|
    ensures ReplacedArguments(filesDir, args[i..]) ==
      if !args[i].JString? then Err(WrongType)
      else Prepended([JString(ReplaceAll(args[i].s, FilesToken, filesDir))], ReplacedArguments(filesDir, args[i + 1..]))
  {
    assert args[i..][0] == args[i];
    assert args[i..][1..] == args[i + 1..];
  }

  /** `'arguments'` handling: a list has every element replaced; anything
      else is refused. */
  function WithArguments(filesDir: string, fields: seq<(string, Json)>): Result<seq<(string, Json)>> {
    match Lookup(fields, "arguments")
    case None => Ok(fields)
    case Some(arguments) =>
      if !arguments.JArray? then Err(ArgumentsNotList)
      else
        var newArgs :- ReplacedArguments(filesDir, arguments.items);
        Ok(Update(fields, "arguments", JArray(newArgs)))
  }

  /** `_translate_api_step` on the parsed step document. */
  function TranslatedApiStep(filesDir: string, doc: Json): Result<Json> {
    if !doc.JObject? then Err(WrongType)
    else if GetOrNull(doc.fields, "class") != JString("CommandLineTool") then Ok(doc)
    else
      var withCommand :- WithBaseCommand(filesDir, doc.fields);
      var withArguments :- WithArguments(filesDir, withCommand);
      Ok(JObject(withArguments))
  }

  /** Which step documents are refused: anything that is not a dict, and a
      command-line tool whose `baseCommand` is not a string, whose
      `arguments` is not a list, or one of whose arguments is not a
      string. Any other document is accepted, and one that is not a
      command-line tool comes back as it was. */
  lemma TranslatedApiStepAccepts(filesDir: string, doc: Json)
    ensures !doc.JObject? ==> TranslatedApiStep(filesDir, doc) == Err(WrongType)
    ensures doc.JObject? && GetOrNull(doc.fields, "class") != JString("CommandLineTool") ==>
      TranslatedApiStep(filesDir, doc) == Ok(doc)
    ensures doc.JObject? && GetOrNull(doc.fields, "class") == JString("CommandLineTool") ==>
      var command := Lookup(doc.fields, "baseCommand");
      var arguments := Lookup(doc.fields, "arguments");
      && (TranslatedApiStep(filesDir, doc).Ok? <==>
           && (command.None? || command.value.JString?)
           && (arguments.None? || (arguments.value.JArray? &&
                 forall i :: 0 <= i < |arguments.value.items| ==> arguments.value.items[i].JString?)))
      && ((command.None? || command.value.JString?) && arguments.Some? && !arguments.value.JArray? ==>
           TranslatedApiStep(filesDir, doc) == Err(ArgumentsNotList))
  {
    if doc.JObject? {
      var command := Lookup(doc.fields, "baseCommand");
      if command.Some? && command.value.JString? && FilesToken <= LStrip(command.value.s) {
        UpdateLookup(doc.fields, "baseCommand", JString(ReplaceFirst(command.value.s, FilesToken, filesDir)));
      }
      var arguments := Lookup(doc.fields, "arguments");
      if arguments.Some? && arguments.value.JArray? {
        ReplacedArgumentsSpec(filesDir, arguments.value.items);
      }
    }
  }

  /** The `baseCommand` step keeps every key and every other field, and
      puts the files directory in place of the token that starts the
      command after its white space. */
  lemma WithBaseCommandFields(filesDir: string, fields: seq<(string, Json)>)
    requires WithBaseCommand(filesDir, fields).Ok?
    ensures var r := WithBaseCommand(filesDir, fields).value;
      && Keys(r) == Keys(fields)
      && (forall k :: k != "baseCommand" ==> Lookup(r, k) == Lookup(fields, k))
      && (Lookup(fields, "baseCommand").Some? && Lookup(fields, "baseCommand").value.JString? ==>
           var command := Lookup(fields, "baseCommand").value.s;
           var t := LStrip(command);
           Lookup(r, "baseCommand") == Some(JString(
             if FilesToken <= t then command[..|command| - |t|] + filesDir + t[|FilesToken|..] else command)))
  {
    var command := Lookup(fields, "baseCommand");
    if command.Some? && FilesToken <= LStrip(command.value.s) {
      var v := JString(ReplaceFirst(command.value.s, FilesToken, filesDir));
      UpdateLookup(fields, "baseCommand", v);
      UpdateKeys(fields, "baseCommand", v);
      BaseCommandReplaced(filesDir, command.value.s);
    }
  }

  /** The `arguments` step keeps every key and every other field, and
      replaces the list by its elements with every token replaced. */
  lemma WithArgumentsFields(filesDir: string, fields: seq<(string, Json)>)
    requires WithArguments(filesDir, fields).Ok?
    ensures var r := WithArguments(filesDir, fields).value;
      && Keys(r) == Keys(fields)
      && (forall k :: k != "arguments" ==> Lookup(r, k) == Lookup(fields, k))
      && (Lookup(fields, "arguments").Some? && Lookup(fields, "arguments").value.JArray? ==>
           var args := Lookup(fields, "arguments").value.items;
           ReplacedArguments(filesDir, args).Ok? && Lookup(r, "arguments") == Some(JArray(ReplacedArguments(filesDir, args).value)))
  {
    var arguments := Lookup(fields, "arguments");
    if arguments.Some? {
      var newArgs := ReplacedArguments(filesDir, arguments.value.items);
      UpdateLookup(fields, "arguments", JArray(newArgs.value));
      UpdateKeys(fields, "arguments", JArray(newArgs.value));
    }
  }

  /** What an accepted command-line tool becomes: its keys and their order
      are kept, `baseCommand` gets the files directory in place of the
      token that starts it after white space, every argument has every
      token replaced, and every other field is kept. */
  lemma TranslatedApiStepFields(filesDir: string, doc: Json)
    requires doc.JObject? && GetOrNull(doc.fields, "class") == JString("CommandLineTool")
    requires TranslatedApiStep(filesDir, doc).Ok?
    ensures var r := TranslatedApiStep(filesDir, doc).value;
      && r.JObject? && Keys(r.fields) == Keys(doc.fields)
      && (forall k :: k != "baseCommand" && k != "arguments" ==> Lookup(r.fields, k) == Lookup(doc.fields, k))
      && (Lookup(doc.fields, "baseCommand").Some? && Lookup(doc.fields, "baseCommand").value.JString? ==>
           var command := Lookup(doc.fields, "baseCommand").value.s;
           var t := LStrip(command);
           Lookup(r.fields, "baseCommand") == Some(JString(
             if FilesToken <= t then command[..|command| - |t|] + filesDir + t[|FilesToken|..] else command)))
      && (Lookup(doc.fields, "arguments").Some? && Lookup(doc.fields, "arguments").value.JArray? ==>
           var args := Lookup(doc.fields, "arguments").value.items;
           ReplacedArguments(filesDir, args).Ok? && Lookup(r.fields, "arguments") == Some(JArray(ReplacedArguments(filesDir, args).value)))
  {
    var f1 := WithBaseCommand(filesDir, doc.fields).value;
    WithBaseCommandFields(filesDir, doc.fields);
    WithArgumentsFields(filesDir, f1);
    assert Lookup(f1, "arguments") == Lookup(doc.fields, "arguments");
  }

  /** An argument list is refused only for an element that is not a
      string. */
  lemma {:induction false} ReplacedArgumentsError(filesDir: string, args: seq<Json>)
    ensures ReplacedArguments(filesDir, args).Err? ==> ReplacedArguments(filesDir, args).error == WrongType
    decreases |args|
  {
    if args != [] && args[0].JString? {
      ReplacedArgumentsError(filesDir, args[1..]);
    }
  }

  /** A step document is refused only for a wrong type or for arguments
      that are not a list. */
  lemma ApiStepErrors(filesDir: string, doc: Json)
    ensures TranslatedApiStep(filesDir, doc).Err? ==> TranslatedApiStep(filesDir, doc).error in {WrongType, ArgumentsNotList}
  {
    if doc.JObject? && WithBaseCommand(filesDir, doc.fields).Ok? {
      var f1 := WithBaseCommand(filesDir, doc.fields).value;
      var arguments := Lookup(f1, "arguments");
      if arguments.Some? && arguments.value.JArray? {
        ReplacedArgumentsError(filesDir, arguments.value.items);
      }
    }
  }

  /* ---------------- install ---------------- */

  /** A file found by the walk over a project's local `steps/` directory:
      its directory relative to `steps/` in normal form (`rel_this_dir`,
      with `.` for `steps/` itself given as the empty string, so that the
      step lands directly in the remote `steps/`), its name, and, for a
      `.cwl` file, the parsed document. */
  datatype LocalStep = LocalStep(dir: string, name: string, doc: Json)

  /** A project directory of the local API: its name, the tree under its
      `files/` (relative path to content) if there is one, the files of
      its `steps/` in walk order, and its `install.sh` if there is one. */
  datatype LocalProject = LocalProject(
    name: string,
    files: Option<map<string, Content>>,
    steps: seq<LocalStep>,
    installScript: Option<seq<byte>>)

  /** `filename.endswith('.cwl')`. */
  predicate IsCwl(name: string) {
    |name| >= 4 && name[|name| - 4..] == ".cwl"
  }

  function StepsRoot(projectDir: string): string {
    JoinPath(projectDir, "steps")
  }

  /** `remote_steps_dir / str(rel_this_dir)`. */
  function StepDir(projectDir: string, dir: string): string {
    JoinPath(StepsRoot(projectDir), dir)
  }

  function StepPath(projectDir: string, s: LocalStep): string {
    JoinPath(StepDir(projectDir, s.dir), s.name)
  }

  function ScriptPath(projectDir: string): string {
    JoinPath(projectDir, "install.sh")
  }

  /** Where the staged steps go and what stopped them, if anything. */
  datatype StagedSteps = StagedSteps(entries: map<string, Content>, failure: Option<Error>)

  /** `_stage_api_steps`: each `.cwl` file, translated, is written as JSON
      into its directory under the remote `steps/`; other files are passed
      over; a step that cannot be translated stops the staging there. */
  function StagedApiSteps(entries: map<string, Content>, projectDir: string, steps: seq<LocalStep>): StagedSteps
    decreases |steps|
  {
    if steps == [] then StagedSteps(entries, None)
    else if !IsCwl(steps[0].name) then StagedApiSteps(entries, projectDir, steps[1..])
    else
      match TranslatedApiStep(FilesDir(projectDir), steps[0].doc)
      case Err(e) => StagedSteps(entries, Some(e))
      case Ok(doc) =>
        var dir := StepDir(projectDir, steps[0].dir);
        StagedApiSteps(WithDir(entries, dir)[JoinPath(dir, steps[0].name) := JsonText(doc)], projectDir, steps[1..])
  }

  lemma JoinPathPrefix(root: string, dir: string, name: string)
    requires root <= dir
    ensures root <= JoinPath(dir, name)
  {
    assert JoinPath(dir, name)[..|dir|] == dir;
    assert JoinPath(dir, name)[..|root|] == dir[..|root|];
  }

  /** A step's directory and file both lie under the project's `steps`. */
  lemma StepPathsUnderRoot(projectDir: string, s: LocalStep)
    ensures StepsRoot(projectDir) <= StepDir(projectDir, s.dir)
    ensures StepsRoot(projectDir) <= StepPath(projectDir, s)
  {
    JoinPathPrefix(StepsRoot(projectDir), StepsRoot(projectDir), s.dir);
    JoinPathPrefix(StepsRoot(projectDir), StepDir(projectDir, s.dir), s.name);
  }

  /** Staging the steps leaves every path outside `steps` as it was,
      present or absent. */
  lemma {:induction false} StagedApiStepsOutside(entries: map<string, Content>, projectDir: string, steps: seq<LocalStep>, p: string)
    requires !(StepsRoot(projectDir) <= p)
    ensures var r := StagedApiSteps(entries, projectDir, steps).entries;
      (p in r <==> p in entries) && (p in entries ==> r[p] == entries[p])
    decreases |steps|
  {
    if steps != [] {
      if IsCwl(steps[0].name) && TranslatedApiStep(FilesDir(projectDir), steps[0].doc).Ok? {
        var doc := TranslatedApiStep(FilesDir(projectDir), steps[0].doc).value;
        var dir := StepDir(projectDir, steps[0].dir);
        StepPathsUnderRoot(projectDir, steps[0]);
        StagedApiStepsOutside(WithDir(entries, dir)[JoinPath(dir, steps[0].name) := JsonText(doc)], projectDir, steps[1..], p);
      } else if !IsCwl(steps[0].name) {
        StagedApiStepsOutside(entries, projectDir, steps[1..], p);
      }
    }
  }

  /** An entry that no later `.cwl` step writes stays as it is. */
  lemma {:induction false} StagedApiStepsKeep(entries: map<string, Content>, projectDir: string, steps: seq<LocalStep>, p: string)
    requires p in entries
    requires forall j :: 0 <= j < |steps| && IsCwl(steps[j].name) ==> StepPath(projectDir, steps[j]) != p
    ensures var r := StagedApiSteps(entries, projectDir, steps).entries;
      p in r && r[p] == entries[p]
    decreases |steps|
  {
    if steps != [] {
      if IsCwl(steps[0].name) && TranslatedApiStep(FilesDir(projectDir), steps[0].doc).Ok? {
        var doc := TranslatedApiStep(FilesDir(projectDir), steps[0].doc).value;
        var dir := StepDir(projectDir, steps[0].dir);
        StagedApiStepsKeep(WithDir(entries, dir)[JoinPath(dir, steps[0].name) := JsonText(doc)], projectDir, steps[1..], p);
      } else if !IsCwl(steps[0].name) {
        StagedApiStepsKeep(entries, projectDir, steps[1..], p);
      }
    }
  }

  /** Only `.cwl` files and their directories are written: a path that was
      absent, and that is neither the file nor the directory of a `.cwl`
      step, is still absent afterwards, whatever else the walk found. */
  lemma {:induction false} StagedApiStepsOnly(entries: map<string, Content>, projectDir: string, steps: seq<LocalStep>, p: string)
    requires p !in entries
    requires forall j :: 0 <= j < |steps| && IsCwl(steps[j].name) ==>
      p != StepPath(projectDir, steps[j]) && p != StepDir(projectDir, steps[j].dir)
    ensures p !in StagedApiSteps(entries, projectDir, steps).entries
    decreases |steps|
  {
    if steps != [] {
      if IsCwl(steps[0].name) && TranslatedApiStep(FilesDir(projectDir), steps[0].doc).Ok? {
        var doc := TranslatedApiStep(FilesDir(projectDir), steps[0].doc).value;
        var dir := StepDir(projectDir, steps[0].dir);
        StagedApiStepsOnly(WithDir(entries, dir)[JoinPath(dir, steps[0].name) := JsonText(doc)], projectDir, steps[1..], p);
      } else if !IsCwl(steps[0].name) {
        StagedApiStepsOnly(entries, projectDir, steps[1..], p);
      }
    }
  }

  /** When the staging succeeds, a `.cwl` step that no later step
      overwrites is found at `steps/<dir>/<name>` as its translated
      document. */
  lemma {:induction false} StagedApiStepsLand(entries: map<string, Content>, projectDir: string, steps: seq<LocalStep>, i: nat)
    requires StagedApiSteps(entries, projectDir, steps).failure.None?
    requires i < |steps| && IsCwl(steps[i].name)
    requires forall j :: i < j < |steps| && IsCwl(steps[j].name) ==> StepPath(projectDir, steps[j]) != StepPath(projectDir, steps[i])
    ensures TranslatedApiStep(FilesDir(projectDir), steps[i].doc).Ok?
    ensures var r := StagedApiSteps(entries, projectDir, steps).entries;
      StepPath(projectDir, steps[i]) in r
      && r[StepPath(projectDir, steps[i])] == JsonText(TranslatedApiStep(FilesDir(projectDir), steps[i].doc).value)
    decreases |steps|
  {
    var next := entries;
    if IsCwl(steps[0].name) {
      var doc := TranslatedApiStep(FilesDir(projectDir), steps[0].doc).value;
      var dir := StepDir(projectDir, steps[0].dir);
      next := WithDir(entries, dir)[JoinPath(dir, steps[0].name) := JsonText(doc)];
    }
    assert StagedApiSteps(entries, projectDir, steps) == StagedApiSteps(next, projectDir, steps[1..]);
    if i == 0 {
      forall j | 0 <= j < |steps[1..]| && IsCwl(steps[1..][j].name)
        ensures StepPath(projectDir, steps[1..][j]) != StepPath(projectDir, steps[0])
      {
        assert steps[1..][j] == steps[j + 1];
      }
      StagedApiStepsKeep(next, projectDir, steps[1..], StepPath(projectDir, steps[0]));
    } else {
      assert steps[1..][i - 1] == steps[i];
      forall j | i - 1 < j < |steps[1..]| && IsCwl(steps[1..][j].name)
        ensures StepPath(projectDir, steps[1..][j]) != StepPath(projectDir, steps[1..][i - 1])
      {
        assert steps[1..][j] == steps[j + 1];
      }
      StagedApiStepsLand(next, projectDir, steps[1..], i - 1);
    }
  }

  /** `_stage_api_files`: the local `files/` tree, when there is one, is
      copied over the remote `files`. */
  function WithFiles(entries: map<string, Content>, projectDir: string, files: Option<map<string, Content>>): map<string, Content> {
    if files.Some? then CopiedTree(entries, FilesDir(projectDir), files.value) else entries
  }

  /** `_stage_install_script`: the local `install.sh`, when there is one,
      is copied to the project directory. */
  function WithScript(entries: map<string, Content>, projectDir: string, script: Option<seq<byte>>): map<string, Content> {
    if script.Some? then entries[ScriptPath(projectDir) := Bytes(script.value)] else entries
  }

  /** The job `_run_install_script` submits: the script, with the files
      directory as its argument and as `CERISE_API_FILES`. */
  function InstallJob(projectDir: string): JobDescription {
    JobDescription(ScriptPath(projectDir), [FilesDir(projectDir)], [("CERISE_API_FILES", FilesDir(projectDir))])
  }

  /** The remote entries, the jobs submitted, and what stopped the
      installation, if anything. */
  datatype Installation = Installation(entries: map<string, Content>, submitted: seq<JobDescription>, failure: Option<Error>)

  /** A project's entries after its directory, its files and its steps
      are staged. */
  function StagedProject(apiDir: string, entries: map<string, Content>, p: LocalProject): StagedSteps {
    var projectDir := JoinPath(apiDir, p.name);
    StagedApiSteps(WithFiles(WithDir(entries, projectDir), projectDir, p.files), projectDir, p.steps)
  }

  /** The body of the loop in `install` for one project directory. The
      script runs when the remote project has an `install.sh`, whether
      staged now or left there before. */
  function InstalledProject(apiDir: string, exitCodeOf: JobDescription -> int, entries: map<string, Content>, p: LocalProject): Installation {
    var projectDir := JoinPath(apiDir, p.name);
    var staged := StagedProject(apiDir, entries, p);
    if staged.failure.Some? then Installation(staged.entries, [], staged.failure)
    else
      var withScript := WithScript(staged.entries, projectDir, p.installScript);
      if ScriptPath(projectDir) !in withScript then Installation(withScript, [], None)
      else
        var job := InstallJob(projectDir);
        Installation(withScript, [job], if exitCodeOf(job) != 0 then Some(InstallScriptFailed(exitCodeOf(job))) else None)
  }

  /** `submitted` jobs ran before `inst`. */
  function After(submitted: seq<JobDescription>, inst: Installation): Installation {
    Installation(inst.entries, submitted + inst.submitted, inst.failure)
  }

  lemma AfterTwice(a: seq<JobDescription>, b: seq<JobDescription>, inst: Installation)
    ensures After(a, After(b, inst)) == After(a + b, inst)
  {
    assert a + (b + inst.submitted) == (a + b) + inst.submitted;
  }

  /** `install(local_api_dir)` over the local project directories in the
      order `iterdir` gives them; a failure stops it. */
  function Installed(apiDir: string, exitCodeOf: JobDescription -> int, entries: map<string, Content>, projects: seq<LocalProject>): Installation
    decreases |projects|
  {
    if projects == [] then Installation(entries, [], None)
    else
      var first := InstalledProject(apiDir, exitCodeOf, entries, projects[0]);
      if first.failure.Some? then first
      else After(first.submitted, Installed(apiDir, exitCodeOf, first.entries, projects[1..]))
  }

  lemma InstalledFrom(apiDir: string, exitCodeOf: JobDescription -> int, entries: map<string, Content>, projects: seq<LocalProject>, i: nat)
    requires i < |projects|
    ensures var first := InstalledProject(apiDir, exitCodeOf, entries, projects[i]);
      Installed(apiDir, exitCodeOf, entries, projects[i..]) ==
        if first.failure.Some? then first else After(first.submitted, Installed(apiDir, exitCodeOf, first.entries, projects[i + 1..]))
  {
    assert projects[i..][0] == projects[i];
    assert projects[i..][1..] == projects[i + 1..];
  }

  /** One turn of the loop of `install`: a failing project ends the
      installation, any other one moves its jobs into the done part. */
  lemma InstalledTurn(apiDir: string, exitCodeOf: JobDescription -> int, entries0: map<string, Content>,
                      projects: seq<LocalProject>, i: nat, done: seq<JobDescription>, entries: map<string, Content>)
    requires i < |projects|
    requires Installed(apiDir, exitCodeOf, entries0, projects) == After(done, Installed(apiDir, exitCodeOf, entries, projects[i..]))
    ensures var first := InstalledProject(apiDir, exitCodeOf, entries, projects[i]);
      && (first.failure.Some? ==> Installed(apiDir, exitCodeOf, entries0, projects) == After(done, first))
      && (first.failure.None? ==>
            Installed(apiDir, exitCodeOf, entries0, projects) ==
            After(done + first.submitted, Installed(apiDir, exitCodeOf, first.entries, projects[i + 1..])))
  {
    InstalledFrom(apiDir, exitCodeOf, entries, projects, i);
    var first := InstalledProject(apiDir, exitCodeOf, entries, projects[i]);
    AfterTwice(done, first.submitted, Installed(apiDir, exitCodeOf, first.entries, projects[i + 1..]));
  }

  /** Staging steps fails only as a step document is refused. */
  lemma {:induction false} StagedApiStepsFailure(entries: map<string, Content>, projectDir: string, steps: seq<LocalStep>)
    ensures StagedApiSteps(entries, projectDir, steps).failure.Some? ==>
      StagedApiSteps(entries, projectDir, steps).failure.value in {WrongType, ArgumentsNotList}
    decreases |steps|
  {
    if steps != [] {
      if !IsCwl(steps[0].name) {
        StagedApiStepsFailure(entries, projectDir, steps[1..]);
      } else {
        ApiStepErrors(FilesDir(projectDir), steps[0].doc);
        var t := TranslatedApiStep(FilesDir(projectDir), steps[0].doc);
        if t.Ok? {
          var dir := StepDir(projectDir, steps[0].dir);
          StagedApiStepsFailure(WithDir(entries, dir)[JoinPath(dir, steps[0].name) := JsonText(t.value)], projectDir, steps[1..]);
        }
      }
    }
  }

  /** One project submits at most its install job, and fails on a script
      exactly when that job exits nonzero. */
  lemma InstalledProjectJobs(apiDir: string, exitCodeOf: JobDescription -> int, entries: map<string, Content>, p: LocalProject)
    ensures var inst := InstalledProject(apiDir, exitCodeOf, entries, p);
      && (inst.submitted == [] || inst.submitted == [InstallJob(JoinPath(apiDir, p.name))])
      && (inst.failure.Some? && inst.failure.value.InstallScriptFailed? <==>
            inst.submitted != [] && exitCodeOf(inst.submitted[0]) != 0)
      && (inst.failure.Some? && inst.failure.value.InstallScriptFailed? ==> inst.failure.value.exitCode == exitCodeOf(inst.submitted[0]))
  {
    var projectDir := JoinPath(apiDir, p.name);
    StagedApiStepsFailure(WithFiles(WithDir(entries, projectDir), projectDir, p.files), projectDir, p.steps);
  }

  /** A finished installation ran every install script it submitted to a
      zero exit code. */
  lemma {:induction false} InstalledScriptsSucceeded(apiDir: string, exitCodeOf: JobDescription -> int, entries: map<string, Content>, projects: seq<LocalProject>)
    ensures var inst := Installed(apiDir, exitCodeOf, entries, projects);
      inst.failure.None? ==> forall j :: 0 <= j < |inst.submitted| ==> exitCodeOf(inst.submitted[j]) == 0
    decreases |projects|
  {
    if projects != [] {
      var first := InstalledProject(apiDir, exitCodeOf, entries, projects[0]);
      InstalledProjectJobs(apiDir, exitCodeOf, entries, projects[0]);
      if first.failure.None? {
        InstalledScriptsSucceeded(apiDir, exitCodeOf, first.entries, projects[1..]);
        var rest := Installed(apiDir, exitCodeOf, first.entries, projects[1..]);
        if first.submitted == [] {
          assert first.submitted + rest.submitted == rest.submitted;
        }
      }
    }
  }

  /** A failed install script is the last job `inst` submitted, and it
      exited with the code the failure reports. */
  predicate StoppedAtFailedScript(exitCodeOf: JobDescription -> int, inst: Installation) {
    inst.failure.Some? && inst.failure.value.InstallScriptFailed? ==>
      |inst.submitted| > 0 && exitCodeOf(inst.submitted[|inst.submitted| - 1]) == inst.failure.value.exitCode != 0
  }

  lemma StoppedAfter(exitCodeOf: JobDescription -> int, done: seq<JobDescription>, inst: Installation)
    requires StoppedAtFailedScript(exitCodeOf, inst)
    ensures StoppedAtFailedScript(exitCodeOf, After(done, inst))
  {
    var all := done + inst.submitted;
    if inst.failure.Some? && inst.failure.value.InstallScriptFailed? {
      assert all[|all| - 1] == inst.submitted[|inst.submitted| - 1];
    }
  }

  /** A failed install script is the last job submitted: the failure
      ends the installation. */
  lemma {:induction false} InstallStopsAtFailedScript(apiDir: string, exitCodeOf: JobDescription -> int, entries: map<string, Content>, projects: seq<LocalProject>)
    ensures StoppedAtFailedScript(exitCodeOf, Installed(apiDir, exitCodeOf, entries, projects))
    decreases |projects|
  {
    if projects != [] {
      var first := InstalledProject(apiDir, exitCodeOf, entries, projects[0]);
      InstalledProjectJobs(apiDir, exitCodeOf, entries, projects[0]);
      if first.failure.None? {
        InstallStopsAtFailedScript(apiDir, exitCodeOf, first.entries, projects[1..]);
        StoppedAfter(exitCodeOf, first.submitted, Installed(apiDir, exitCodeOf, first.entries, projects[1..]));
      }
    }
  }

  /** Every job in `jobs` but the last exited with zero. */
  predicate ZeroBeforeLast(exitCodeOf: JobDescription -> int, jobs: seq<JobDescription>) {
    forall j :: 0 <= j < |jobs| - 1 ==> exitCodeOf(jobs[j]) == 0
  }

  lemma ZeroBeforeLastAfter(exitCodeOf: JobDescription -> int, done: seq<JobDescription>, jobs: seq<JobDescription>)
    requires |done| <= 1 && (done != [] ==> exitCodeOf(done[0]) == 0)
    requires ZeroBeforeLast(exitCodeOf, jobs)
    ensures ZeroBeforeLast(exitCodeOf, done + jobs)
  {
    if done == [] {
      assert done + jobs == jobs;
    } else {
      assert forall j :: 0 < j < |done + jobs| ==> (done + jobs)[j] == jobs[j - 1];
    }
  }

  /** Every install script submitted before the last one exited with
      zero. */
  lemma {:induction false} InstallScriptsBeforeLast(apiDir: string, exitCodeOf: JobDescription -> int, entries: map<string, Content>, projects: seq<LocalProject>)
    ensures ZeroBeforeLast(exitCodeOf, Installed(apiDir, exitCodeOf, entries, projects).submitted)
    decreases |projects|
  {
    if projects != [] {
      var first := InstalledProject(apiDir, exitCodeOf, entries, projects[0]);
      InstalledProjectJobs(apiDir, exitCodeOf, entries, projects[0]);
      if first.failure.None? {
        InstallScriptsBeforeLast(apiDir, exitCodeOf, first.entries, projects[1..]);
        ZeroBeforeLastAfter(exitCodeOf, first.submitted, Installed(apiDir, exitCodeOf, first.entries, projects[1..]).submitted);
      }
    }
  }

  lemma StringsDifferAt(a: string, b: string, i: nat)
    requires i < |a| && i < |b| && a[i] != b[i]
    ensures !(a <= b) && a != b
  {
  }

  /** The project directory, the files tree and the install script all lie
      outside `steps`, and apart from one another. */
  lemma ProjectPathsApart(projectDir: string, q: string)
    ensures !(StepsRoot(projectDir) <= projectDir)
    ensures !(StepsRoot(projectDir) <= ScriptPath(projectDir))
    ensures !(StepsRoot(projectDir) <= FilesDir(projectDir) + "/" + q)
    ensures ScriptPath(projectDir) != FilesDir(projectDir) + "/" + q
    ensures !Under(ScriptPath(projectDir), FilesDir(projectDir)) && !Under(projectDir, FilesDir(projectDir))
    ensures ScriptPath(projectDir) != projectDir
  {
    var n := |projectDir| + 1;
    StringsDifferAt(StepsRoot(projectDir), ScriptPath(projectDir), n);
    StringsDifferAt(StepsRoot(projectDir), FilesDir(projectDir) + "/" + q, n);
    StringsDifferAt(ScriptPath(projectDir), FilesDir(projectDir) + "/" + q, n);
    StringsDifferAt(FilesDir(projectDir) + "/", ScriptPath(projectDir), n);
    StringsDifferAt(FilesDir(projectDir), ScriptPath(projectDir), n);
  }

  /** The local `files/` tree is found under the project's `files`,
      whatever becomes of the steps and the script. */
  lemma InstalledProjectFiles(apiDir: string, exitCodeOf: JobDescription -> int, entries: map<string, Content>, p: LocalProject, q: string)
    requires p.files.Some? && q in p.files.value
    ensures var path := FilesDir(JoinPath(apiDir, p.name)) + "/" + q;
      var inst := InstalledProject(apiDir, exitCodeOf, entries, p);
      path in inst.entries && inst.entries[path] == p.files.value[q]
  {
    var projectDir := JoinPath(apiDir, p.name);
    var e1 := WithFiles(WithDir(entries, projectDir), projectDir, p.files);
    ProjectPathsApart(projectDir, q);
    StagedApiStepsOutside(e1, projectDir, p.steps, FilesDir(projectDir) + "/" + q);
  }

  /** When the steps stage, a `.cwl` step that no later step overwrites is
      found, translated, at `steps/<dir>/<name>`. */
  lemma InstalledProjectStep(apiDir: string, exitCodeOf: JobDescription -> int, entries: map<string, Content>, p: LocalProject, i: nat)
    requires StagedProject(apiDir, entries, p).failure.None?
    requires i < |p.steps| && IsCwl(p.steps[i].name)
    requires forall j :: i < j < |p.steps| && IsCwl(p.steps[j].name) ==>
      StepPath(JoinPath(apiDir, p.name), p.steps[j]) != StepPath(JoinPath(apiDir, p.name), p.steps[i])
    ensures TranslatedApiStep(FilesDir(JoinPath(apiDir, p.name)), p.steps[i].doc).Ok?
    ensures var projectDir := JoinPath(apiDir, p.name);
      var inst := InstalledProject(apiDir, exitCodeOf, entries, p);
      && StepPath(projectDir, p.steps[i]) in inst.entries
      && inst.entries[StepPath(projectDir, p.steps[i])] == JsonText(TranslatedApiStep(FilesDir(projectDir), p.steps[i].doc).value)
  {
    var projectDir := JoinPath(apiDir, p.name);
    var e1 := WithFiles(WithDir(entries, projectDir), projectDir, p.files);
    StagedApiStepsLand(e1, projectDir, p.steps, i);
    StepPathsUnderRoot(projectDir, p.steps[i]);
    ProjectPathsApart(projectDir, "");
  }

  /** Nothing but the `.cwl` steps appears under a project's `steps`: a
      path there that was absent, and that is neither the file nor the
      directory of a `.cwl` step, is absent after the project is
      installed, whether it succeeds or fails. */
  lemma InstalledProjectOnly(apiDir: string, exitCodeOf: JobDescription -> int, entries: map<string, Content>, p: LocalProject, q: string)
    requires StepsRoot(JoinPath(apiDir, p.name)) <= q && q !in entries
    requires forall j :: 0 <= j < |p.steps| && IsCwl(p.steps[j].name) ==>
      q != StepPath(JoinPath(apiDir, p.name), p.steps[j]) && q != StepDir(JoinPath(apiDir, p.name), p.steps[j].dir)
    ensures q !in InstalledProject(apiDir, exitCodeOf, entries, p).entries
  {
    StagedProjectOnly(apiDir, entries, p, q);
    StepsPathApart(JoinPath(apiDir, p.name), q);
  }

  /** The same for the project staged up to its steps. */
  lemma StagedProjectOnly(apiDir: string, entries: map<string, Content>, p: LocalProject, q: string)
    requires StepsRoot(JoinPath(apiDir, p.name)) <= q && q !in entries
    requires forall j :: 0 <= j < |p.steps| && IsCwl(p.steps[j].name) ==>
      q != StepPath(JoinPath(apiDir, p.name), p.steps[j]) && q != StepDir(JoinPath(apiDir, p.name), p.steps[j].dir)
    ensures q !in StagedProject(apiDir, entries, p).entries
  {
    var projectDir := JoinPath(apiDir, p.name);
    StepsPathApart(projectDir, q);
    var e1 := WithFiles(WithDir(entries, projectDir), projectDir, p.files);
    if p.files.Some? {
      CopiedTreeOnly(WithDir(entries, projectDir), FilesDir(projectDir), p.files.value, q);
    }
    StagedApiStepsOnly(e1, projectDir, p.steps, q);
  }

  /** Copying a tree adds nothing outside its directory. */
  lemma CopiedTreeOnly(entries: map<string, Content>, dir: string, files: map<string, Content>, p: string)
    requires p !in entries && !Under(p, dir)
    ensures p !in CopiedTree(entries, dir, files)
  {
  }

  /** A path under a project's `steps` is neither the project directory,
      nor under its `files`, nor its `install.sh`. */
  lemma StepsPathApart(projectDir: string, q: string)
    requires StepsRoot(projectDir) <= q
    ensures q != projectDir && !Under(q, FilesDir(projectDir)) && q != ScriptPath(projectDir)
  {
    var n := |projectDir| + 1;
    assert q[n] == StepsRoot(projectDir)[n] == 's';
    assert FilesDir(projectDir)[n] == 'f' && ScriptPath(projectDir)[n] == 'i';
    StringsDifferAt(FilesDir(projectDir) + "/", q, n);
  }

  /** When the steps stage, the project directory is there, the local
      `install.sh` is copied, and the script is run when there is one,
      remote or local; the installation fails exactly when it exits
      nonzero. */
  lemma InstalledProjectScript(apiDir: string, exitCodeOf: JobDescription -> int, entries: map<string, Content>, p: LocalProject)
    requires StagedProject(apiDir, entries, p).failure.None?
    ensures var projectDir := JoinPath(apiDir, p.name);
      var inst := InstalledProject(apiDir, exitCodeOf, entries, p);
      && projectDir in inst.entries
      && (p.installScript.Some? ==> inst.entries[ScriptPath(projectDir)] == Bytes(p.installScript.value))
      && inst.submitted == (if p.installScript.Some? || ScriptPath(projectDir) in entries then [InstallJob(projectDir)] else [])
      && inst.failure == (if inst.submitted != [] && exitCodeOf(InstallJob(projectDir)) != 0
                          then Some(InstallScriptFailed(exitCodeOf(InstallJob(projectDir)))) else None)
  {
    var projectDir := JoinPath(apiDir, p.name);
    var e1 := WithFiles(WithDir(entries, projectDir), projectDir, p.files);
    ProjectPathsApart(projectDir, "");
    StagedApiStepsOutside(e1, projectDir, p.steps, projectDir);
    StagedApiStepsOutside(e1, projectDir, p.steps, ScriptPath(projectDir));
    assert ScriptPath(projectDir) in e1 <==> ScriptPath(projectDir) in entries;
  }

  /** Installing a single project whose one `.cwl` step translates puts
      the step at `steps/<dir>/<name>` of the project. */
  lemma InstalledSingleStep(apiDir: string, exitCodeOf: JobDescription -> int, entries: map<string, Content>, p: LocalProject)
    requires |p.steps| == 1 && IsCwl(p.steps[0].name)
    requires TranslatedApiStep(FilesDir(JoinPath(apiDir, p.name)), p.steps[0].doc).Ok?
    ensures StepPath(JoinPath(apiDir, p.name), p.steps[0]) in Installed(apiDir, exitCodeOf, entries, [p]).entries
  {
    var projectDir := JoinPath(apiDir, p.name);
    var step := p.steps[0];
    var e1 := WithFiles(WithDir(entries, projectDir), projectDir, p.files);
    var t := TranslatedApiStep(FilesDir(projectDir), step.doc).value;
    var dir := StepDir(projectDir, step.dir);
    assert p.steps[1..] == [];
    assert StagedApiSteps(e1, projectDir, p.steps) == StagedApiSteps(WithDir(e1, dir)[JoinPath(dir, step.name) := JsonText(t)], projectDir, []);
    InstalledProjectStep(apiDir, exitCodeOf, entries, p, 0);
    assert [p][1..] == [];
  }

  /** The project of the installation test: its step `test/wc.cwl` ends
      up at `<basedir> / 'api' / 'test' / 'steps' / 'test' / 'wc.cwl'`. */
  lemma InstalledTestStep(basedir: string, exitCodeOf: JobDescription -> int, entries: map<string, Content>,
                          files: Option<map<string, Content>>, doc: Json, script: Option<seq<byte>>)
    requires TranslatedApiStep(FilesDir(JoinPath(ApiDir(basedir), "test")), doc).Ok?
    ensures var project := LocalProject("test", files, [LocalStep("test", "wc.cwl", doc)], script);
      JoinPath(JoinPath(JoinPath(JoinPath(JoinPath(basedir, "api"), "test"), "steps"), "test"), "wc.cwl")
        in Installed(ApiDir(basedir), exitCodeOf, entries, [project]).entries
  {
    assert IsCwl("wc.cwl");
    InstalledSingleStep(ApiDir(basedir), exitCodeOf, entries, LocalProject("test", files, [LocalStep("test", "wc.cwl", doc)], script));
  }

  class RemoteApi {
    const basedir: string
    /** The remote user name, if the configuration gives one. */
    const username: Option<string>
    const fs: FileSystem
    const sched: Scheduler

    /** Makes `<basedir>/api` if it is missing. */
    constructor (basedir: string, username: Option<string>, fs: FileSystem, sched: Scheduler)
      modifies fs
      ensures this.basedir == basedir && this.username == username && this.fs == fs && this.sched == sched
      ensures fs.entries == WithDir(old(fs.entries), ApiDir(basedir))
    {
      this.basedir := basedir;
      this.username := username;
      this.fs := fs;
      this.sched := sched;
      new;
      fs.MakeDir(ApiDir(basedir));
    }

    /** `translate_workflow(workflow_content)` on the parsed document: the
        loop over the steps rewrites each step's `run` in place. */
    method TranslateWorkflow(workflow: Json) returns (r: Result<Json>)
      ensures r == TranslatedWorkflow(ApiDir(basedir), workflow)
    {
      var apiDir := ApiDir(basedir);
      var hasSteps :- HasMember(workflow, "steps");
      if !hasSteps {
        return Err(NoSteps);
      }
      var steps :- Field(workflow, "steps");
      if !steps.JObject? {
        return Err(WrongType);
      }
      var fields := steps.fields;
      var i := 0;
      PrependedNothing(TranslatedSteps(apiDir, steps.fields));
      while i < |fields|
        invariant i <= |fields| == |steps.fields|
        invariant fields[i..] == steps.fields[i..]
        invariant TranslatedSteps(apiDir, steps.fields) == Prepended(fields[..i], TranslatedSteps(apiDir, steps.fields[i..]))
      {
        var key, step := fields[i].0, fields[i].1;
        var run := Field(step, "run");
        if run.Err? {
          TranslatedStepsFrom(apiDir, steps.fields, i);
          return Err(run.error);
        }
        if !run.value.JString? {
          TranslatedStepsFrom(apiDir, steps.fields, i);
          return Err(InvalidStep);
        }
        var parts := Split(run.value.s, "/");
        var project := parts[0];
        var stepsDir := JoinPath(JoinPath(apiDir, project), "steps");
        var newStep := SetField(step, "run", JString(stepsDir + "/" + Join(parts, "/"))).value;
        TranslatedStepsTurn(apiDir, steps.fields, fields, i, newStep);
        fields := fields[i := (key, newStep)];
        i := i + 1;
      }
      assert steps.fields[i..] == [];
      assert fields[..i] + [] == fields;
      r := SetField(workflow, "steps", JObject(fields));
    }

    /** The `arguments` loop of `_translate_api_step`, building `newargs`. */
    method TranslateArguments(filesDir: string, args: seq<Json>) returns (r: Result<seq<Json>>)
      ensures r == ReplacedArguments(filesDir, args)
    {
      var newArgs := [];
      var i := 0;
      PrependedNothing(ReplacedArguments(filesDir, args));
      while i < |args|
        invariant i <= |args|
        invariant ReplacedArguments(filesDir, args) == Prepended(newArgs, ReplacedArguments(filesDir, args[i..]))
      {
        ReplacedArgumentsFrom(filesDir, args, i);
        var argument := args[i];
        if !argument.JString? {
          return Err(WrongType);
        }
        var replaced := JString(ReplaceAll(argument.s, FilesToken, filesDir));
        PrependedTwice(newArgs, [replaced], ReplacedArguments(filesDir, args[i + 1..]));
        newArgs := newArgs + [replaced];
        i := i + 1;
      }
      assert args[i..] == [];
      assert newArgs + [] == newArgs;
      r := Ok(newArgs);
    }

    /** `_translate_api_step(workflow_path, remote_project_dir)` on the
        parsed step document. */
    method TranslateApiStep(projectDir: string, doc: Json) returns (r: Result<Json>)
      ensures r == TranslatedApiStep(FilesDir(projectDir), doc)
    {
      var filesDir := FilesDir(projectDir);
      if !doc.JObject? {
        return Err(WrongType);
      }
      if GetOrNull(doc.fields, "class") != JString("CommandLineTool") {
        return Ok(doc);
      }
      var fields := doc.fields;
      var command := Lookup(fields, "baseCommand");
      if command.Some? {
        if !command.value.JString? {
          return Err(WrongType);
        }
        if FilesToken <= LStrip(command.value.s) {
          fields := Update(fields, "baseCommand", JString(ReplaceFirst(command.value.s, FilesToken, filesDir)));
        }
      }
      assert fields == WithBaseCommand(filesDir, doc.fields).value;
      var arguments := Lookup(fields, "arguments");
      if arguments.Some? {
        if !arguments.value.JArray? {
          return Err(ArgumentsNotList);
        }
        var newArgs := TranslateArguments(filesDir, arguments.value.items);
        if newArgs.Err? {
          return Err(newArgs.error);
        }
        fields := Update(fields, "arguments", JArray(newArgs.value));
      }
      assert WithArguments(filesDir, WithBaseCommand(filesDir, doc.fields).value) == Ok(fields);
      r := Ok(JObject(fields));
    }

    /** `_make_remote_project(name)`. */
    method MakeRemoteProject(name: string) returns (projectDir: string)
      modifies fs
      ensures projectDir == JoinPath(ApiDir(basedir), name)
      ensures fs.entries == WithDir(old(fs.entries), projectDir)
    {
      projectDir := JoinPath(ApiDir(basedir), name);
      fs.MakeDir(projectDir);
    }

    /** `_stage_api_files`: nothing to do without a local `files/`. */
    method StageApiFiles(projectDir: string, files: Option<map<string, Content>>)
      modifies fs
      ensures fs.entries == WithFiles(old(fs.entries), projectDir, files)
    {
      if files.None? {
        return;
      }
      fs.CopyTree(FilesDir(projectDir), files.value);
    }

    /** `_stage_api_steps` over the walk of the local `steps/`. */
    method StageApiSteps(projectDir: string, steps: seq<LocalStep>) returns (failure: Option<Error>)
      modifies fs
      ensures var staged := StagedApiSteps(old(fs.entries), projectDir, steps);
        fs.entries == staged.entries && failure == staged.failure
    {
      var i := 0;
      while i < |steps|
        invariant i <= |steps|
        invariant StagedApiSteps(old(fs.entries), projectDir, steps) == StagedApiSteps(fs.entries, projectDir, steps[i..])
      {
        var s := steps[i];
        assert steps[i..][0] == s && steps[i..][1..] == steps[i + 1..];
        if IsCwl(s.name) {
          var doc := TranslateApiStep(projectDir, s.doc);
          if doc.Err? {
            return Some(doc.error);
          }
          var dir := StepDir(projectDir, s.dir);
          fs.MakeDir(dir);
          fs.Write(JoinPath(dir, s.name), JsonText(doc.value));
        }
        i := i + 1;
      }
      return None;
    }

    /** `_stage_install_script`: nothing to do without a local
        `install.sh`. */
    method StageInstallScript(projectDir: string, script: Option<seq<byte>>)
      modifies fs
      ensures fs.entries == WithScript(old(fs.entries), projectDir, script)
    {
      if script.None? {
        return;
      }
      fs.Write(ScriptPath(projectDir), Bytes(script.value));
    }

    /** `_run_install_script`: runs the remote `install.sh` if there is one
        and fails on a nonzero exit code. */
    method RunInstallScript(projectDir: string) returns (failure: Option<Error>)
      modifies sched
      ensures ScriptPath(projectDir) !in fs.entries ==> sched.submitted == old(sched.submitted) && failure.None?
      ensures ScriptPath(projectDir) in fs.entries ==>
        var job := InstallJob(projectDir);
        && sched.submitted == old(sched.submitted) + [job]
        && failure == if sched.exitCodeOf(job) != 0 then Some(InstallScriptFailed(sched.exitCodeOf(job))) else None
    {
      var filesDir := FilesDir(projectDir);
      var installScript := ScriptPath(projectDir);
      if installScript !in fs.entries {
        return None;
      }
      var job := JobDescription(installScript, [filesDir], [("CERISE_API_FILES", filesDir)]);
      var exitCode := sched.SubmitAndWait(job);
      if exitCode != 0 {
        return Some(InstallScriptFailed(exitCode));
      }
      return None;
    }

    /** The body of the loop in `install` for one local project. */
    method InstallProject(p: LocalProject) returns (failure: Option<Error>)
      modifies fs, sched
      ensures var inst := InstalledProject(ApiDir(basedir), sched.exitCodeOf, old(fs.entries), p);
        fs.entries == inst.entries && sched.submitted == old(sched.submitted) + inst.submitted && failure == inst.failure
    {
      var projectDir := MakeRemoteProject(p.name);
      StageApiFiles(projectDir, p.files);
      failure := StageApiSteps(projectDir, p.steps);
      if failure.Some? {
        assert sched.submitted == old(sched.submitted) + [];
        return;
      }
      StageInstallScript(projectDir, p.installScript);
      failure := RunInstallScript(projectDir);
      assert ScriptPath(projectDir) !in fs.entries ==> sched.submitted == old(sched.submitted) + [];
    }

    /** `install(local_api_dir)`, over the local project directories. */
    method Install(projects: seq<LocalProject>) returns (failure: Option<Error>)
      modifies fs, sched
      ensures var inst := Installed(ApiDir(basedir), sched.exitCodeOf, old(fs.entries), projects);
        fs.entries == inst.entries && sched.submitted == old(sched.submitted) + inst.submitted && failure == inst.failure
    {
      var i := 0;
      ghost var done: seq<JobDescription> := [];
      assert After([], Installed(ApiDir(basedir), sched.exitCodeOf, fs.entries, projects)) == Installed(ApiDir(basedir), sched.exitCodeOf, fs.entries, projects);
      while i < |projects|
        invariant i <= |projects|
        invariant Installed(ApiDir(basedir), sched.exitCodeOf, old(fs.entries), projects) ==
          After(done, Installed(ApiDir(basedir), sched.exitCodeOf, fs.entries, projects[i..]))
        invariant sched.submitted == old(sched.submitted) + done
      {
        InstalledTurn(ApiDir(basedir), sched.exitCodeOf, old(fs.entries), projects, i, done, fs.entries);
        ghost var first := InstalledProject(ApiDir(basedir), sched.exitCodeOf, fs.entries, projects[i]);
        var f := InstallProject(projects[i]);
        if f.Some? {
          assert sched.submitted == old(sched.submitted) + (done + first.submitted);
          return f;
        }
        done := done + first.submitted;
        i := i + 1;
      }
      assert projects[i..] == [];
      assert done + [] == done;
      return None;
    }
  }
}
