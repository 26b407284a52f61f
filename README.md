# Cerise back end and job controller, modelled in Dafny

Cerise runs CWL workflows on a remote compute resource on behalf of REST
clients. This project models its core: the part of the back end that gets
a job ready for a remote CWL runner and reads back what the runner made,
and the front end's job cancellation. Each module follows one Python file.

- `Cwl` (cerise/back_end/cwl.py) inspects parsed CWL documents and
  bindings:
  - the process class;
  - the `ResourceRequirement` core count (CWL v1.0, CommandLineTool,
    section "ResourceRequirement");
  - the File objects of a binding and their `secondaryFiles` (CWL v1.0,
    section "File"), collected into `InputFile` trees;
  - the outcome a runner log announces.
- `InputFiles` (cerise/back_end/input_file.py) holds the `InputFile`
  record. It has the fifth field `index` that the callers pass
  (cwl.py:97) and read (remote_job_files.py:88). The constructor at
  input_file.py:2 takes four arguments; the callers' five are modelled.
- `StagedNames` and `Staging` hold the pure half of
  cerise/back_end/remote_job_files.py:
  - the staged file names;
  - the depth-first, counter-threaded staging of each input file and its
    secondary files;
  - the in-place rewriting of the input document's `location` fields.
- `RemoteJobFiles` holds the stateful half. The class `RemoteJobFiles`
  works on a remote `FileSystem` object and on `Job` records through
  `stage_job`, `destage_job_output`, `update_job` and `delete_job`.
- `RemoteApi` (cerise/back_end/remote_api.py) covers:
  - macro substitution in the runner location;
  - rewriting each workflow step's `run` to its installed path;
  - translating API step documents;
  - `install`: the per-project layout of `api/<project>/{files,steps,install.sh}`
    and the rule that a nonzero install script exit code stops the
    installation.
- `Controller` (cerise/front_end/controllers/default_controller.py) models:
  - the chain of six conditional `try_transition` calls that cancels a job;
  - deleting a job;
  - the output a job with no destaged output is reported with.
- `Json`, `Text`, `RemoteFs`, `Jobs` and `Wrappers` supply:
  - parsed JSON/YAML documents (objects are ordered key-value sequences,
    as Python dicts iterate);
  - the Python string operations used (`replace`, `split`/`join`,
    `lstrip`, `splitlines`, `str(n).zfill(2)`);
  - the remote file system as a map from path to content, and the
    install scheduler;
  - the job record and its lifecycle states;
  - `Option`, `Result` and the errors raised.

Python exceptions become `Err` values of one `Error` datatype. A failure
ends an operation where the Python code would raise. Remote writes made
before the failure stay, as they do on the remote side.

## Model

| member | source | states |
|---|---|---|
| Cwl.IsWorkflow | cerise/back_end/cwl.py:17-19 | a dict is a workflow exactly when its `class` is the string `Workflow`; a missing class is not; a non-dict has no `.get` and fails |
| Cwl.RequiredNumCores | cerise/back_end/cwl.py:31-47 | no `hints`, or a `hints` dict without `ResourceRequirement`, gives 0; `hints` that is neither null nor a dict (CWL's list form) and a `ResourceRequirement` that is not a dict raise, as `.get` does; otherwise `coresMin` when present whatever `coresMax` is, else `coresMax`, else 0 |
| Cwl.SecondaryEntries | cerise/back_end/cwl.py:60-72 | a resolved secondary file list is never longer than the list it came from |
| Cwl.SecondaryEntriesOk | cerise/back_end/cwl.py:61-71 | the list resolves exactly when every dict in it is a File with a `location` whose own secondary files resolve; non-dicts are skipped |
| Cwl.SecondaryEntriesNodes | cerise/back_end/cwl.py:61-67 | one node per dict, in input order, each unnamed, without index or content, with the location copied and its own secondaryFiles resolved recursively |
| Cwl.DirectoryRejected | cerise/back_end/cwl.py:68-69 | a Directory entry anywhere in the list makes the resolution fail |
| Cwl.DirectoryRaised | cerise/back_end/cwl.py:61-69 | when every dict before it resolves, a Directory entry raises the Directory error |
| Cwl.FilesFromBinding | cerise/back_end/cwl.py:87-100 | a None binding has no files; anything that is neither None nor a dict cannot be scanned |
| Cwl.FilesFromBindingSpec | cerise/back_end/cwl.py:87-100 | a dict binding resolves exactly when each of its File slots does, and then yields one node per slot, in key order and then position order |
| Cwl.BindingEntriesSpec | cerise/back_end/cwl.py:89-100 | the entries of a binding, one after the other, give exactly the nodes of their File slots |
| Cwl.EntrySpec | cerise/back_end/cwl.py:90-98 | a top-level File value gives one node named by its key without index; a list gives its File elements; other values give nothing |
| Cwl.ArrayFilesOk | cerise/back_end/cwl.py:93-98 | a list value resolves exactly when each of its File elements does |
| Cwl.ArrayFilesFromSlots | cerise/back_end/cwl.py:93-98 | each File element at position i gives a node named by the key with index i, in position order |
| Cwl.ArraySlotsApart | cerise/back_end/cwl.py:93-98 | the elements of one list value sit in slots with pairwise different indices |
| Cwl.FileSlotsApart | cerise/back_end/cwl.py:89-98 | with unique keys, any two File slots of a binding differ in name or in index, so none overlaps another |
| Cwl.SlotsAreAddressable | cerise/back_end/cwl.py:89-98 | every File slot found is at `binding[name]` or `binding[name][index]` |
| Cwl.PlainFileResolves | cerise/back_end/cwl.py:92 | a File with only a location resolves to a named node with that location and no secondary files |
| Cwl.ArrayExample | cerise/back_end/cwl.py:93-98 | a list of two Files gives two nodes with indices 0 and 1 |
| Cwl.BindingExample | cerise/back_end/cwl.py:87-100 | a File entry and a list entry give the File first, then the list elements |
| Cwl.CwltoolResult | cerise/back_end/cwl.py:115-124 | each outcome holds exactly when its marker is in the log and no marker of higher priority is: validation failure or permanentFail, then temporaryFail, then success, else system error |
| Cwl.FirstMatch | cerise/back_end/cwl.py:115-124 | a rule list picks the fallback or the outcome of a rule whose marker occurs |
| Cwl.CwltoolResultIsFirstMatch | cerise/back_end/cwl.py:115-124 | the classification is the first matching rule of the ordered list, with system error as the fallback |
| Cwl.CwltoolResultTerminal | cerise/back_end/cwl.py:115-124 | the outcome is always a terminal state, never Cancelled |
| InputFiles.InputFileFields | cerise/back_end/input_file.py:2-23 | the record stores name, location, content and secondary files (in order) as given, and `source` is unset; records are equal exactly when all fields are |
| StagedNames.Collapse | cerise/back_end/remote_job_files.py:277-278 | the substituted string has only characters from `[A-Za-z0-9_.-]` and is no longer than the original |
| StagedNames.CollapseAllowed | cerise/back_end/remote_job_files.py:277-278 | a string of allowed characters is left as it is |
| StagedNames.CollapseIdempotent | cerise/back_end/remote_job_files.py:277-278 | substituting twice is substituting once |
| StagedNames.CollapseAllowedPrefix | cerise/back_end/remote_job_files.py:277-278 | an allowed prefix is kept as it is, whatever follows it |
| StagedNames.CollapseRun | cerise/back_end/remote_job_files.py:277-278 | a maximal run of other characters becomes exactly one `_` |
| StagedNames.Shorten | cerise/back_end/remote_job_files.py:280-281 | up to 39 characters are kept; a longer string becomes its first 18 characters, `___` and its last 18, exactly 39 |
| StagedNames.CreateInputFilename | cerise/back_end/remote_job_files.py:270-283 | the name is the prefix, `_`, and at most 39 allowed characters |
| StagedNames.CreateInputFilenamePlain | cerise/back_end/remote_job_files.py:270-283 | a location of allowed characters, at most 39 long, is kept whole after the prefix and `_` |
| StagedNames.CreateInputFilenameSeparator | cerise/back_end/remote_job_files.py:272-278 | one `/`, `?`, `&` or `=` between two allowed parts becomes a single `_`; the substitution does this alone, since the four `replace` calls discard their results |
| StagedNames.CounterValue | cerise/back_end/remote_job_files.py:201-202 | `str(count).zfill(2)` is a string of digits whose value is `count` |
| StagedNames.StagedNamesDistinct | cerise/back_end/remote_job_files.py:201-203 | different counter values give different staged names, whatever the paths |
| Staging.StagedFileCopies | cerise/back_end/remote_job_files.py:201-220 | staging a file uses one counter value per file of its tree and returns `count` plus the tree's size; it copies the files in depth-first pre-order with consecutive counters, each file's `source` to the name made from its `location`; a file without a source fails after taking its counter |
| Staging.StagedSecondariesCopies | cerise/back_end/remote_job_files.py:215-218 | the secondary files are staged one after the other, continuing the counter |
| Staging.StagedElementSpec | cerise/back_end/remote_job_files.py:215-218 | the i-th secondary file rewrites the i-th entry of `secondaryFiles` and nothing else of the descriptor |
| Staging.StagedFileDesc | cerise/back_end/remote_job_files.py:212-213 | the descriptor's `location` becomes the staged path; keys other than `location` and `secondaryFiles` keep their values |
| Staging.StagedPathInjective | cerise/back_end/remote_job_files.py:209 | different staged names give different remote paths |
| Staging.TargetsDistinct | cerise/back_end/remote_job_files.py:201-209 | copies with different counters go to different remote paths |
| Staging.CopiesForDistinct | cerise/back_end/remote_job_files.py:201-203 | the copies of one staging have pairwise different counters |
| Staging.ApplyCopiesAt | cerise/back_end/remote_job_files.py:209-210 | after the copies, each staged path holds a copy of the file at its copy's `source` |
| Staging.ApplyCopiesOther | cerise/back_end/remote_job_files.py:209-210 | a path no copy targets is left as it was |
| Staging.WriteBackSlots | cerise/back_end/remote_job_files.py:88-93 | the rewritten descriptor lands in the input document at `inputs[name]` or `inputs[name][index]`; slots separate from it keep their values |
| Staging.StagedInputSpec | cerise/back_end/remote_job_files.py:87-93 | one turn of the input loop stages the file from its own descriptor, points that descriptor at the staged copy and leaves separate slots alone |
| Staging.JobStageSpec | cerise/back_end/remote_job_files.py:87-93 | the loop's turn counts the file tree, stays within its own slot and sets the location |
| Staging.StagedInputsCopies | cerise/back_end/remote_job_files.py:86-93 | the whole loop makes the copies of all trees in order, with counters from the start value on |
| Staging.StagedInputsOthers | cerise/back_end/remote_job_files.py:86-93 | slots separate from every input file are unchanged by the loop |
| Staging.FilesFromBindingSeparate | cerise/back_end/remote_job_files.py:86-93 | the input files found in a job's inputs sit in pairwise separate slots, so rewriting one leaves the others' descriptors alone |
| Staging.StagedInputsLocation | cerise/back_end/remote_job_files.py:86-93 | each input file's descriptor ends up pointing at the copy whose counter follows the trees of the files before it |
| Text.ReplaceAllIsJoinOfSplit | cerise/back_end/remote_api.py:85-89 | `str.replace` of every occurrence is splitting on the pattern and joining with the replacement |
| Text.JoinSplit | cerise/back_end/remote_api.py:112-115 | `sep.join(s.split(sep)) == s` |
| Text.LStrip | cerise/back_end/remote_api.py:167 | `lstrip` removes exactly the leading whitespace |
| Text.SplitLinesAppend | cerise/back_end/remote_job_files.py:178-179 | `splitlines` of a text ending in a line break followed by more text is the lines of both |
| Text.DecimalRoundTrip | cerise/back_end/remote_job_files.py:201-202 | `str(n)` reads back as `n` |
| RemoteJobFiles.AbsPath | cerise/back_end/remote_job_files.py:255-258 | `_abs_path(id, '')` is `<basedir>/jobs/<id>`; otherwise the relative path is appended after `/` |
| RemoteJobFiles.AbsPathUnder | cerise/back_end/remote_job_files.py:255-258 | every job path lies in its job directory |
| RemoteJobFiles.AbsPathInjective | cerise/back_end/remote_job_files.py:255-258 | different relative paths give different remote paths |
| RemoteJobFiles.JobDirsSeparate | cerise/back_end/remote_job_files.py:255-258 | paths of one job never lie in another job's directory |
| RemoteJobFiles.CopiesKeep | cerise/back_end/remote_job_files.py:77-97 | staged input copies never overwrite `name.txt`, `workflow.cwl` or `input.json` |
| RemoteJobFiles.StagedJobCopies | cerise/back_end/remote_job_files.py:86-93 | the counter ends at one more than the number of files staged, and the k-th file staged, depth first, had a `source`, which is copied to the name made from its `location` with counter k+1 |
| RemoteJobFiles.StagedJobLocation | cerise/back_end/remote_job_files.py:85-93 | `inputs[name][index]` (or `inputs[name]`) of each input file points at its staged copy under `<basedir>/jobs/<id>/work/` |
| RemoteJobFiles.StagedJobOthers | cerise/back_end/remote_job_files.py:85-93 | every other slot of the input document is unchanged |
| RemoteJobFiles.DestagedFile | cerise/back_end/remote_job_files.py:129-136 | an output file is accepted exactly when its location starts with `file://<work dir>/`; the location becomes the rest, `source` becomes the work dir joined with it and the other fields are kept; otherwise the error names the location and the prefix |
| RemoteJobFiles.DestagedFilesSpec | cerise/back_end/remote_job_files.py:125-137 | destaging succeeds exactly when every output file is accepted, and keeps their number and order |
| RemoteJobFiles.NewLines | cerise/back_end/remote_job_files.py:178-181 | the lines passed to `job.debug` are those of the new log at positions from the old log's line count on |
| RemoteJobFiles.NewLinesAppended | cerise/back_end/remote_job_files.py:178-181 | when the runner only appended to a log ending in a line break, the new lines are the lines appended |
| RemoteJobFiles.RemoteJobFiles.constructor | cerise/back_end/remote_job_files.py:51-52 | `<basedir>` and `<basedir>/jobs` exist afterwards; existing entries are kept |
| RemoteJobFiles.RemoteJobFiles.StageInputFile | cerise/back_end/remote_job_files.py:184-220 | the method computes the staging function and makes exactly its copies on the remote side |
| RemoteJobFiles.RemoteJobFiles.StageElement | cerise/back_end/remote_job_files.py:215-218 | staging the i-th secondary file into `secondaryFiles[i]`, as the staging function says |
| RemoteJobFiles.RemoteJobFiles.StageInputs | cerise/back_end/remote_job_files.py:85-93 | the loop over the input files, counter from 1, computes the loop function and makes its copies |
| RemoteJobFiles.RemoteJobFiles.StageJob | cerise/back_end/remote_job_files.py:54-106 | the job directory, `work`, `name.txt` and `workflow.cwl` are made and the workdir and workflow paths set; an unparsable input stops there; otherwise the staging copies are made and, when staging succeeds, `input.json` holds the rewritten input and the five remaining remote paths are set; a staging failure leaves those paths as they were; no other job field changes |
| RemoteJobFiles.RemoteJobFiles.PrepareJob | cerise/back_end/remote_job_files.py:67-82 | the job directories and the name and workflow files exist; the workdir and workflow paths are set |
| RemoteJobFiles.RemoteJobFiles.FinishJob | cerise/back_end/remote_job_files.py:95-106 | `input.json` holds the input document; the input, stdout, stderr, sysout and syserr paths are set |
| RemoteJobFiles.RemoteJobFiles.DestageJobOutput | cerise/back_end/remote_job_files.py:118-145 | empty runner output gives no files; otherwise the parsed output's files are destaged in order, or the first bad location fails |
| RemoteJobFiles.RemoteJobFiles.UpdateJob | cerise/back_end/remote_job_files.py:165-182 | non-empty stdout replaces `remote_output`; non-empty stderr replaces `remote_error`, and its lines from the old line count on go to `job.debug`; empty reads change nothing |
| RemoteJobFiles.RemoteJobFiles.DeleteJob | cerise/back_end/remote_job_files.py:154-156 | an existing job directory is removed with everything under it; otherwise nothing changes |
| RemoteJobFiles.DeleteJobEffect | cerise/back_end/remote_job_files.py:154-156 | after removal no path of the job is left, and every path of any other job is kept |
| RemoteApi.RunnerLocationSplit | cerise/back_end/remote_api.py:85-90 | every `$CERISE_API` becomes the API directory; every `$CERISE_USERNAME` becomes the user name only when one is configured |
| RemoteApi.RunnerLocationUnconfigured | cerise/back_end/remote_api.py:87-90 | with no user name configured, a location without `$CERISE_API` is left as it is, `$CERISE_USERNAME` tokens included |
| RemoteApi.RunnerLocationPlain | cerise/back_end/remote_api.py:85-90 | a location without macros is unchanged |
| RemoteApi.ProjectIsFirstSegment | cerise/back_end/remote_api.py:112-113 | the project is the part of `run` before its first `/` |
| RemoteApi.InstalledRunKeepsRun | cerise/back_end/remote_api.py:112-115 | the new `run` is `<api>/<project>/steps/` followed by the whole original `run` |
| RemoteApi.InstalledRunOf | cerise/back_end/remote_api.py:112-115 | `project/rest` becomes `<api>/project/steps/project/rest` |
| RemoteApi.HasMember | cerise/back_end/remote_api.py:107 | `in` on a dict tests its keys |
| RemoteApi.TranslatedStep | cerise/back_end/remote_api.py:110-115 | a step translates exactly when it is a dict whose `run` is a string |
| RemoteApi.TranslatedStepSpec | cerise/back_end/remote_api.py:109-115 | a non-dict step, a missing `run` and a non-string `run` each fail in their own way; a good step keeps its keys and other fields and gets the installed `run` |
| RemoteApi.TranslatedStepsSpec | cerise/back_end/remote_api.py:109-115 | all steps translate exactly when each does, and their number is kept |
| RemoteApi.TranslatedStepsInvalid | cerise/back_end/remote_api.py:110-111 | when every step has a `run`, the only failure is the invalid-step error |
| RemoteApi.TranslatedStepsAt | cerise/back_end/remote_api.py:109-115 | the i-th translated step has the i-th name and is the i-th step translated |
| RemoteApi.TranslatedWorkflowSpec | cerise/back_end/remote_api.py:106-116 | no `steps` is an error; the workflow translates exactly when `steps` is a dict of runnable steps; only `steps` changes |
| RemoteApi.BaseCommandReplaced | cerise/back_end/remote_api.py:167-169 | when the stripped command starts with `$CERISE_API_FILES`, only that first occurrence is replaced, leading whitespace kept |
| RemoteApi.ReplacedArgumentsSpec | cerise/back_end/remote_api.py:175-181 | the arguments translate exactly when all are strings; each then has every `$CERISE_API_FILES` replaced, length and order kept |
| RemoteApi.ReplacedArgumentsError | cerise/back_end/remote_api.py:178-179 | a non-string argument fails as a type error |
| RemoteApi.TranslatedApiStepAccepts | cerise/back_end/remote_api.py:163-182 | non-CommandLineTool documents are returned unchanged; a CommandLineTool translates exactly when its baseCommand is a string and its arguments a list of strings, when present; a non-list `arguments` is an error |
| RemoteApi.WithBaseCommandFields | cerise/back_end/remote_api.py:166-169 | only `baseCommand` can change, and only when its stripped form starts with the macro |
| RemoteApi.WithArgumentsFields | cerise/back_end/remote_api.py:171-181 | only `arguments` changes, to the replaced list |
| RemoteApi.TranslatedApiStepFields | cerise/back_end/remote_api.py:163-182 | a translated CommandLineTool keeps its keys, and every field but `baseCommand` and `arguments` |
| RemoteApi.ApiStepErrors | cerise/back_end/remote_api.py:163-182 | translating a step fails only as a type error or as arguments that are not a list |
| RemoteApi.StagedApiStepsOutside | cerise/back_end/remote_api.py:141-158 | staging steps writes only under `<project>/steps` |
| RemoteApi.StagedApiStepsKeep | cerise/back_end/remote_api.py:144-158 | an entry no `.cwl` step is written to stays |
| RemoteApi.StagedApiStepsOnly | cerise/back_end/remote_api.py:144-158 | only `.cwl` files and their directories are written: a path that was absent and is neither the file nor the directory of a `.cwl` step is still absent, so other files of the walk are never staged |
| RemoteApi.StagedApiStepsLand | cerise/back_end/remote_api.py:144-158 | a `.cwl` step no later step overwrites is at `steps/<dir>/<name>` as its translated document |
| RemoteApi.StagedApiStepsFailure | cerise/back_end/remote_api.py:146-148 | staging steps fails only with a step translation error: a type error or arguments that are not a list |
| RemoteApi.InstalledTurn | cerise/back_end/remote_api.py:64-71 | within the loop, a failing project ends the installation with the jobs done so far, and any other project adds its jobs to them |
| RemoteApi.InstalledFrom | cerise/back_end/remote_api.py:64-71 | installing from a project on installs it, stops on its failure, or goes on with the next |
| RemoteApi.InstalledProjectJobs | cerise/back_end/remote_api.py:215-229 | a project submits at most its install job, and fails on the script exactly when that job exits nonzero, with its exit code |
| RemoteApi.InstalledScriptsSucceeded | cerise/back_end/remote_api.py:64-71 | a finished installation ran every install script it submitted to a zero exit code |
| RemoteApi.InstallStopsAtFailedScript | cerise/back_end/remote_api.py:226-229 | a failed install script is the last job submitted, and its nonzero exit code is the one reported |
| RemoteApi.InstallScriptsBeforeLast | cerise/back_end/remote_api.py:64-71 | every install job before the last exited with zero |
| RemoteApi.InstalledProjectFiles | cerise/back_end/remote_api.py:184-195 | each file of the local `files/` tree is at `<project>/files/<path>` afterwards |
| RemoteApi.InstalledProjectStep | cerise/back_end/remote_api.py:141-158 | a `.cwl` step no later step overwrites ends up translated at `<project>/steps/<dir>/<name>` |
| RemoteApi.InstalledProjectOnly | cerise/back_end/remote_api.py:65-71 | after a project is installed, successfully or not, a path under its `steps` that was absent and is neither the file nor the directory of a `.cwl` step is still absent |
| RemoteApi.InstalledProjectScript | cerise/back_end/remote_api.py:197-230 | the project directory exists; a local `install.sh` is copied; the script runs exactly when there is one, local or already remote, with the files dir as argument and environment; it fails exactly on a nonzero exit code; missing `files/` or `install.sh` is no error |
| RemoteApi.InstalledSingleStep | cerise/back_end/remote_api.py:141-158 | a one-step project puts its step at `steps/<dir>/<name>` |
| RemoteApi.InstalledTestStep | cerise/back_end/test/test_remote_api.py:21 | the test project's `test/wc.cwl` is at `<basedir>/api/test/steps/test/wc.cwl` |
| RemoteApi.RemoteApi.constructor | cerise/back_end/remote_api.py:42-47 | `<basedir>/api` exists afterwards |
| RemoteApi.RemoteApi.TranslateWorkflow | cerise/back_end/remote_api.py:106-116 | the loop that rewrites each step's `run` in place computes the workflow translation |
| RemoteApi.RemoteApi.TranslateArguments | cerise/back_end/remote_api.py:175-181 | the loop building `newargs` computes the argument replacement |
| RemoteApi.RemoteApi.TranslateApiStep | cerise/back_end/remote_api.py:160-182 | the in-place translation of a step document computes the step translation |
| RemoteApi.RemoteApi.MakeRemoteProject | cerise/back_end/remote_api.py:127-129 | the project directory `<api>/<name>` exists afterwards and is returned |
| RemoteApi.RemoteApi.StageApiFiles | cerise/back_end/remote_api.py:184-195 | a local `files/` tree is copied over `<project>/files`; without one nothing changes |
| RemoteApi.RemoteApi.StageApiSteps | cerise/back_end/remote_api.py:141-158 | the loop over the step files writes exactly what the step staging function says |
| RemoteApi.RemoteApi.StageInstallScript | cerise/back_end/remote_api.py:197-213 | a local `install.sh` is copied to the project; without one nothing changes |
| RemoteApi.RemoteApi.RunInstallScript | cerise/back_end/remote_api.py:215-230 | with a remote `install.sh` the install job is submitted and a nonzero exit code is an error; without one nothing is submitted |
| RemoteApi.RemoteApi.InstallProject | cerise/back_end/remote_api.py:65-71 | one project is installed as the project installation function says |
| RemoteApi.RemoteApi.Install | cerise/back_end/remote_api.py:62-71 | the loop over the projects leaves the file system, the submitted jobs and the failure that the installation function gives |
| Jobs.Job.TryTransition | cerise/front_end/controllers/default_controller.py:48-53 | the state becomes `to` exactly when it was `from`, and the call says whether it did |
| Controller.NoneFires | cerise/front_end/controllers/default_controller.py:48-53 | a state no transition starts from passes the chain untouched |
| Controller.FirstSourceFires | cerise/front_end/controllers/default_controller.py:48-53 | when no target is a later source, exactly the first transition from the state fires and nothing else |
| Controller.ChainIdempotent | cerise/front_end/controllers/default_controller.py:48-53 | when no target is a source, trying the chain twice is trying it once |
| Controller.CancelChainShape | cerise/front_end/controllers/default_controller.py:48-53 | no transition of the cancel chain leads into a state any of them starts from |
| Controller.CancelChainUnrolled | cerise/front_end/controllers/default_controller.py:48-53 | the cancel chain is the six transitions tried in the source's order |
| Controller.CancelOutcome | cerise/front_end/controllers/default_controller.py:48-53 | SUBMITTED and FINISHED become CANCELLED; STAGING_IN, WAITING, RUNNING and STAGING_OUT go to their `_CR` states; every other state is unchanged |
| Controller.CancelSettles | cerise/front_end/controllers/default_controller.py:48-53 | after a cancel a job is terminal or has a cancel request pending |
| Controller.CancelFiresAtMostOnce | cerise/front_end/controllers/default_controller.py:48-53 | at most one transition fires, and one does exactly when the job is in one of the six source states |
| Controller.CancelIdempotent | cerise/front_end/controllers/default_controller.py:48-53 | cancelling twice is cancelling once |
| Controller.CancelJob | cerise/front_end/controllers/default_controller.py:48-53 | the six calls leave the cancelled state and count the transitions fired; no other job field changes |
| Controller.CancelJobById | cerise/front_end/controllers/default_controller.py:43-55 | a job the store lacks is the error `JobNotFound`, which `get_job` raises before the 404 check at lines 45-46 is reached; any other job is cancelled and its new state reported |
| Controller.DeleteJobById | cerise/front_end/controllers/default_controller.py:67-70 | the job is cancelled and marked `please_delete`; a missing job is the error `JobNotFound` raised by `get_job` inside the cancel |
| Controller.RestOutput | cerise/front_end/controllers/default_controller.py:15-18 | an empty `local_output` is reported as an empty object, whatever the parser would make of it; other output is parsed |

## Left out

- JSON and YAML text are not modelled. Documents arrive parsed as `Json`.
  - `json.loads` of the job's input and of the runner output is a parser parameter (`parse`).
  - `json.dumps` to a remote file is recorded as the document itself (`JsonText`).
- Floats are not part of `Json`.
- The remote file system maps paths to recorded content, not to bytes.
  - A staged copy holds `CopyOf(source)`, naming the file's `source`; its remote name comes from the file's `location`. Where `source` comes from for local inputs (fetching them) is not part of this model, and an input without one fails with `WrongType`.
  - A `cerulean.copy` of a tree is a given map of relative paths.
- Paths are joined as text (`JoinPath`): a right operand that is absolute, or has `.`, `..` or doubled `/` components, is not normalised as a path object would. So a destaged location `file://<work>//etc/x` gives the source `<work>//etc/x`, where a path object would give `/etc/x`. cerulean's path class is not part of this model.
- `mkdir(parents=True)` creates only the leaf directory here; the parents are not modelled.
- Permissions and modes (`0o700`, `0o750`, `chmod`) are not modelled.
- The busy-wait for the install script to appear (remote_api.py:209-210) is not modelled; the copy is immediate.
- Reading `stdout.txt` and `stderr.txt` is I/O. `update_job` gets their text as parameters.
- The scheduler's `submit` and `wait` are not modelled: an install job's exit code is a given function of the job.
- The local directory walks in `install` and `_stage_api_steps` are given as lists in walk order, and only directories are passed in as projects.
  - A project is a `LocalProject`.
  - Its step files are `LocalStep`s, each with its `rel_this_dir` as a string in normal form; `.`, a step directly in `steps/`, is given as the empty string.
- A job the store does not have is the error `JobNotFound`, which the store's `get_job` raises (the handlers of `get_job_by_id` and `get_job_log_by_id` catch it); in `cancel_job_by_id` and `delete_job_by_id` nothing catches it, so the `if not job: flask.abort(404)` test is never reached. How the web framework reports the escaping exception is not modelled.
- Reading the job from the job store, locking (`with self._job_store`) and concurrency are not modelled. Each operation works atomically on the `Job` object it is given.
- The job store's `try_transition` is not part of the source; it is modelled as "the state becomes `to` exactly when it is `from`".
- Logging is not modelled, except the lines `update_job` passes to `job.debug`.
- Flask, connexion, the log URL and `get_jobs`/`post_job`/`get_job_by_id` are not modelled.
  - Of `_internal_job_to_rest_job`, only the output is modelled.
  - `to_cwl_state_string` is not part of the source.
- Python exception kinds are collapsed:
  - KeyError, IndexError, TypeError and AttributeError become `KeyMissing`, `IndexOutOfRange` and `WrongType`.
  - The undefined name `filename` at remote_api.py:174 would raise a NameError while formatting the message; it is modelled as the `ArgumentsNotList` error the code means to raise.
- YAML anchors and aliases (one dict shared between two places) are not modelled. An in-place update touches only the place it is made.
- RemoteApi.InstalledProjectStep: it requires that the step staging succeeded and that no later step writes the same path.
  - It says nothing about a step overwritten by a later one.
  - Such a step ends up with the later content, as `StagedApiStepsKeep` and the function show.
