/** `RemoteJobFiles` of cerise/back_end/remote_job_files.py: the per-job
    directory `<basedir>/jobs/<job id>` on the remote resource, staging a
    job's workflow and input files into it, reading back what the runner
    wrote, and removing it. The staging methods are proved against the
    specification functions of module Staging. */
module RemoteJobFiles {
  import opened Wrappers
  import opened Json
  import opened Text
  import opened InputFiles
  import opened RemoteFs
  import opened Cwl
  import opened StagedNames
  import opened Staging
  import opened Jobs

  /** `<basedir>/jobs/<job id>`. */
  function JobDir(basedir: string, jobId: string): string {
    JoinPath(JoinPath(basedir, "jobs"), jobId)
  }

  /** `_abs_path(job_id, rel_path)`: the job directory itself for an empty
      relative path, else the relative path inside it. */
  function AbsPath(basedir: string, jobId: string, rel: string): (p: string)
    ensures rel == [] ==> p == JobDir(basedir, jobId)
    ensures rel != [] ==> p == JobDir(basedir, jobId) + "/" + rel
  {
    JoinPath(JobDir(basedir, jobId), rel)
  }

  /** A job's files lie in its directory. */
  lemma AbsPathUnder(basedir: string, jobId: string, rel: string)
    ensures Under(AbsPath(basedir, jobId, rel), JobDir(basedir, jobId))
  {
    var dir := JobDir(basedir, jobId);
    if rel != [] {
      PrefixCancel(dir + "/");
      assert AbsPath(basedir, jobId, rel) == (dir + "/") + rel;
    }
  }

  /** Different relative paths name different files of a job. */
  lemma AbsPathInjective(basedir: string, jobId: string, rel1: string, rel2: string)
    requires rel1 != [] && rel2 != [] && rel1 != rel2
    ensures AbsPath(basedir, jobId, rel1) != AbsPath(basedir, jobId, rel2)
  {
    var w := JobDir(basedir, jobId) + "/";
    PrefixCancel(w);
    assert AbsPath(basedir, jobId, rel1) == w + rel1;
    assert AbsPath(basedir, jobId, rel2) == w + rel2;
  }

  /** A job id is one path component. */
  predicate PlainId(jobId: string) {
    jobId != [] && forall i :: 0 <= i < |jobId| ==> jobId[i] != '/'
  }

  /** Nothing of one job lies in the directory of another: removing one
      job's directory leaves the other jobs' files alone. */
  lemma JobDirsSeparate(basedir: string, id1: string, id2: string, rel: string)
    requires PlainId(id1) && PlainId(id2) && id1 != id2
    ensures !Under(AbsPath(basedir, id2, rel), JobDir(basedir, id1))
  {
    var w := JoinPath(basedir, "jobs") + "/";
    var tail := if rel == [] then id2 else id2 + "/" + rel;
    var q := id1 + "/";
    assert AbsPath(basedir, id2, rel) == w + tail;
    assert JobDir(basedir, id1) == w + id1;
    assert JobDir(basedir, id1) + "/" == w + q;
    if rel != [] {
      assert tail[|id2|] == '/';
    }
    if |id1| < |id2| {
      assert q[|id1|] == '/' && tail[|id1|] == id2[|id1|];
    } else if |id1| == |id2| {
      assert q[..|id1|] == id1;
      assert |tail| >= |q| ==> tail[..|id1|] == id2;
    } else if rel != [] {
      assert q[|id2|] == id1[|id2|];
    }
    PrefixCancel(w);
    PrefixCancelLe(w, q, tail);
  }

  lemma PrefixCancelLe(w: string, q: string, t: string)
    ensures w + q <= w + t ==> q <= t
  {
    if w + q <= w + t {
      assert q == (w + t)[|w|..|w| + |q|];
      assert (w + t)[|w|..] == t;
    }
  }

  /** A file of the job outside `work/` is no staged copy's target. */
  lemma NotATarget(basedir: string, jobId: string, rel: string, c: Copy)
    requires rel != [] && !("work/" <= rel)
    ensures AbsPath(basedir, jobId, rel) != Target(AbsPath(basedir, jobId, ""), c)
  {
    var w := JobDir(basedir, jobId) + "/";
    PrefixCancel(w);
    PrefixCancel("work/");
    assert AbsPath(basedir, jobId, rel) == w + rel;
    var name := CreateInputFilename(Counter(c.counter), c.origin);
    assert Target(AbsPath(basedir, jobId, ""), c) == w + ("work/" + name);
  }

  /** Such a file keeps what it had while the copies are made. */
  lemma CopiesKeep(entries: map<string, Content>, basedir: string, jobId: string, rel: string, copies: seq<Copy>)
    requires rel != [] && !("work/" <= rel)
    ensures var p := AbsPath(basedir, jobId, rel);
      var after := ApplyCopies(entries, AbsPath(basedir, jobId, ""), copies);
      && (p in after <==> p in entries)
      && (p in entries ==> after[p] == entries[p])
  {
    var p := AbsPath(basedir, jobId, rel);
    forall k | 0 <= k < |copies| ensures Target(AbsPath(basedir, jobId, ""), copies[k]) != p {
      NotATarget(basedir, jobId, rel, copies[k]);
    }
    ApplyCopiesOther(entries, AbsPath(basedir, jobId, ""), copies, p);
  }

  /** The job directory after the first steps of `stage_job`: the job and
      work directories exist, `name.txt` holds the job's name and
      `workflow.cwl` the translated workflow. */
  function Prepared(entries: map<string, Content>, basedir: string, jobId: string, name: string, workflow: seq<byte>): map<string, Content> {
    WithDir(WithDir(entries, AbsPath(basedir, jobId, "")), AbsPath(basedir, jobId, "work"))
      [AbsPath(basedir, jobId, "name.txt") := Content.Text(name)]
      [AbsPath(basedir, jobId, "workflow.cwl") := Bytes(workflow)]
  }

  /** The loop of `stage_job` run from counter 1 over the whole document. */
  function StagedJob(basedir: string, jobId: string, files: seq<InputFile>, inputs: Json): Staging {
    StagedInputs(JobStage(AbsPath(basedir, jobId, "")), 1, files, 0, inputs, [])
  }

  /** A successful staging uses the counters 1 to the number of files in
      all trees; every file had a source, and the k-th file's source is
      copied to the name made from its location and counter k + 1. */
  lemma StagedJobCopies(entries: map<string, Content>, basedir: string, jobId: string, files: seq<InputFile>, inputs: Json, k: nat)
    requires StagedJob(basedir, jobId, files, inputs).failure.None?
    requires k < |FlattenAll(files)|
    ensures var s := StagedJob(basedir, jobId, files, inputs);
      var jobDir := AbsPath(basedir, jobId, "");
      var f := FlattenAll(files)[k];
      var c := StagedCopy(1 + k, f);
      && s.next == 1 + |FlattenAll(files)|
      && f.location.JString? && f.source.Some?
      && Target(jobDir, c) == StagedPath(jobDir, CreateInputFilename(Counter(1 + k), f.location.s))
      && Target(jobDir, c) in ApplyCopies(entries, jobDir, s.copies)
      && ApplyCopies(entries, jobDir, s.copies)[Target(jobDir, c)] == CopyOf(f.source.value)
  {
    var jobDir := AbsPath(basedir, jobId, "");
    JobStageSpec(jobDir);
    JobCopies(JobStage(jobDir), files, inputs);
    var s := StagedJob(basedir, jobId, files, inputs);
    CopiesForDistinct(1, FlattenAll(files));
    CopiesForIndex(1, FlattenAll(files), k);
    ApplyCopiesAt(entries, jobDir, s.copies, k);
  }

  lemma JobCopies(stage: Stage, files: seq<InputFile>, inputs: Json)
    requires CountsTree(stage)
    requires StagedInputs(stage, 1, files, 0, inputs, []).failure.None?
    ensures var s := StagedInputs(stage, 1, files, 0, inputs, []);
      s.next == 1 + |FlattenAll(files)| && s.copies == CopiesFor(1, FlattenAll(files))
    ensures Stageable(FlattenAll(files))
  {
    StagedInputsCopies(stage, 1, files, 0, inputs, []);
    assert files[0..] == files;
  }

  /** `stage_job` sets the `location` of `inputs[name][index]` (or
      `inputs[name]`) of the j-th input file to the remote path of its
      copy. */
  lemma StagedJobLocation(basedir: string, jobId: string, files: seq<InputFile>, inputs: Json, j: nat)
    requires StagedJob(basedir, jobId, files, inputs).failure.None?
    requires SeparateSlots(files) && j < |files|
    ensures files[j].name.Some?
    ensures LocationOf(StagedJob(basedir, jobId, files, inputs).desc, files[j].name.value, files[j].index)
      == Some(JString(Target(AbsPath(basedir, jobId, ""), StagedCopy(1 + |FlattenAll(files[..j])|, files[j]))))
  {
    var jobDir := AbsPath(basedir, jobId, "");
    JobStageSpec(jobDir);
    JobLocation(jobDir, JobStage(jobDir), files, inputs, j);
  }

  lemma JobLocation(jobDir: string, stage: Stage, files: seq<InputFile>, inputs: Json, j: nat)
    requires CountsTree(stage) && StaysInSlot(stage) && SetsLocation(jobDir, stage)
    requires StagedInputs(stage, 1, files, 0, inputs, []).failure.None?
    requires SeparateSlots(files) && j < |files|
    ensures files[j].name.Some?
    ensures LocationOf(StagedInputs(stage, 1, files, 0, inputs, []).desc, files[j].name.value, files[j].index)
      == Some(JString(Target(jobDir, StagedCopy(1 + |FlattenAll(files[..j])|, files[j]))))
  {
    StagedInputsLocation(jobDir, stage, 1, files, 0, inputs, [], j, files[..j]);
  }

  /** Slots that hold none of the input files are left as they were. */
  lemma StagedJobOthers(basedir: string, jobId: string, files: seq<InputFile>, inputs: Json, n: string, x: Option<nat>)
    requires StagedJob(basedir, jobId, files, inputs).failure.None?
    requires forall j :: 0 <= j < |files| ==> SeparateFrom(n, x, files[j])
    ensures SlotOf(StagedJob(basedir, jobId, files, inputs).desc, n, x) == SlotOf(inputs, n, x)
  {
    var jobDir := AbsPath(basedir, jobId, "");
    JobStageSpec(jobDir);
    StagedInputsOthers(JobStage(jobDir), 1, files, 0, inputs, [], n, x);
  }

  /** `'file://' + str(work_dir) + '/'`. */
  function OutputPrefix(workDir: string): string {
    "file://" + workDir + "/"
  }

  /** One output file, as `destage_job_output` reports it: its location
      must be a string that starts with the prefix, which is cut off, and
      its source becomes the remote path to fetch it from. */
  function DestagedFile(workDir: string, f: InputFile): (r: Result<InputFile>)
    ensures r.Ok? <==> f.location.JString? && OutputPrefix(workDir) <= f.location.s
    ensures f.location.JString? && !(OutputPrefix(workDir) <= f.location.s) ==>
      r == Err(UnexpectedOutputLocation(f.location.s, OutputPrefix(workDir)))
    ensures r.Ok? ==>
      && r.value.location.JString?
      && OutputPrefix(workDir) + r.value.location.s == f.location.s
      && r.value.source == Some(JoinPath(workDir, r.value.location.s))
      && r.value == f.(location := r.value.location, source := r.value.source)
  {
    var prefix := OutputPrefix(workDir);
    if !f.location.JString? then Err(WrongType)
    else if !(prefix <= f.location.s) then Err(UnexpectedOutputLocation(f.location.s, prefix))
    else
      var rel := f.location.s[|prefix|..];
      assert prefix + rel == f.location.s;
      Ok(f.(location := JString(rel), source := Some(JoinPath(workDir, rel))))
  }

  /** The loop of `destage_job_output`: the first file that fails ends it. */
  function DestagedFiles(workDir: string, files: seq<InputFile>): (r: Result<seq<InputFile>>)
    decreases |files|
  {
    if files == [] then Ok([])
    else
      var d :- DestagedFile(workDir, files[0]);
      var rest :- DestagedFiles(workDir, files[1..]);
      Ok([d] + rest)
  }

  /** The loop succeeds exactly when every file does, and then reports
      each file destaged on its own, in order. */
  lemma {:induction false} DestagedFilesSpec(workDir: string, files: seq<InputFile>)
    ensures DestagedFiles(workDir, files).Ok? <==> forall k :: 0 <= k < |files| ==> DestagedFile(workDir, files[k]).Ok?
    ensures DestagedFiles(workDir, files).Ok? ==>
      && |DestagedFiles(workDir, files).value| == |files|
      && forall k :: 0 <= k < |files| ==> DestagedFiles(workDir, files).value[k] == DestagedFile(workDir, files[k]).value
    decreases |files|
  {
    if files != [] {
      DestagedFilesSpec(workDir, files[1..]);
      if DestagedFiles(workDir, files).Ok? {
        var r := DestagedFiles(workDir, files).value;
        forall k | 0 <= k < |files| ensures r[k] == DestagedFile(workDir, files[k]).value {
          if k > 0 {
            assert files[k] == files[1..][k - 1];
          }
        }
      } else if DestagedFile(workDir, files[0]).Ok? {
        var k :| 0 <= k < |files[1..]| && !DestagedFile(workDir, files[1..][k]).Ok?;
        assert files[1..][k] == files[k + 1];
      }
    }
  }

  /** The loop from position `i` on: the i-th file, then the rest. */
  lemma DestagedFilesFrom(workDir: string, files: seq<InputFile>, i: nat)
    requires i < |files|
    ensures var d := DestagedFile(workDir, files[i]);
      DestagedFiles(workDir, files[i..]) ==
        if d.Err? then Err(d.error) else Prepended([d.value], DestagedFiles(workDir, files[i + 1..]))
  {
    assert files[i..][0] == files[i];
    assert files[i..][1..] == files[i + 1..];
  }

  /** What `destage_job_output` returns for a job whose runner printed
      `remoteOutput`; `parse` stands for `json.loads`. */
  function DestagedOutput(workDir: string, remoteOutput: string, parse: string -> Result<Json>): Result<seq<InputFile>> {
    if remoteOutput == "" then Ok([])
    else
      var outputs :- parse(remoteOutput);
      var files :- FilesFromBinding(outputs);
      DestagedFiles(workDir, files)
  }

  /** The standard-error lines `update_job` passes to `job.debug`: those
      at positions from the old line count on. */
  function NewLines(log: string, previous: string): (r: seq<string>)
    ensures |r| == if |SplitLines(previous)| <= |SplitLines(log)| then |SplitLines(log)| - |SplitLines(previous)| else 0
    ensures forall k :: 0 <= k < |r| ==> r[k] == SplitLines(log)[|SplitLines(previous)| + k]
  {
    var lines, n := SplitLines(log), |SplitLines(previous)|;
    if n <= |lines| then lines[n..] else []
  }

  /** When the runner only appended to a log whose last line was complete,
      the new lines are exactly the lines of what was appended. */
  lemma NewLinesAppended(previous: string, more: string)
    requires previous == [] || previous[|previous| - 1] == '\n'
    ensures NewLines(previous + more, previous) == SplitLines(more)
  {
    SplitLinesAppend(previous, more);
    var a, b := SplitLines(previous), SplitLines(more);
    assert (a + b)[|a|..] == b;
  }

  class RemoteJobFiles {
    const basedir: string
    const fs: FileSystem

    /** Makes the base directory and its `jobs/` directory, if missing. */
    constructor (basedir: string, fs: FileSystem)
      modifies fs
      ensures this.basedir == basedir && this.fs == fs
      ensures fs.entries == WithDir(WithDir(old(fs.entries), basedir), JoinPath(basedir, "jobs"))
    {
      this.basedir := basedir;
      this.fs := fs;
      new;
      fs.MakeDir(basedir);
      fs.MakeDir(JoinPath(basedir, "jobs"));
    }

    /** `_stage_input_file(count, job_id, f, desc)`: copies the file under
        its staged name, points `desc['location']` at it, then stages the
        secondary files into `desc['secondaryFiles']` one by one. */
    method StageInputFile(jobDir: string, count: nat, f: InputFile, desc: Json) returns (s: Staging)
      modifies fs
      ensures s == StagedFile(jobDir, count, f, desc)
      ensures fs.entries == ApplyCopies(old(fs.entries), jobDir, s.copies)
      decreases f, 1
    {
      if !f.location.JString? {
        return Staging(count, desc, [], Some(WrongType));
      }
      if f.source.None? {
        return Staging(count + 1, desc, [], Some(WrongType));
      }
      var copy := StagedCopy(count, f);
      var target := Target(jobDir, copy);
      fs.Write(target, CopyOf(copy.source));
      assert [copy][1..] == [];
      var located := SetField(desc, "location", JString(target));
      if located.Err? {
        return Staging(count + 1, desc, [copy], Some(located.error));
      }
      var files := f.secondaryFiles;
      var next: nat, d, copies, i := count + 1, located.value, [copy], 0;
      while i < |files|
        invariant i <= |files|
        invariant StagedSecondaries(jobDir, next, files, i, d, copies) == StagedFile(jobDir, count, f, desc)
        invariant fs.entries == ApplyCopies(old(fs.entries), jobDir, copies)
      {
        var e := StageElement(jobDir, next, files[i], d, i);
        ApplyCopiesAppend(old(fs.entries), jobDir, copies, e.copies);
        if e.failure.Some? {
          return Staging(e.next, d, copies + e.copies, e.failure);
        }
        next, d, copies, i := e.next, e.desc, copies + e.copies, i + 1;
      }
      s := Staging(next, d, copies, None);
    }

    /** One turn of the loop over the secondary files: stages `f` into
        `desc['secondaryFiles'][i]`. */
    method StageElement(jobDir: string, count: nat, f: InputFile, desc: Json, i: nat) returns (s: Staging)
      modifies fs
      ensures s == StagedElement(jobDir, count, f, desc, i)
      ensures fs.entries == ApplyCopies(old(fs.entries), jobDir, s.copies)
      decreases f, 2
    {
      var list := Field(desc, "secondaryFiles");
      if list.Err? {
        return Staging(count, desc, [], Some(list.error));
      }
      var element := Item(list.value, i);
      if element.Err? {
        return Staging(count, desc, [], Some(element.error));
      }
      var t := StageInputFile(jobDir, count, f, element.value);
      if t.failure.Some? {
        return Staging(t.next, desc, t.copies, t.failure);
      }
      StagedFileDesc(jobDir, count, f, element.value);
      var newList := SetItem(list.value, i, t.desc).value;
      var d := SetField(desc, "secondaryFiles", newList).value;
      s := Staging(t.next, d, t.copies, None);
    }

    /** The loop of `stage_job` over the input files, with the counter
        starting at 1. */
    method StageInputs(jobDir: string, files: seq<InputFile>, inputs: Json) returns (s: Staging)
      modifies fs
      ensures s == StagedInputs(JobStage(jobDir), 1, files, 0, inputs, [])
      ensures fs.entries == ApplyCopies(old(fs.entries), jobDir, s.copies)
    {
      var count: nat, doc, copies, i := 1, inputs, [], 0;
      while i < |files|
        invariant i <= |files|
        invariant StagedInputs(JobStage(jobDir), count, files, i, doc, copies) == StagedInputs(JobStage(jobDir), 1, files, 0, inputs, [])
        invariant fs.entries == ApplyCopies(old(fs.entries), jobDir, copies)
      {
        var f := files[i];
        StagedInputsTurn(jobDir, count, files, i, doc, copies);
        var slot := SlotDesc(doc, f);
        if slot.Err? {
          assert copies + [] == copies;
          return Staging(count, doc, copies, Some(slot.error));
        }
        var t := StageInputFile(jobDir, count, f, slot.value);
        ApplyCopiesAppend(old(fs.entries), jobDir, copies, t.copies);
        if t.failure.Some? {
          return Staging(t.next, doc, copies + t.copies, t.failure);
        }
        StagedFileDesc(jobDir, count, f, slot.value);
        WriteBackOk(doc, f, t.desc);
        var written := WriteBack(doc, f, t.desc).value;
        count, doc, copies, i := t.next, written, copies + t.copies, i + 1;
      }
      s := Staging(count, doc, copies, None);
    }

    /** `stage_job(job_id, input_files, workflow_content)`, with `parse`
        standing for `json.loads` of the job's input. The job directory is
        prepared and the job's workdir and workflow paths set before the
        input is read; the input files are staged; then `input.json` gets
        the rewritten input and the job gets its remaining paths. A
        failure ends the staging where it occurred. */
    method StageJob(job: Job, inputFiles: seq<InputFile>, workflowContent: seq<byte>, parse: string -> Result<Json>) returns (failure: Option<Error>)
      modifies fs, job
      ensures job.name == old(job.name) && job.workflow == old(job.workflow) && job.localInput == old(job.localInput)
      ensures job.localOutput == old(job.localOutput) && job.remoteOutput == old(job.remoteOutput)
      ensures job.remoteError == old(job.remoteError) && job.state == old(job.state) && job.pleaseDelete == old(job.pleaseDelete)
      ensures job.remoteWorkdirPath == AbsPath(basedir, job.id, "work")
      ensures job.remoteWorkflowPath == AbsPath(basedir, job.id, "workflow.cwl")
      ensures var prepared := Prepared(old(fs.entries), basedir, job.id, job.name, workflowContent);
        match parse(job.localInput)
        case Err(e) => failure == Some(e) && fs.entries == prepared
        case Ok(inputs) =>
          var s := StagedJob(basedir, job.id, inputFiles, inputs);
          && failure == s.failure
          && if s.failure.Some? then fs.entries == ApplyCopies(prepared, AbsPath(basedir, job.id, ""), s.copies)
             else fs.entries == ApplyCopies(prepared, AbsPath(basedir, job.id, ""), s.copies)[AbsPath(basedir, job.id, "input.json") := JsonText(s.desc)]
      ensures failure.None? ==>
        && job.remoteInputPath == AbsPath(basedir, job.id, "input.json")
        && job.remoteStdoutPath == AbsPath(basedir, job.id, "stdout.txt")
        && job.remoteStderrPath == AbsPath(basedir, job.id, "stderr.txt")
        && job.remoteSystemOutPath == AbsPath(basedir, job.id, "sysout.txt")
        && job.remoteSystemErrPath == AbsPath(basedir, job.id, "syserr.txt")
      ensures failure.Some? ==>
        && job.remoteInputPath == old(job.remoteInputPath)
        && job.remoteStdoutPath == old(job.remoteStdoutPath) && job.remoteStderrPath == old(job.remoteStderrPath)
        && job.remoteSystemOutPath == old(job.remoteSystemOutPath) && job.remoteSystemErrPath == old(job.remoteSystemErrPath)
    {
      PrepareJob(job, workflowContent);
      var parsed := parse(job.localInput);
      if parsed.Err? {
        return Some(parsed.error);
      }
      var staged := StageInputs(AbsPath(basedir, job.id, ""), inputFiles, parsed.value);
      if staged.failure.Some? {
        return staged.failure;
      }
      FinishJob(job, staged.desc);
      failure := None;
    }

    /** The steps of `stage_job` before the input is read: the job and work
        directories, `name.txt`, `workflow.cwl`, and the job's workdir and
        workflow paths. */
    method PrepareJob(job: Job, workflowContent: seq<byte>)
      modifies fs, job
      ensures fs.entries == Prepared(old(fs.entries), basedir, job.id, job.name, workflowContent)
      ensures job.remoteWorkdirPath == AbsPath(basedir, job.id, "work")
      ensures job.remoteWorkflowPath == AbsPath(basedir, job.id, "workflow.cwl")
      ensures unchanged(job`name, job`workflow, job`localInput, job`localOutput, job`remoteOutput)
      ensures unchanged(job`remoteError, job`state, job`pleaseDelete, job`remoteInputPath)
      ensures unchanged(job`remoteStdoutPath, job`remoteStderrPath, job`remoteSystemOutPath, job`remoteSystemErrPath)
    {
      fs.MakeDir(AbsPath(basedir, job.id, ""));
      fs.MakeDir(AbsPath(basedir, job.id, "work"));
      job.remoteWorkdirPath := AbsPath(basedir, job.id, "work");
      fs.Write(AbsPath(basedir, job.id, "name.txt"), Content.Text(job.name));
      fs.Write(AbsPath(basedir, job.id, "workflow.cwl"), Bytes(workflowContent));
      job.remoteWorkflowPath := AbsPath(basedir, job.id, "workflow.cwl");
    }

    /** The steps of `stage_job` after the input files: `input.json` gets
        the rewritten input, and the job its remaining paths. */
    method FinishJob(job: Job, inputs: Json)
      modifies fs, job
      ensures fs.entries == old(fs.entries)[AbsPath(basedir, job.id, "input.json") := JsonText(inputs)]
      ensures job.remoteInputPath == AbsPath(basedir, job.id, "input.json")
      ensures job.remoteStdoutPath == AbsPath(basedir, job.id, "stdout.txt")
      ensures job.remoteStderrPath == AbsPath(basedir, job.id, "stderr.txt")
      ensures job.remoteSystemOutPath == AbsPath(basedir, job.id, "sysout.txt")
      ensures job.remoteSystemErrPath == AbsPath(basedir, job.id, "syserr.txt")
      ensures unchanged(job`name, job`workflow, job`localInput, job`localOutput, job`remoteOutput)
      ensures unchanged(job`remoteError, job`state, job`pleaseDelete, job`remoteWorkdirPath, job`remoteWorkflowPath)
    {
      fs.Write(AbsPath(basedir, job.id, "input.json"), JsonText(inputs));
      job.remoteInputPath := AbsPath(basedir, job.id, "input.json");
      job.remoteStdoutPath := AbsPath(basedir, job.id, "stdout.txt");
      job.remoteStderrPath := AbsPath(basedir, job.id, "stderr.txt");
      job.remoteSystemOutPath := AbsPath(basedir, job.id, "sysout.txt");
      job.remoteSystemErrPath := AbsPath(basedir, job.id, "syserr.txt");
    }

    /** `destage_job_output(job_id)`: the files of the runner's output
        binding, each relative to the job's work directory. */
    method DestageJobOutput(job: Job, parse: string -> Result<Json>) returns (r: Result<seq<InputFile>>)
      ensures r == DestagedOutput(AbsPath(basedir, job.id, "work"), job.remoteOutput, parse)
    {
      var workDir := AbsPath(basedir, job.id, "work");
      if job.remoteOutput == "" {
        return Ok([]);
      }
      var outputs := parse(job.remoteOutput);
      if outputs.Err? {
        return Err(outputs.error);
      }
      var files := FilesFromBinding(outputs.value);
      if files.Err? {
        return Err(files.error);
      }
      var outs := files.value;
      var done: seq<InputFile> := [];
      var i := 0;
      assert outs[0..] == outs;
      PrependedNothing(DestagedFiles(workDir, outs));
      while i < |outs|
        invariant i <= |outs|
        invariant DestagedFiles(workDir, outs) == Prepended(done, DestagedFiles(workDir, outs[i..]))
      {
        var d := DestagedFile(workDir, outs[i]);
        DestagedFilesFrom(workDir, outs, i);
        if d.Err? {
          return Err(d.error);
        }
        PrependedTwice(done, [d.value], DestagedFiles(workDir, outs[i + 1..]));
        done, i := done + [d.value], i + 1;
      }
      assert outs[i..] == [];
      assert done + [] == done;
      r := Ok(done);
    }

    /** `update_job(job_id)`, with the contents of the job's `stdout.txt`
        and `stderr.txt` given (empty when missing); returns the lines
        passed to `job.debug`. */
    method UpdateJob(job: Job, stdout: string, stderr: string) returns (debugLines: seq<string>)
      modifies job
      ensures job.remoteOutput == if stdout != "" then stdout else old(job.remoteOutput)
      ensures job.remoteError == if stderr != "" then stderr else old(job.remoteError)
      ensures debugLines == if stderr != "" then NewLines(stderr, old(job.remoteError)) else []
      ensures job.name == old(job.name) && job.workflow == old(job.workflow) && job.localInput == old(job.localInput)
      ensures job.localOutput == old(job.localOutput) && job.state == old(job.state) && job.pleaseDelete == old(job.pleaseDelete)
      ensures unchanged(job`remoteWorkdirPath, job`remoteWorkflowPath, job`remoteInputPath)
      ensures unchanged(job`remoteStdoutPath, job`remoteStderrPath, job`remoteSystemOutPath, job`remoteSystemErrPath)
    {
      if |stdout| > 0 {
        job.remoteOutput := stdout;
      }
      debugLines := [];
      if |stderr| > 0 {
        var lines := SplitLines(stderr);
        var firstNewLine := |SplitLines(job.remoteError)|;
        debugLines := if firstNewLine <= |lines| then lines[firstNewLine..] else [];
        job.remoteError := stderr;
      }
    }

    /** `delete_job(job_id)`: removes the job directory and all in it. */
    method DeleteJob(jobId: string)
      modifies fs
      ensures var dir := JobDir(basedir, jobId);
        fs.entries == if dir in old(fs.entries) then Removed(old(fs.entries), dir) else old(fs.entries)
    {
      var jobDir := AbsPath(basedir, jobId, "");
      if jobDir in fs.entries {
        fs.RemoveTree(jobDir);
      }
    }
  }

  /** After deleting a job whose directory exists, none of its files is
      left, and every file of another job is. */
  lemma DeleteJobEffect(entries: map<string, Content>, basedir: string, jobId: string, other: string, rel: string)
    requires PlainId(jobId) && PlainId(other) && jobId != other
    ensures AbsPath(basedir, jobId, rel) !in Removed(entries, JobDir(basedir, jobId))
    ensures var p := AbsPath(basedir, other, rel);
      p in entries ==> p in Removed(entries, JobDir(basedir, jobId)) && Removed(entries, JobDir(basedir, jobId))[p] == entries[p]
  {
    AbsPathUnder(basedir, jobId, rel);
    JobDirsSeparate(basedir, jobId, other, rel);
  }
}
