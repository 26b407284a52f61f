/** How `stage_job` and `_stage_input_file` in
    cerise/back_end/remote_job_files.py rewrite the input binding: each
    input file, and then each of its secondary files depth first, gets the
    next value of one job-wide counter, is copied under that staged name
    into the job's work directory, and has the `location` of its
    descriptor in the input JSON replaced by the remote path. These are the
    specification functions the staging methods are proved against. */
module Staging {
  import opened Wrappers
  import opened Json
  import opened Text
  import opened InputFiles
  import opened RemoteFs
  import opened StagedNames
  import opened Cwl

  /** A file copy to the remote resource: the file at `source` copied
      under the staged name made from the location `origin` with counter
      value `counter`. */
  datatype Copy = Copy(origin: string, source: string, counter: nat)

  /** Where staging got to: the next counter value, the descriptor as
      rewritten so far, the copies made, and the error that stopped it. */
  datatype Staging = Staging(next: nat, desc: Json, copies: seq<Copy>, failure: Option<Error>)

  /** `_abs_path(job_id, 'work/' + staged_name)`. */
  function StagedPath(jobDir: string, name: string): string {
    JoinPath(jobDir, "work/" + name)
  }

  /** The remote path a copy goes to in the job directory `jobDir`. */
  function Target(jobDir: string, c: Copy): string {
    StagedPath(jobDir, CreateInputFilename(Counter(c.counter), c.origin))
  }

  /** The copy made for file `f` when the counter stands at `n`. */
  function StagedCopy(n: nat, f: InputFile): Copy {
    Copy(LocationText(f), SourceText(f), n)
  }

  /** The copies for `files` staged one after the other from counter
      `count` on (CopiesForIndex: the k-th file gets counter `count + k`). */
  function CopiesFor(count: nat, files: seq<InputFile>): (cs: seq<Copy>)
    ensures |cs| == |files|
    decreases |files|
  {
    if files == [] then [] else [StagedCopy(count, files[0])] + CopiesFor(count + 1, files[1..])
  }

  lemma {:induction false} CopiesForIndex(count: nat, files: seq<InputFile>, k: nat)
    requires k < |files|
    ensures CopiesFor(count, files)[k] == StagedCopy(count + k, files[k])
    decreases k
  {
    if k > 0 {
      CopiesForIndex(count + 1, files[1..], k - 1);
    }
  }

  /** `_stage_input_file(count, job_id, f, desc)`: the staged name needs a
      string location; the counter is taken; the copy needs a source and
      is made before the descriptor is written; then the secondary files
      are staged into the descriptor's own `secondaryFiles` list, position
      by position. */
  function StagedFile(jobDir: string, count: nat, f: InputFile, desc: Json): (s: Staging)
    decreases f, 1
  {
    if !f.location.JString? then Staging(count, desc, [], Some(WrongType))
    else if f.source.None? then Staging(count + 1, desc, [], Some(WrongType))
    else
      var copy := StagedCopy(count, f);
      match SetField(desc, "location", JString(Target(jobDir, copy)))
      case Err(e) => Staging(count + 1, desc, [copy], Some(e))
      case Ok(d) => StagedSecondaries(jobDir, count + 1, f.secondaryFiles, 0, d, [copy])
  }

  /** One turn of the loop over `enumerate(input_file.secondary_files)`:
      `input_desc['secondaryFiles'][i]` is staged as `f` and, because the
      Python code rewrites it in place, written back into the parent
      descriptor `desc`. */
  function StagedElement(jobDir: string, count: nat, f: InputFile, desc: Json, i: nat): (s: Staging)
    decreases f, 2
  {
    match Field(desc, "secondaryFiles")
    case Err(e) => Staging(count, desc, [], Some(e))
    case Ok(list) =>
      match Item(list, i)
      case Err(e) => Staging(count, desc, [], Some(e))
      case Ok(element) =>
        var s := StagedFile(jobDir, count, f, element);
        if s.failure.Some? then Staging(s.next, desc, s.copies, s.failure)
        else
          match SetItem(list, i, s.desc)
          case Err(e) => Staging(s.next, desc, s.copies, Some(e))
          case Ok(newList) =>
            match SetField(desc, "secondaryFiles", newList)
            case Err(e) => Staging(s.next, desc, s.copies, Some(e))
            case Ok(d) => Staging(s.next, d, s.copies, None)
  }

  /** The loop over the secondary files from position `i` on, with `desc`
      the parent descriptor and `copies` the copies made so far. */
  function StagedSecondaries(jobDir: string, count: nat, files: seq<InputFile>, i: nat, desc: Json, copies: seq<Copy>): (s: Staging)
    requires i <= |files|
    decreases files, |files| - i
  {
    if i == |files| then Staging(count, desc, copies, None)
    else
      var e := StagedElement(jobDir, count, files[i], desc, i);
      if e.failure.Some? then Staging(e.next, desc, copies + e.copies, e.failure)
      else StagedSecondaries(jobDir, e.next, files, i + 1, e.desc, copies + e.copies)
  }

  /** A successful turn stages the i-th element and writes it back at
      position i of the parent's `secondaryFiles`, changing nothing else. */
  lemma StagedElementSpec(jobDir: string, count: nat, f: InputFile, desc: Json, i: nat)
    requires StagedElement(jobDir, count, f, desc, i).failure.None?
    ensures desc.JObject? && Field(desc, "secondaryFiles").Ok?
    ensures var list := Field(desc, "secondaryFiles").value;
      && list.JArray? && i < |list.items|
      && var s := StagedFile(jobDir, count, f, list.items[i]);
      && var e := StagedElement(jobDir, count, f, desc, i);
      && s.failure.None? && e.next == s.next && e.copies == s.copies
      && e.desc.JObject?
      && Lookup(e.desc.fields, "secondaryFiles") == Some(JArray(list.items[i := s.desc]))
      && forall k :: k != "secondaryFiles" ==> Lookup(e.desc.fields, k) == Lookup(desc.fields, k)
  {
  }

  /** A successful turn counts and copies exactly as staging the element
      it found does. */
  lemma StagedElementFile(jobDir: string, count: nat, f: InputFile, desc: Json, i: nat) returns (element: Json)
    requires StagedElement(jobDir, count, f, desc, i).failure.None?
    ensures var s := StagedFile(jobDir, count, f, element);
      && var e := StagedElement(jobDir, count, f, desc, i);
      && s.failure.None? && e.next == s.next && e.copies == s.copies
  {
    element := Field(desc, "secondaryFiles").value.items[i];
  }

  /** A successful loop over secondary files took a successful first turn,
      which counted and copied as staging the element it found does, and
      went on from there. */
  lemma StagedSecondariesStep(jobDir: string, count: nat, files: seq<InputFile>, i: nat, desc: Json, copies: seq<Copy>) returns (element: Json)
    requires i < |files|
    requires StagedSecondaries(jobDir, count, files, i, desc, copies).failure.None?
    ensures var e := StagedElement(jobDir, count, files[i], desc, i);
      && var s := StagedFile(jobDir, count, files[i], element);
      && e.failure.None? && s.failure.None? && e.next == s.next && e.copies == s.copies
      && StagedSecondaries(jobDir, count, files, i, desc, copies) == StagedSecondaries(jobDir, e.next, files, i + 1, e.desc, copies + e.copies)
  {
    element := StagedElementFile(jobDir, count, files[i], desc, i);
  }

  /** The copies for two lists staged one after the other: the second list
      starts at counter `mid`, where the first one stopped. */
  lemma {:induction false} CopiesForAppend(count: nat, a: seq<InputFile>, b: seq<InputFile>, mid: nat)
    requires mid == count + |a|
    ensures CopiesFor(count, a + b) == CopiesFor(count, a) + CopiesFor(mid, b)
    decreases |a|
  {
    if a == [] {
      assert a + b == b;
    } else {
      assert (a + b)[1..] == a[1..] + b;
      CopiesForAppend(count + 1, a[1..], b, mid);
    }
  }

  lemma FlattenAllFrom(files: seq<InputFile>, i: nat)
    requires i < |files|
    ensures FlattenAll(files[i..]) == Flatten(files[i]) + FlattenAll(files[i + 1..])
  {
    assert files[i..][1..] == files[i + 1..];
  }

  /** Every file of a list has a string location and a source. */
  predicate Stageable(files: seq<InputFile>) {
    forall k :: 0 <= k < |files| ==> files[k].location.JString? && files[k].source.Some?
  }

  lemma StageableAppend(a: seq<InputFile>, b: seq<InputFile>)
    ensures Stageable(a + b) <==> Stageable(a) && Stageable(b)
  {
    if Stageable(a + b) {
      forall k | 0 <= k < |b| ensures b[k].location.JString? && b[k].source.Some? {
        assert (a + b)[|a| + k] == b[k];
      }
      forall k | 0 <= k < |a| ensures a[k].location.JString? && a[k].source.Some? {
        assert (a + b)[k] == a[k];
      }
    }
  }

  /** Staging a file that succeeds uses one counter value per file of its
      tree, in depth-first order: the k-th file of the tree (the file
      itself first) is copied under counter `count + k`. */
  lemma {:induction false} StagedFileCopies(jobDir: string, count: nat, f: InputFile, desc: Json)
    requires StagedFile(jobDir, count, f, desc).failure.None?
    ensures var s := StagedFile(jobDir, count, f, desc);
      && s.next == count + |Flatten(f)|
      && s.copies == CopiesFor(count, Flatten(f))
      && Stageable(Flatten(f))
    decreases f, 1
  {
    var copy := StagedCopy(count, f);
    var d := SetField(desc, "location", JString(Target(jobDir, copy))).value;
    StagedSecondariesCopies(jobDir, count + 1, f.secondaryFiles, 0, d, [copy]);
    assert f.secondaryFiles[0..] == f.secondaryFiles;
    var rest := FlattenAll(f.secondaryFiles);
    assert Flatten(f)[1..] == rest;
    assert CopiesFor(count, Flatten(f)) == [copy] + CopiesFor(count + 1, rest);
    StageableAppend([f], rest);
  }

  lemma {:induction false} StagedSecondariesCopies(jobDir: string, count: nat, files: seq<InputFile>, i: nat, desc: Json, copies: seq<Copy>)
    requires i <= |files|
    requires StagedSecondaries(jobDir, count, files, i, desc, copies).failure.None?
    ensures var s := StagedSecondaries(jobDir, count, files, i, desc, copies);
      && s.next == count + |FlattenAll(files[i..])|
      && s.copies == copies + CopiesFor(count, FlattenAll(files[i..]))
      && Stageable(FlattenAll(files[i..]))
    decreases files, |files| - i
  {
    if i == |files| {
      assert files[i..] == [];
    } else {
      var e := StagedElement(jobDir, count, files[i], desc, i);
      var element := StagedSecondariesStep(jobDir, count, files, i, desc, copies);
      StagedFileCopies(jobDir, count, files[i], element);
      var tree, rest := Flatten(files[i]), FlattenAll(files[i + 1..]);
      StagedSecondariesCopies(jobDir, e.next, files, i + 1, e.desc, copies + e.copies);
      FlattenAllFrom(files, i);
      CopiesForAppend(count, tree, rest, e.next);
      AppendAssoc(copies, e.copies, CopiesFor(e.next, rest));
      StageableAppend(tree, rest);
    }
  }

  /** Different staged names give different staged paths. */
  lemma StagedPathInjective(jobDir: string, n1: string, n2: string)
    requires n1 != n2
    ensures StagedPath(jobDir, n1) != StagedPath(jobDir, n2)
  {
    var w := jobDir + "/";
    PrefixCancel(w);
    assert StagedPath(jobDir, n1) == w + ("work/" + n1);
    assert StagedPath(jobDir, n2) == w + ("work/" + n2);
    PrefixCancel("work/");
  }

  /** Copies with different counter values go to different remote paths,
      whatever their origins. */
  lemma TargetsDistinct(jobDir: string, c1: Copy, c2: Copy)
    requires c1.counter != c2.counter
    ensures Target(jobDir, c1) != Target(jobDir, c2)
  {
    StagedNamesDistinct(c1.counter, c2.counter, c1.origin, c2.origin);
    StagedPathInjective(jobDir, CreateInputFilename(Counter(c1.counter), c1.origin), CreateInputFilename(Counter(c2.counter), c2.origin));
  }

  /** A successful staging of a file points the descriptor's `location` at
      the file's staged path and leaves every key other than `location`
      and `secondaryFiles` as it was. */
  lemma {:induction false} StagedFileDesc(jobDir: string, count: nat, f: InputFile, desc: Json)
    requires StagedFile(jobDir, count, f, desc).failure.None?
    ensures var s := StagedFile(jobDir, count, f, desc);
      && s.desc.JObject? && desc.JObject?
      && Lookup(s.desc.fields, "location") == Some(JString(Target(jobDir, StagedCopy(count, f))))
      && forall k :: k != "location" && k != "secondaryFiles" ==> Lookup(s.desc.fields, k) == Lookup(desc.fields, k)
  {
    var copy := StagedCopy(count, f);
    var d := SetField(desc, "location", JString(Target(jobDir, copy))).value;
    StagedSecondariesKeys(jobDir, count + 1, f.secondaryFiles, 0, d, [copy]);
  }

  lemma {:induction false} StagedSecondariesKeys(jobDir: string, count: nat, files: seq<InputFile>, i: nat, desc: Json, copies: seq<Copy>)
    requires i <= |files|
    requires StagedSecondaries(jobDir, count, files, i, desc, copies).failure.None?
    requires desc.JObject?
    ensures var s := StagedSecondaries(jobDir, count, files, i, desc, copies);
      && s.desc.JObject?
      && forall k :: k != "secondaryFiles" ==> Lookup(s.desc.fields, k) == Lookup(desc.fields, k)
    decreases |files| - i
  {
    if i < |files| {
      var e := StagedElement(jobDir, count, files[i], desc, i);
      StagedElementSpec(jobDir, count, files[i], desc, i);
      StagedSecondariesKeys(jobDir, e.next, files, i + 1, e.desc, copies + e.copies);
    }
  }

  /* ----- The loop of `stage_job` over the input files ----- */

  /** The descriptor slot `(name, index)` of a document: `doc[name]`, or
      `doc[name][index]` when there is an index. */
  function SlotOf(doc: Json, name: string, index: Option<nat>): Option<Json> {
    if doc.JObject? then SlotAt(doc.fields, name, index) else None
  }

  /** The `location` of the descriptor in slot `(name, index)`. */
  function LocationOf(doc: Json, name: string, index: Option<nat>): Option<Json> {
    match SlotOf(doc, name, index)
    case Some(JObject(fields)) => Lookup(fields, "location")
    case _ => None
  }

  /** Slot `(name, index)` and the slot of file `f` share no descriptor. */
  predicate SeparateFrom(name: string, index: Option<nat>, f: InputFile) {
    f.name != Some(name) || (index.Some? && f.index.Some? && index.value != f.index.value)
  }

  /** The input files address pairwise different descriptors. */
  predicate SeparateSlots(files: seq<InputFile>) {
    forall a, b :: 0 <= a < b < |files| && files[a].name.Some? ==>
      SeparateFrom(files[a].name.value, files[a].index, files[b])
  }

  /** The files the resolver finds in a binding with unique keys, as a
      parsed document has, address pairwise different descriptors. */
  lemma FilesFromBindingSeparate(binding: Json)
    requires binding.JObject? && UniqueKeys(binding.fields)
    requires FilesFromBinding(binding).Ok?
    ensures SeparateSlots(FilesFromBinding(binding).value)
  {
    FilesFromBindingSpec(binding);
    FileSlotsApart(binding.fields);
    var fs, slots := FilesFromBinding(binding).value, FileSlots(binding.fields);
    forall a, b | 0 <= a < b < |fs| && fs[a].name.Some?
      ensures SeparateFrom(fs[a].name.value, fs[a].index, fs[b])
    {
      assert FromSlot(fs[a], slots[a]) && FromSlot(fs[b], slots[b]);
      assert SlotsApart(slots[a], slots[b]);
    }
  }

  /** `inputs[input_file.name][input_file.index]`, or
      `inputs[input_file.name]` when the index is None. A file without a
      name has no key in a parsed document. */
  function SlotDesc(inputs: Json, f: InputFile): (r: Result<Json>)
    ensures r.Ok? && r.value.JObject? ==> f.name.Some? && SlotOf(inputs, f.name.value, f.index) == Some(r.value)
  {
    match f.name
    case None => Err(WrongType)
    case Some(name) =>
      var value :- Field(inputs, name);
      match f.index
      case None => Ok(value)
      case Some(i) => Item(value, i)
  }

  /** Puts the rewritten descriptor back where `SlotDesc` found it: the
      Python code rewrites the descriptor in place, inside `inputs`. */
  function WriteBack(inputs: Json, f: InputFile, desc: Json): Result<Json> {
    match f.name
    case None => Err(WrongType)
    case Some(name) =>
      match f.index
      case None => SetField(inputs, name, desc)
      case Some(i) =>
        var value :- Field(inputs, name);
        var list :- SetItem(value, i, desc);
        SetField(inputs, name, list)
  }

  /** One turn of the loop: find the file's descriptor, stage the file
      into it, and leave the rewritten descriptor in the document. */
  function StagedInput(jobDir: string, count: nat, f: InputFile, inputs: Json): Staging {
    match SlotDesc(inputs, f)
    case Err(e) => Staging(count, inputs, [], Some(e))
    case Ok(desc) =>
      var s := StagedFile(jobDir, count, f, desc);
      if s.failure.Some? then Staging(s.next, inputs, s.copies, s.failure)
      else
        match WriteBack(inputs, f, s.desc)
        case Err(e) => Staging(s.next, inputs, s.copies, Some(e))
        case Ok(d) => Staging(s.next, d, s.copies, None)
  }

  /** A way of staging one input file into the document, given the counter. */
  type Stage = (nat, InputFile, Json) -> Staging

  /** The turn `stage_job` takes for each input file of the job whose
      directory is `jobDir`. */
  function JobStage(jobDir: string): Stage {
    (c: nat, f: InputFile, d: Json) => StagedInput(jobDir, c, f, d)
  }

  /** The loop of `stage_job` over the input files from position `i` on,
      each taking the turn `stage`; the turns thread the counter and the
      document, and the first failure ends the loop. */
  function StagedInputs(stage: Stage, count: nat, files: seq<InputFile>, i: nat, inputs: Json, copies: seq<Copy>): Staging
    requires i <= |files|
    decreases |files| - i
  {
    if i == |files| then Staging(count, inputs, copies, None)
    else
      var e := stage(count, files[i], inputs);
      if e.failure.Some? then Staging(e.next, inputs, copies + e.copies, e.failure)
      else StagedInputs(stage, e.next, files, i + 1, e.desc, copies + e.copies)
  }

  /** One turn of the loop of `stage_job`: a failed turn ends the loop with
      the document as it was, a successful one goes on from the document
      it left. */
  lemma StagedInputsTurn(jobDir: string, count: nat, files: seq<InputFile>, i: nat, inputs: Json, copies: seq<Copy>)
    requires i < |files|
    ensures var e := StagedInput(jobDir, count, files[i], inputs);
      StagedInputs(JobStage(jobDir), count, files, i, inputs, copies) ==
        if e.failure.Some? then Staging(e.next, inputs, copies + e.copies, e.failure)
        else StagedInputs(JobStage(jobDir), e.next, files, i + 1, e.desc, copies + e.copies)
  {
    assert JobStage(jobDir)(count, files[i], inputs) == StagedInput(jobDir, count, files[i], inputs);
  }

  /** A successful loop took a successful first turn and went on from
      there. */
  lemma StagedInputsStep(stage: Stage, count: nat, files: seq<InputFile>, i: nat, inputs: Json, copies: seq<Copy>)
    requires i < |files|
    requires StagedInputs(stage, count, files, i, inputs, copies).failure.None?
    ensures var e := stage(count, files[i], inputs);
      && e.failure.None?
      && StagedInputs(stage, count, files, i, inputs, copies) == StagedInputs(stage, e.next, files, i + 1, e.desc, copies + e.copies)
  {
  }

  /** Writing a dict back where `SlotDesc` found a dict cannot fail: the
      in-place update of the Python code has no failure of its own. */
  lemma WriteBackOk(inputs: Json, f: InputFile, desc: Json)
    requires SlotDesc(inputs, f).Ok? && SlotDesc(inputs, f).value.JObject?
    ensures WriteBack(inputs, f, desc).Ok?
  {
  }

  /** Writing back fills the file's own slot and no slot separate from it;
      entries under other keys stay as they were. */
  lemma WriteBackSlots(inputs: Json, f: InputFile, desc: Json)
    requires WriteBack(inputs, f, desc).Ok?
    ensures var d := WriteBack(inputs, f, desc).value;
      && inputs.JObject? && d.JObject? && f.name.Some?
      && SlotOf(d, f.name.value, f.index) == Some(desc)
      && (forall k :: k != f.name.value ==> Lookup(d.fields, k) == Lookup(inputs.fields, k))
      && (forall n, x :: SeparateFrom(n, x, f) ==> SlotOf(d, n, x) == SlotOf(inputs, n, x))
  {
    var name := f.name.value;
    var d := WriteBack(inputs, f, desc).value;
    if f.index.None? {
      assert d == SetField(inputs, name, desc).value;
    } else {
      var i := f.index.value;
      var value := Field(inputs, name).value;
      var list := SetItem(value, i, desc).value;
      assert d == SetField(inputs, name, list).value;
      assert Lookup(d.fields, name) == Some(list);
      assert SlotIn(list, Some(i)) == Some(desc);
      forall n, x | SeparateFrom(n, x, f) ensures SlotOf(d, n, x) == SlotOf(inputs, n, x) {
        if n == name {
          assert SlotIn(list, x) == SlotIn(value, x);
        }
      }
    }
  }

  /** A successful turn stages the file from its own descriptor, points
      that descriptor's `location` at the staged copy, and leaves every
      slot separate from the file's as it was. */
  lemma StagedInputSpec(jobDir: string, count: nat, f: InputFile, inputs: Json)
    requires StagedInput(jobDir, count, f, inputs).failure.None?
    ensures f.name.Some? && SlotDesc(inputs, f).Ok?
    ensures var s := StagedFile(jobDir, count, f, SlotDesc(inputs, f).value);
      && var e := StagedInput(jobDir, count, f, inputs);
      && s.failure.None? && e.next == s.next && e.copies == s.copies
      && SlotOf(e.desc, f.name.value, f.index) == Some(s.desc)
      && LocationOf(e.desc, f.name.value, f.index) == Some(JString(Target(jobDir, StagedCopy(count, f))))
      && (forall n, x :: SeparateFrom(n, x, f) ==> SlotOf(e.desc, n, x) == SlotOf(inputs, n, x))
  {
    var desc := SlotDesc(inputs, f).value;
    var s := StagedFile(jobDir, count, f, desc);
    StagedFileDesc(jobDir, count, f, desc);
    WriteBackSlots(inputs, f, s.desc);
  }

  /** A successful turn uses one counter value per file of the tree and
      makes one copy for each, in depth-first order. */
  ghost predicate CountsTree(stage: Stage) {
    forall c: nat, f: InputFile, d: Json {:trigger stage(c, f, d)} :: stage(c, f, d).failure.None? ==>
      && stage(c, f, d).next == c + |Flatten(f)|
      && stage(c, f, d).copies == CopiesFor(c, Flatten(f))
      && Stageable(Flatten(f))
  }

  /** A successful turn changes no slot separate from the file's own. */
  ghost predicate StaysInSlot(stage: Stage) {
    forall c: nat, f: InputFile, d: Json {:trigger stage(c, f, d)} :: stage(c, f, d).failure.None? ==>
      && f.name.Some?
      && forall n, x :: SeparateFrom(n, x, f) ==> SlotOf(stage(c, f, d).desc, n, x) == SlotOf(d, n, x)
  }

  /** A successful turn points the file's descriptor at the file's copy. */
  ghost predicate SetsLocation(jobDir: string, stage: Stage) {
    forall c: nat, f: InputFile, d: Json {:trigger stage(c, f, d)} :: stage(c, f, d).failure.None? ==>
      && f.name.Some?
      && LocationOf(stage(c, f, d).desc, f.name.value, f.index) == Some(JString(Target(jobDir, StagedCopy(c, f))))
  }

  /** The turn of `stage_job` keeps all three promises. */
  lemma JobStageSpec(jobDir: string)
    ensures CountsTree(JobStage(jobDir))
    ensures StaysInSlot(JobStage(jobDir))
    ensures SetsLocation(jobDir, JobStage(jobDir))
  {
    var stage := JobStage(jobDir);
    forall c: nat, f: InputFile, d: Json | stage(c, f, d).failure.None?
      ensures stage(c, f, d).next == c + |Flatten(f)|
      ensures stage(c, f, d).copies == CopiesFor(c, Flatten(f)) && Stageable(Flatten(f))
      ensures f.name.Some?
      ensures forall n, x :: SeparateFrom(n, x, f) ==> SlotOf(stage(c, f, d).desc, n, x) == SlotOf(d, n, x)
      ensures LocationOf(stage(c, f, d).desc, f.name.value, f.index) == Some(JString(Target(jobDir, StagedCopy(c, f))))
    {
      assert stage(c, f, d) == StagedInput(jobDir, c, f, d);
      StagedInputSpec(jobDir, c, f, d);
      StagedFileCopies(jobDir, c, f, SlotDesc(d, f).value);
    }
  }

  lemma {:induction false} StagedInputsCopies(stage: Stage, count: nat, files: seq<InputFile>, i: nat, inputs: Json, copies: seq<Copy>)
    requires i <= |files|
    requires CountsTree(stage)
    requires StagedInputs(stage, count, files, i, inputs, copies).failure.None?
    ensures var s := StagedInputs(stage, count, files, i, inputs, copies);
      && s.next == count + |FlattenAll(files[i..])|
      && s.copies == copies + CopiesFor(count, FlattenAll(files[i..]))
      && Stageable(FlattenAll(files[i..]))
    decreases |files| - i
  {
    if i == |files| {
      assert files[i..] == [];
    } else {
      var e := stage(count, files[i], inputs);
      StagedInputsCopies(stage, e.next, files, i + 1, e.desc, copies + e.copies);
      FlattenAllFrom(files, i);
      CopiesForAppend(count, Flatten(files[i]), FlattenAll(files[i + 1..]), e.next);
      AppendAssoc(copies, e.copies, CopiesFor(e.next, FlattenAll(files[i + 1..])));
      StageableAppend(Flatten(files[i]), FlattenAll(files[i + 1..]));
    }
  }

  /** A slot separate from every file still to be staged is left alone. */
  lemma {:induction false} StagedInputsOthers(stage: Stage, count: nat, files: seq<InputFile>, i: nat, inputs: Json, copies: seq<Copy>, n: string, x: Option<nat>)
    requires i <= |files|
    requires StaysInSlot(stage)
    requires StagedInputs(stage, count, files, i, inputs, copies).failure.None?
    requires forall j :: i <= j < |files| ==> SeparateFrom(n, x, files[j])
    ensures SlotOf(StagedInputs(stage, count, files, i, inputs, copies).desc, n, x) == SlotOf(inputs, n, x)
    decreases |files| - i
  {
    if i < |files| {
      var e := stage(count, files[i], inputs);
      StagedInputsOthers(stage, e.next, files, i + 1, e.desc, copies + e.copies, n, x);
    }
  }

  /** A successful loop is the loop up to position `j` followed by the
      loop from `j` on, started where the first part stopped. */
  lemma {:induction false} StagedInputsSplit(stage: Stage, count: nat, files: seq<InputFile>, i: nat, inputs: Json, copies: seq<Copy>, j: nat)
    requires i <= j <= |files|
    requires StagedInputs(stage, count, files, i, inputs, copies).failure.None?
    ensures var p := StagedInputs(stage, count, files[..j], i, inputs, copies);
      && p.failure.None?
      && StagedInputs(stage, count, files, i, inputs, copies) == StagedInputs(stage, p.next, files, j, p.desc, p.copies)
    decreases j - i
  {
    if i < j {
      var e := stage(count, files[i], inputs);
      StagedInputsStep(stage, count, files, i, inputs, copies);
      assert files[..j][i] == files[i];
      StagedInputsSplit(stage, e.next, files, i + 1, e.desc, copies + e.copies, j);
    }
  }

  /** The first file staged by a successful loop keeps the `location` its
      own turn gave it: the later turns stay out of its slot. */
  lemma StagedInputsFirstLocation(jobDir: string, stage: Stage, count: nat, files: seq<InputFile>, i: nat, inputs: Json, copies: seq<Copy>)
    requires i < |files|
    requires StaysInSlot(stage) && SetsLocation(jobDir, stage)
    requires StagedInputs(stage, count, files, i, inputs, copies).failure.None?
    requires SeparateSlots(files)
    ensures files[i].name.Some?
    ensures LocationOf(StagedInputs(stage, count, files, i, inputs, copies).desc, files[i].name.value, files[i].index)
      == Some(JString(Target(jobDir, StagedCopy(count, files[i]))))
  {
    var e := stage(count, files[i], inputs);
    StagedInputsStep(stage, count, files, i, inputs, copies);
    var n, x := files[i].name.value, files[i].index;
    forall b | i + 1 <= b < |files| ensures SeparateFrom(n, x, files[b]) {
      assert 0 <= i < b < |files|;
    }
    StagedInputsOthers(stage, e.next, files, i + 1, e.desc, copies + e.copies, n, x);
  }

  /** After a successful loop over input files with separate slots, the
      descriptor of the j-th file has its `location` pointing at the copy
      made for it, whose counter is the start value plus the number of
      files in the trees staged before it. */
  lemma StagedInputsLocation(jobDir: string, stage: Stage, count: nat, files: seq<InputFile>, i: nat, inputs: Json, copies: seq<Copy>, j: nat, before: seq<InputFile>)
    requires i <= j < |files| && before == files[i..j]
    requires CountsTree(stage) && StaysInSlot(stage) && SetsLocation(jobDir, stage)
    requires StagedInputs(stage, count, files, i, inputs, copies).failure.None?
    requires SeparateSlots(files)
    ensures files[j].name.Some?
    ensures LocationOf(StagedInputs(stage, count, files, i, inputs, copies).desc, files[j].name.value, files[j].index)
      == Some(JString(Target(jobDir, StagedCopy(count + |FlattenAll(before)|, files[j]))))
  {
    var p := StagedInputs(stage, count, files[..j], i, inputs, copies);
    StagedInputsSplit(stage, count, files, i, inputs, copies, j);
    StagedInputsCopies(stage, count, files[..j], i, inputs, copies);
    assert files[..j][i..] == files[i..j];
    assert p.next == count + |FlattenAll(before)|;
    StagedInputsFirstLocation(jobDir, stage, p.next, files, j, p.desc, p.copies);
  }

  /* ----- Copies on the remote file system ----- */

  /** The entries after making `copies` one after the other into the job
      directory `jobDir`. */
  function ApplyCopies(entries: map<string, Content>, jobDir: string, copies: seq<Copy>): map<string, Content>
    decreases |copies|
  {
    if copies == [] then entries
    else ApplyCopies(entries[Target(jobDir, copies[0]) := CopyOf(copies[0].source)], jobDir, copies[1..])
  }

  lemma {:induction false} ApplyCopiesAppend(entries: map<string, Content>, jobDir: string, a: seq<Copy>, b: seq<Copy>)
    ensures ApplyCopies(entries, jobDir, a + b) == ApplyCopies(ApplyCopies(entries, jobDir, a), jobDir, b)
    decreases |a|
  {
    if a == [] {
      assert a + b == b;
    } else {
      assert (a + b)[1..] == a[1..] + b;
      ApplyCopiesAppend(entries[Target(jobDir, a[0]) := CopyOf(a[0].source)], jobDir, a[1..], b);
    }
  }

  /** Pairwise different counter values. */
  predicate DistinctCounters(copies: seq<Copy>) {
    forall a, b :: 0 <= a < b < |copies| ==> copies[a].counter != copies[b].counter
  }

  /** The copies of one staging run have pairwise different counters. */
  lemma CopiesForDistinct(count: nat, files: seq<InputFile>)
    ensures DistinctCounters(CopiesFor(count, files))
  {
    forall a, b | 0 <= a < b < |files|
      ensures CopiesFor(count, files)[a].counter != CopiesFor(count, files)[b].counter
    {
      CopiesForIndex(count, files, a);
      CopiesForIndex(count, files, b);
    }
  }

  /** A path that is no copy's target keeps what it had. */
  lemma {:induction false} ApplyCopiesOther(entries: map<string, Content>, jobDir: string, copies: seq<Copy>, p: string)
    requires forall k :: 0 <= k < |copies| ==> Target(jobDir, copies[k]) != p
    ensures p in ApplyCopies(entries, jobDir, copies) <==> p in entries
    ensures p in entries ==> ApplyCopies(entries, jobDir, copies)[p] == entries[p]
    decreases |copies|
  {
    if copies != [] {
      assert Target(jobDir, copies[0]) != p;
      var rest := copies[1..];
      forall m | 0 <= m < |rest| ensures Target(jobDir, rest[m]) != p {
        assert rest[m] == copies[m + 1];
      }
      ApplyCopiesOther(entries[Target(jobDir, copies[0]) := CopyOf(copies[0].source)], jobDir, rest, p);
    }
  }

  /** Each copy of a run with distinct counters lands at its target. */
  lemma {:induction false} ApplyCopiesAt(entries: map<string, Content>, jobDir: string, copies: seq<Copy>, k: nat)
    requires DistinctCounters(copies) && k < |copies|
    ensures Target(jobDir, copies[k]) in ApplyCopies(entries, jobDir, copies)
    ensures ApplyCopies(entries, jobDir, copies)[Target(jobDir, copies[k])] == CopyOf(copies[k].source)
    decreases |copies|
  {
    var t0 := Target(jobDir, copies[0]);
    var e1 := entries[t0 := CopyOf(copies[0].source)];
    var rest := copies[1..];
    if k == 0 {
      forall m | 0 <= m < |rest| ensures Target(jobDir, rest[m]) != t0 {
        assert rest[m] == copies[m + 1];
        TargetsDistinct(jobDir, copies[0], rest[m]);
      }
      ApplyCopiesOther(e1, jobDir, rest, t0);
    } else {
      assert DistinctCounters(rest) by {
        forall a, b | 0 <= a < b < |rest| ensures rest[a].counter != rest[b].counter {
          assert rest[a] == copies[a + 1] && rest[b] == copies[b + 1];
        }
      }
      assert copies[k] == rest[k - 1];
      ApplyCopiesAt(e1, jobDir, rest, k - 1);
    }
  }
}
