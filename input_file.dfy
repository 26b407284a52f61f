/** The InputFile record of cerise/back_end/input_file.py: a file named in
    an input or output binding, with its CWL secondary files. The record
    gets the fifth field `index` that the callers pass and read: the
    position of the file in an array-valued binding entry; and the
    attribute `source` that the callers set after construction: the path
    the file is copied from when it is staged. */
module InputFiles {
  import opened Wrappers
  import opened Json

  newtype byte = b: int | 0 <= b < 256

  /** `location` holds whatever the binding's `location` entry held; the
      code that uses it needs a string. `source` is `None` until a caller
      sets it: the resolver in cerise/back_end/cwl.py never does, the code
      that fetches local input files is not part of this model, and
      destaging sets it to the file's remote path. */
  datatype InputFile = InputFile(
    name: Option<string>,
    location: Json,
    content: Option<seq<byte>>,
    secondaryFiles: seq<InputFile>,
    index: Option<nat>,
    source: Option<string>)

  /** The constructor keeps each of its four arguments (and the callers'
      index) as the field of the same name, the secondary files in their
      order, and leaves `source` unset; two records are the same exactly
      when all their fields are. */
  lemma InputFileFields(name: Option<string>, location: Json, content: Option<seq<byte>>, secondaryFiles: seq<InputFile>, index: Option<nat>, other: InputFile)
    ensures var f := InputFile(name, location, content, secondaryFiles, index, None);
      && f.name == name && f.location == location && f.content == content
      && f.secondaryFiles == secondaryFiles && f.index == index && f.source.None?
      && (f == other <==> other.name == name && other.location == location && other.content == content
                          && other.secondaryFiles == secondaryFiles && other.index == index && other.source.None?)
  {
  }

  /** The file and all its secondary files, depth first, each file before
      its own secondary files (the order in which staging visits them). */
  function Flatten(f: InputFile): (fs: seq<InputFile>)
    ensures |fs| >= 1 && fs[0] == f
    decreases f, 1
  {
    [f] + FlattenAll(f.secondaryFiles)
  }

  /** The trees of a list of files, one after the other. */
  function FlattenAll(files: seq<InputFile>): seq<InputFile>
    decreases files, 0
  {
    if files == [] then [] else Flatten(files[0]) + FlattenAll(files[1..])
  }

  lemma {:induction false} FlattenAllAppend(a: seq<InputFile>, b: seq<InputFile>)
    ensures FlattenAll(a + b) == FlattenAll(a) + FlattenAll(b)
    decreases |a|
  {
    if a != [] {
      assert (a + b)[1..] == a[1..] + b;
      FlattenAllAppend(a[1..], b);
    } else {
      assert a + b == b;
    }
  }

  /** The location as a string, or the empty string when it is not one. */
  function LocationText(f: InputFile): string {
    if f.location.JString? then f.location.s else ""
  }

  /** The source path, or the empty string when none was set. */
  function SourceText(f: InputFile): string {
    if f.source.Some? then f.source.value else ""
  }
}
