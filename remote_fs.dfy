/** The remote resource as the back end sees it through cerulean: a file
    system of paths and an install-script scheduler. File contents are
    recorded by what was put there, so that serialisation stays opaque. */
module RemoteFs {
  import opened Json
  import opened InputFiles

  datatype Content =
    | Directory
    | Bytes(data: seq<byte>)
    | Text(text: string)
    /** `json.dumps` of a document. */
    | JsonText(doc: Json)
    /** A copy of the file at `path`. */
    | CopyOf(path: string)

  /** `dir / name` on a cerulean path, joined as text: an empty name adds
      nothing, and otherwise the two are joined by one `/`. A name that is
      absolute, or that has `.`, `..` or doubled `/` components, is not
      normalised the way a path object would normalise it. */
  function JoinPath(dir: string, name: string): (p: string)
    ensures name == [] ==> p == dir
    ensures name != [] ==> p == dir + "/" + name
  {
    if name == [] then dir else dir + "/" + name
  }

  /** `path` is `dir` itself or lies inside it. */
  predicate Under(path: string, dir: string) {
    path == dir || dir + "/" <= path
  }

  /** The entries after `mkdir(exists_ok=True)`: an existing entry is left
      alone. */
  function WithDir(entries: map<string, Content>, path: string): (r: map<string, Content>)
    ensures path in r && r.Keys == entries.Keys + {path}
    ensures forall p :: p in entries ==> r[p] == entries[p]
    ensures path !in entries ==> r[path] == Directory
  {
    if path in entries then entries else entries[path := Directory]
  }

  /** The entries that a recursive removal of `dir` leaves. */
  function Removed(entries: map<string, Content>, dir: string): (r: map<string, Content>)
    ensures forall p :: p in r <==> p in entries && !Under(p, dir)
    ensures forall p :: p in r ==> r[p] == entries[p]
  {
    map p | p in entries && !Under(p, dir) :: entries[p]
  }

  lemma PrefixCancel(a: string)
    ensures forall q1, q2 :: a + q1 == a + q2 ==> q1 == q2
    ensures forall q :: a <= a + q
  {
    forall q1, q2 | a + q1 == a + q2 ensures q1 == q2 {
      assert q1 == (a + q1)[|a|..];
      assert q2 == (a + q2)[|a|..];
    }
    forall q ensures a <= a + q {
      assert (a + q)[..|a|] == a;
    }
  }

  /** The entries after copying the local tree `files` (relative path to
      content) to `dir`, overwriting what is there. */
  function CopiedTree(entries: map<string, Content>, dir: string, files: map<string, Content>): (r: map<string, Content>)
    ensures dir in r && r[dir] == Directory
    ensures forall q :: q in files ==> dir + "/" + q in r && r[dir + "/" + q] == files[q]
    ensures forall p :: p in entries && !Under(p, dir) ==> p in r && r[p] == entries[p]
  {
    PrefixCancel(dir + "/");
    var placed := map q | q in files :: dir + "/" + q := files[q];
    (entries + placed)[dir := Directory]
  }

  class FileSystem {
    var entries: map<string, Content>

    constructor (entries: map<string, Content>)
      ensures this.entries == entries
    {
      this.entries := entries;
    }

    /** `mkdir(exists_ok=True)`: an existing entry is left alone. */
    method MakeDir(path: string)
      modifies this
      ensures entries == WithDir(old(entries), path)
    {
      if path !in entries {
        entries := entries[path := Directory];
      }
    }

    /** `write_bytes`, `write_text` and copying a single file. */
    method Write(path: string, content: Content)
      modifies this
      ensures entries == old(entries)[path := content]
    {
      entries := entries[path := content];
    }

    /** `rmdir(recursive=True)`. */
    method RemoveTree(dir: string)
      modifies this
      ensures entries == Removed(old(entries), dir)
    {
      entries := Removed(entries, dir);
    }

    /** `cerulean.copy` of a local directory tree onto `dir`. */
    method CopyTree(dir: string, files: map<string, Content>)
      modifies this
      ensures entries == CopiedTree(old(entries), dir, files)
    {
      entries := CopiedTree(entries, dir, files);
    }
  }

  /** What the install step submits: a command, its arguments and its
      environment. */
  datatype JobDescription = JobDescription(command: string, arguments: seq<string>, environment: seq<(string, string)>)

  /** The scheduler the install script runs on; how a script ends is
      outside the model and given as `exitCodeOf`. */
  class Scheduler {
    var submitted: seq<JobDescription>
    const exitCodeOf: JobDescription -> int

    constructor (exitCodeOf: JobDescription -> int)
      ensures submitted == [] && this.exitCodeOf == exitCodeOf
    {
      submitted := [];
      this.exitCodeOf := exitCodeOf;
    }

    /** `submit` followed by `wait`. */
    method SubmitAndWait(job: JobDescription) returns (exitCode: int)
      modifies this
      ensures submitted == old(submitted) + [job]
      ensures exitCode == exitCodeOf(job)
    {
      submitted := submitted + [job];
      exitCode := exitCodeOf(job);
    }
  }
}
