/** The spawner base class of avocado/core/spawners/common.py: the spawn
    methods, the default method set, and the collection of a task's output
    files from the local filesystem. */
module SpawnersCommon {
  import opened Wrappers
  import PosixPath
  import Sequences

  /** How a runnable or task is spawned. */
  datatype SpawnMethod =
    | PythonClass            // call the run() method of an in-process object
    | StandaloneExecutable   // execute a command
    | Any                    // no preference

  /** `BaseSpawner.METHODS`: the base class declares no method. */
  const BaseMethods: seq<SpawnMethod> := []

  /** The three spawn methods are pairwise distinct, and the base class
      declares none of them. */
  lemma SpawnMethodsDistinct()
    ensures PythonClass != StandaloneExecutable
    ensures PythonClass != Any && StandaloneExecutable != Any
    ensures |BaseMethods| == 0 && Any !in BaseMethods
  {
  }

  newtype Byte = x: int | 0 <= x < 256
  type Bytes = seq<Byte>

  /** What a path names on the local filesystem. A directory holds the names
      of its entries, in the order the operating system lists them. */
  datatype Entry = RegularFile(contents: Bytes) | Directory(names: seq<string>)

  /** The local filesystem: absolute or relative path strings to entries;
      a path that is not a key does not exist. */
  type FileSystem = map<string, Entry>

  /** The exceptions raised by the spawners, or let through by them. */
  datatype Error =
    | FileNotFound(path: string)       // FileNotFoundError
    | IsADirectory(path: string)       // IsADirectoryError
    | NotADirectory(path: string)      // NotADirectoryError
    | EmptyMapping(path: string)       // ValueError: cannot mmap an empty file
    | OSError(errno: int)              // any other OSError
    | SpawnerException(message: string)
    | NotImplemented(message: string)  // NotImplementedError
    | RuntimeError(message: string)

  /** The text of a FileNotFoundError raised for `path`. */
  function NoSuchFileText(path: string): string {
    "[Errno 2] No such file or directory: '" + path + "'"
  }

  const TaskNotFoundPrefix := "Task not found: "
  const NotImplementedText := "You need to implement this method."

  predicate IsNonEmptyFile(fs: FileSystem, path: string) {
    path in fs && fs[path].RegularFile? && |fs[path].contents| > 0
  }

  /** `BaseSpawner.bytes_from_file`: the file is memory-mapped and yields its
      whole contents as one chunk. Opening a missing path or a directory
      raises, and so does mapping an empty file. */
  function BytesFromFile(fs: FileSystem, filename: string): (r: Result<seq<Bytes>, Error>)
    ensures r.Success? <==> IsNonEmptyFile(fs, filename)
    ensures r.Success? ==> r.value == [fs[filename].contents]
    ensures filename !in fs ==> r == Failure(FileNotFound(filename))
  {
    if filename !in fs then Failure(FileNotFound(filename))
    else match fs[filename]
      case Directory(_) => Failure(IsADirectory(filename))
      case RegularFile(contents) =>
        if |contents| == 0 then Failure(EmptyMapping(filename)) else Success([contents])
  }

  /** The pairs that one `for stream in bytes_from_file(...)` loop yields. */
  function Pairs(name: string, chunks: seq<Bytes>): (r: seq<(string, Bytes)>)
    ensures |r| == |chunks|
    ensures forall k :: 0 <= k < |r| ==> r[k] == (name, chunks[k])
  {
    seq(|chunks|, k requires 0 <= k < |chunks| => (name, chunks[k]))
  }

  /** What one entry of the listing contributes: a regular file with a
      non-zero size is read and each chunk paired with the file's name;
      anything else contributes nothing. */
  function Emit(fs: FileSystem, dir: string, name: string): (r: seq<(string, Bytes)>)
    ensures r == if IsNonEmptyFile(fs, PosixPath.Join(dir, name))
                 then [(name, fs[PosixPath.Join(dir, name)].contents)] else []
  {
    var path := PosixPath.Join(dir, name);
    if IsNonEmptyFile(fs, path) then
      var emitted := Pairs(name, BytesFromFile(fs, path).value);
      assert emitted[0] == (name, fs[path].contents);
      emitted
    else
      []
  }

  /** The loop over the entries of directory `dir`, in listing order. */
  function CollectOutputs(fs: FileSystem, dir: string, names: seq<string>): (r: seq<(string, Bytes)>)
    ensures |r| <= |names|
    decreases |names|
  {
    if names == [] then [] else Emit(fs, dir, names[0]) + CollectOutputs(fs, dir, names[1..])
  }

  /** Every emitted pair names an entry of the listing that is a non-empty
      regular file, and carries that file's contents. */
  lemma {:induction false} CollectOutputsSound(fs: FileSystem, dir: string, names: seq<string>)
    ensures forall p :: p in CollectOutputs(fs, dir, names) ==>
      p.0 in names && IsNonEmptyFile(fs, PosixPath.Join(dir, p.0))
      && p.1 == fs[PosixPath.Join(dir, p.0)].contents
    decreases |names|
  {
    if names != [] {
      CollectOutputsSound(fs, dir, names[1..]);
      forall p | p in CollectOutputs(fs, dir, names)
        ensures p.0 in names && IsNonEmptyFile(fs, PosixPath.Join(dir, p.0))
                && p.1 == fs[PosixPath.Join(dir, p.0)].contents
      {
        if p !in Emit(fs, dir, names[0]) {
          assert p in CollectOutputs(fs, dir, names[1..]);
          assert p.0 in names[1..];
        }
      }
    }
  }

  /** Every non-empty regular file of the listing is paired with its
      contents somewhere in the output. */
  lemma {:induction false} CollectOutputsComplete(fs: FileSystem, dir: string, names: seq<string>, n: string)
    requires n in names && IsNonEmptyFile(fs, PosixPath.Join(dir, n))
    ensures (n, fs[PosixPath.Join(dir, n)].contents) in CollectOutputs(fs, dir, names)
    decreases |names|
  {
    var rest := CollectOutputs(fs, dir, names[1..]);
    assert CollectOutputs(fs, dir, names) == Emit(fs, dir, names[0]) + rest;
    if n != names[0] {
      assert n in names[1..];
      CollectOutputsComplete(fs, dir, names[1..], n);
    }
  }

  /** The output is built entry by entry, in listing order: collecting from a
      listing split in two is collecting from each half in turn. */
  lemma {:induction false} CollectOutputsAppend(fs: FileSystem, dir: string, a: seq<string>, b: seq<string>)
    ensures CollectOutputs(fs, dir, a + b) == CollectOutputs(fs, dir, a) + CollectOutputs(fs, dir, b)
    decreases |a|
  {
    if a == [] {
      assert a + b == b;
    } else {
      assert (a + b)[0] == a[0];
      assert (a + b)[1..] == a[1..] + b;
      CollectOutputsAppend(fs, dir, a[1..], b);
      Sequences.ConcatAssoc(Emit(fs, dir, a[0]), CollectOutputs(fs, dir, a[1..]), CollectOutputs(fs, dir, b));
    }
  }

  /** One entry contributes exactly one pair when it is a non-empty regular
      file, and nothing otherwise. */
  lemma CollectOutputsSingle(fs: FileSystem, dir: string, name: string)
    ensures CollectOutputs(fs, dir, [name]) ==
      if IsNonEmptyFile(fs, PosixPath.Join(dir, name))
      then [(name, fs[PosixPath.Join(dir, name)].contents)] else []
  {
    assert [name][1..] == [];
    assert CollectOutputs(fs, dir, [name]) == Emit(fs, dir, name) + [];
  }

  /** Python's `str.isspace` for the characters a decoded byte can be, and the
      other Unicode white space. */
  predicate IsSpace(c: char) {
    ('\t' <= c <= '\r') || ('\U{1C}' <= c <= ' ') || c == '\U{85}' || c == '\U{A0}'
    || c == '\U{1680}' || ('\U{2000}' <= c <= '\U{200A}') || c == '\U{2028}' || c == '\U{2029}'
    || c == '\U{202F}' || c == '\U{205F}' || c == '\U{3000}'
  }

  /** The ASCII white space of `str.isspace`: the blank, the controls from
      tab to carriage return and the four separators 0x1C to 0x1F; no
      printable ASCII character is white space. */
  lemma IsSpaceAscii()
    ensures forall c: char :: c < '\U{80}' ==>
      (IsSpace(c) <==> c == ' ' || '\t' <= c <= '\r' || '\U{1C}' <= c <= '\U{1F}')
    ensures forall c: char :: '!' <= c <= '~' ==> !IsSpace(c)
  {
  }

  /** `s.rstrip()`: `s` without its trailing white space. */
  function RStrip(s: string): (r: string)
    ensures PosixPath.IsPrefix(r, s)
    ensures r == [] || !IsSpace(r[|r| - 1])
    ensures forall i :: |r| <= i < |s| ==> IsSpace(s[i])
  {
    if s != [] && IsSpace(s[|s| - 1]) then RStrip(s[..|s| - 1]) else s
  }

  /** The first line of a text, without its terminator. Text mode reads with
      universal newlines, so both '\n' and '\r' end a line. */
  function FirstLine(s: string): (r: string)
    ensures PosixPath.IsPrefix(r, s)
    ensures forall i :: 0 <= i < |r| ==> r[i] != '\n' && r[i] != '\r'
    ensures |r| < |s| ==> s[|r|] == '\n' || s[|r|] == '\r'
  {
    if s == [] || s[0] == '\n' || s[0] == '\r' then [] else [s[0]] + FirstLine(s[1..])
  }

  /** The pointer file's bytes as text, one character per byte. */
  function DecodeText(bs: Bytes): (r: string)
    ensures |r| == |bs|
    ensures forall i :: 0 <= i < |bs| ==> r[i] as int == bs[i] as int
  {
    seq(|bs|, i requires 0 <= i < |bs| => bs[i] as int as char)
  }

  /** `<results_dir>/test-results/<safe task id>/data`: the file that names
      the directory holding a task's output files. */
  function DataPointer(resultsDir: string, safeTaskId: string): string {
    resultsDir + "/test-results/" + safeTaskId + "/data"
  }

  /** The pointer file lies under the job's results directory, in the
      `test-results` entry named by the task, and is called `data`; the task
      id can be read back from between the two. */
  lemma DataPointerLayout(resultsDir: string, safeTaskId: string)
    ensures var p := DataPointer(resultsDir, safeTaskId);
      && PosixPath.IsPrefix(resultsDir + "/test-results/", p)
      && PosixPath.IsSuffix("/data", p)
      && p[|resultsDir| + 14..|p| - 5] == safeTaskId
  {
    var p := DataPointer(resultsDir, safeTaskId);
    assert p == (resultsDir + "/test-results/") + safeTaskId + "/data";
    assert |"/test-results/"| == 14 && |"/data"| == 5;
  }

  /** `BaseSpawner.stream_output`. The job's results directory, the
      filesystem-safe form of the task id and `~` expansion are given as
      functions. Opening the pointer file is outside the `try`, so its errors
      pass through unchanged; a missing source directory becomes
      SpawnerException; a source that is a file raises NotADirectoryError,
      which is not converted. */
  function StreamOutput(fs: FileSystem, jobId: string, taskId: string,
                        resultsDirOf: string -> string, safePath: string -> string,
                        expandUser: string -> string): (r: Result<seq<(string, Bytes)>, Error>)
    ensures var pointer := DataPointer(resultsDirOf(jobId), safePath(taskId));
      pointer !in fs ==> r == Failure(FileNotFound(pointer))
    ensures var pointer := DataPointer(resultsDirOf(jobId), safePath(taskId));
      r.Success? ==> pointer in fs && fs[pointer].RegularFile?
    ensures r.Failure? && r.error.SpawnerException? ==>
      exists src :: src !in fs && r.error.message == TaskNotFoundPrefix + NoSuchFileText(src)
  {
    var pointer := DataPointer(resultsDirOf(jobId), safePath(taskId));
    if pointer !in fs then Failure(FileNotFound(pointer))
    else match fs[pointer]
      case Directory(_) => Failure(IsADirectory(pointer))
      case RegularFile(text) =>
        var src := expandUser(RStrip(FirstLine(DecodeText(text))));
        if src !in fs then Failure(SpawnerException(TaskNotFoundPrefix + NoSuchFileText(src)))
        else match fs[src]
          case RegularFile(_) => Failure(NotADirectory(src))
          case Directory(names) => Success(CollectOutputs(fs, src, names))
  }

  /** The source directory is the first line of the pointer file, stripped
      of trailing white space and `~`-expanded. When it is a directory the
      output is the collection over its listing; when it is missing the
      error is SpawnerException and nothing is produced. */
  lemma StreamOutputSource(fs: FileSystem, jobId: string, taskId: string,
                           resultsDirOf: string -> string, safePath: string -> string,
                           expandUser: string -> string, text: Bytes)
    requires DataPointer(resultsDirOf(jobId), safePath(taskId)) in fs
    requires fs[DataPointer(resultsDirOf(jobId), safePath(taskId))] == RegularFile(text)
    ensures var src := expandUser(RStrip(FirstLine(DecodeText(text))));
      var r := StreamOutput(fs, jobId, taskId, resultsDirOf, safePath, expandUser);
      && (src in fs && fs[src].Directory? ==> r == Success(CollectOutputs(fs, src, fs[src].names)))
      && (src !in fs ==> r == Failure(SpawnerException(TaskNotFoundPrefix + NoSuchFileText(src))))
      && (src in fs && fs[src].RegularFile? ==> r == Failure(NotADirectory(src)))
  {
  }

  /** A listing of a non-empty file followed by an empty one yields exactly
      one pair: the first file's name with its contents. */
  lemma EmptyFilesAreSkipped(fs: FileSystem, dir: string, full: string, empty: string, contents: Bytes)
    requires contents != []
    requires PosixPath.Join(dir, full) in fs && fs[PosixPath.Join(dir, full)] == RegularFile(contents)
    requires PosixPath.Join(dir, empty) in fs && fs[PosixPath.Join(dir, empty)] == RegularFile([])
    ensures CollectOutputs(fs, dir, [full, empty]) == [(full, contents)]
  {
    CollectOutputsAppend(fs, dir, [full], [empty]);
    CollectOutputsSingle(fs, dir, full);
    CollectOutputsSingle(fs, dir, empty);
    assert [full] + [empty] == [full, empty];
  }

  /** The base class's `is_task_alive`: every backend must override it. */
  function BaseIsTaskAlive(handle: Option<string>): (r: Result<bool, Error>)
    ensures r.Failure? && r.error == NotImplemented(NotImplementedText)
  {
    Failure(NotImplemented(NotImplementedText))
  }

  /** The base class's `spawn_task`: every backend must override it. */
  function BaseSpawnTask(commandArgs: seq<string>): (r: Result<bool, Error>)
    ensures r.Failure? && r.error == NotImplemented(NotImplementedText)
  {
    Failure(NotImplemented(NotImplementedText))
  }
}
