/**
 * The valgrind XML report, already parsed: a sequence of `error` records
 * in document order, each with its kind, its message fields and its stack
 * of frames. Paths are sequences of components, so that "is one of this
 * path's parents" is a proper-prefix test.
 */
module Report {
  import opened Options
  import opened Text

  /** A filesystem path as its components, e.g. `["/", "home", "ubuntu"]`. */
  type Path = seq<string>

  /** `dir` is one of `path`'s parents: a proper prefix of its components. */
  predicate IsParent(dir: Path, path: Path) {
    |dir| < |path| && path[..|dir|] == dir
  }

  /** A `stack/frame` element: each child element is optional. */
  datatype Frame = Frame(obj: Option<Path>, file: Option<string>, line: Option<string>)

  /** An `error` element: `kind`, `what`, `xwhat/text` and its `stack/frame`s in order. */
  datatype ErrorRecord = ErrorRecord(kind: string, what: Option<string>, xwhatText: Option<string>, frames: seq<Frame>)

  /** Kinds starting with this prefix are leaks. */
  const LeakPrefix: string := "Leak_"

  predicate IsLeak(kind: string) {
    StartsWith(kind, LeakPrefix)
  }

  /** The record carries the message field its kind selects. */
  predicate HasMessage(e: ErrorRecord) {
    if IsLeak(e.kind) then e.xwhatText.Some? else e.what.Some?
  }

  /** Every record of the report carries the message field its kind selects. */
  predicate WellFormed(report: seq<ErrorRecord>) {
    forall i :: 0 <= i < |report| ==> HasMessage(report[i])
  }

  /** The frame's binary lies strictly under the run directory: plausibly the student's code. */
  predicate InTree(f: Frame, runDir: Path) {
    f.obj.Some? && IsParent(runDir, f.obj.value)
  }

  /** The path starts at the filesystem root. */
  predicate IsAbsolute(path: Path) {
    |path| > 0 && path[0] == "/"
  }

  /**
   * `Path(path).parents`, nearest first: every shorter prefix down to the
   * root for an absolute path, and down to `.` (no components) otherwise.
   */
  function Parents(path: Path): (ps: seq<Path>)
    ensures |ps| == if IsAbsolute(path) then |path| - 1 else |path|
    ensures forall i :: 0 <= i < |ps| ==> ps[i] == path[..|path| - 1 - i]
  {
    var n := if IsAbsolute(path) then |path| - 1 else |path|;
    seq(n, i requires 0 <= i < n => path[..|path| - 1 - i])
  }

  /**
   * The prefix test agrees with `.parents` except for the empty directory
   * above an absolute path: `.` is never a parent of `/...`.
   */
  lemma IsParentAmongParents(dir: Path, path: Path)
    ensures dir in Parents(path) <==> IsParent(dir, path) && (dir != [] || !IsAbsolute(path))
  {
    var ps := Parents(path);
    if IsParent(dir, path) && (dir != [] || !IsAbsolute(path)) {
      var i := |path| - 1 - |dir|;
      assert ps[i] == dir;
    }
  }

  /** The empty directory is a parent in the model but not in `.parents`. */
  lemma EmptyDirAboveAbsolutePath()
    ensures IsParent([], ["/", "x"])
    ensures [] !in Parents(["/", "x"])
  {
    IsParentAmongParents([], ["/", "x"]);
  }

  /** For a non-empty run directory, a frame is in the tree exactly when its `obj` is present and the run directory is among its `.parents`. */
  lemma InTreeAmongParents(f: Frame, runDir: Path)
    requires runDir != []
    ensures InTree(f, runDir) <==> f.obj.Some? && runDir in Parents(f.obj.value)
  {
    if f.obj.Some? {
      IsParentAmongParents(runDir, f.obj.value);
    }
  }

  /** Valgrind's leak kinds select `xwhat`; its other memcheck kinds do not. */
  lemma LeakKinds()
    ensures IsLeak("Leak_DefinitelyLost") && IsLeak("Leak_IndirectlyLost")
    ensures IsLeak("Leak_PossiblyLost") && IsLeak("Leak_StillReachable")
    ensures !IsLeak("InvalidRead") && !IsLeak("InvalidWrite") && !IsLeak("UninitCondition")
    ensures !IsLeak("Leak") && !IsLeak("leak_DefinitelyLost")
  {
    DiffersAt("InvalidRead", LeakPrefix, 0);
    DiffersAt("InvalidWrite", LeakPrefix, 0);
    DiffersAt("UninitCondition", LeakPrefix, 0);
    DiffersAt("leak_DefinitelyLost", LeakPrefix, 0);
  }
}
