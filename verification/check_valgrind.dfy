/**
 * The deferred pass that reads valgrind's report: one message per error
 * record (the kind-selected body, plus the location of the first frame in
 * the student's tree when that frame has one), each distinct message
 * logged once, and a failure exactly when anything was logged.
 */
module ValgrindCheck {
  import opened Options
  import opened Text
  import opened Report
  import opened Dedup

  /** Logged before the report is read. */
  const Header: string := "checking for valgrind errors... "

  /** Every message starts with this indent marker. */
  const Indent: string := "\t"

  /** The text of a record's message: `xwhat/text` for leaks, `what` otherwise. */
  function Body(e: ErrorRecord): (b: string)
    requires HasMessage(e)
    ensures IsLeak(e.kind) ==> e.xwhatText == Some(b)
    ensures !IsLeak(e.kind) ==> e.what == Some(b)
  {
    if IsLeak(e.kind) then e.xwhatText.value else e.what.value
  }

  /** The index of the first frame whose binary lies strictly under `runDir`. */
  function FirstInTree(frames: seq<Frame>, runDir: Path): (r: Option<nat>)
    ensures r.Some? ==> r.value < |frames| && InTree(frames[r.value], runDir)
    ensures r.Some? ==> forall j :: 0 <= j < r.value ==> !InTree(frames[j], runDir)
    ensures r.None? ==> forall j :: 0 <= j < |frames| ==> !InTree(frames[j], runDir)
  {
    if frames == [] then None
    else if InTree(frames[0], runDir) then Some(0)
    else
      match FirstInTree(frames[1..], runDir)
      case None => None
      case Some(i) => Some(i + 1)
  }

  /** The location suffix for a source file and line. */
  function LocationText(file: string, line: string): string {
    ": (file: " + file + ", line: " + line + ")"
  }

  /** `s` is a location suffix for some file and line. */
  ghost predicate IsLocationText(s: string) {
    exists file, line :: s == LocationText(file, line)
  }

  /**
   * The location suffix of a stack: that of the first in-tree frame when it
   * has both a file and a line, and nothing otherwise.
   */
  function Location(frames: seq<Frame>, runDir: Path): (loc: string)
    ensures loc == [] || IsLocationText(loc)
    ensures loc != [] ==> FirstInTree(frames, runDir).Some?
  {
    match FirstInTree(frames, runDir)
    case None => ""
    case Some(i) =>
      var f := frames[i];
      if f.file.Some? && f.line.Some? then LocationText(f.file.value, f.line.value) else ""
  }

  /**
   * The message reported for one error record: the indent marker, the
   * body, and at most one location suffix.
   */
  function Message(e: ErrorRecord, runDir: Path): (m: string)
    requires HasMessage(e)
    ensures StartsWith(m, Indent + Body(e))
    ensures var rest := m[|Indent + Body(e)|..]; rest == [] || IsLocationText(rest)
  {
    var m := Indent + Body(e) + Location(e.frames, runDir);
    assert m[..|Indent + Body(e)|] == Indent + Body(e);
    assert m[|Indent + Body(e)|..] == Location(e.frames, runDir);
    m
  }

  /** The message of every record, in document order. */
  function Messages(report: seq<ErrorRecord>, runDir: Path): (ms: seq<string>)
    requires WellFormed(report)
    ensures |ms| == |report|
    ensures forall i :: 0 <= i < |report| ==> ms[i] == Message(report[i], runDir)
  {
    seq(|report|, i requires 0 <= i < |report| => Message(report[i], runDir))
  }

  /**
   * Reads the report: logs the header, then each distinct message once in
   * order of first occurrence, and fails exactly when a message was logged.
   */
  method CheckValgrind(report: seq<ErrorRecord>, runDir: Path) returns (log: seq<string>, failed: bool)
    requires WellFormed(report)
    ensures log == [Header] + Distinct(Messages(report, runDir))
    ensures failed <==> |report| > 0
  {
    ghost var msgs := Messages(report, runDir);
    var logged: seq<string> := [];
    var reported: set<string> := {};
    for i := 0 to |report|
      invariant logged == Distinct(msgs[..i])
      invariant reported == Elements(msgs[..i])
    {
      var msg := Message(report[i], runDir);
      SeenSetStep(msgs, i, logged, reported);
      if msg !in reported {
        logged := logged + [msg];
        reported := reported + {msg};
      }
    }
    assert msgs[..|report|] == msgs;
    log := [Header] + logged;
    failed := reported != {};
  }

  // ---------------------------------------------------------------------
  // Properties
  // ---------------------------------------------------------------------

  /** A frame in the tree with no in-tree frame before it is the one the search finds. */
  lemma FirstInTreeAt(frames: seq<Frame>, runDir: Path, i: nat)
    requires i < |frames| && InTree(frames[i], runDir)
    requires forall j :: 0 <= j < i ==> !InTree(frames[j], runDir)
    ensures FirstInTree(frames, runDir) == Some(i)
  {
  }

  /**
   * The location comes from the first in-tree frame alone: its file and
   * line when it has both, and nothing when it lacks either, whatever the
   * frames after it hold.
   */
  lemma MessageFromFirstInTreeFrame(e: ErrorRecord, runDir: Path, i: nat)
    requires HasMessage(e)
    requires i < |e.frames| && InTree(e.frames[i], runDir)
    requires forall j :: 0 <= j < i ==> !InTree(e.frames[j], runDir)
    ensures var f := e.frames[i];
      Message(e, runDir) ==
        Indent + Body(e) + (if f.file.Some? && f.line.Some? then LocationText(f.file.value, f.line.value) else "")
  {
    FirstInTreeAt(e.frames, runDir, i);
  }

  /** A record none of whose frames is in the tree gets no location. */
  lemma MessageWithoutInTreeFrame(e: ErrorRecord, runDir: Path)
    requires HasMessage(e)
    requires forall j :: 0 <= j < |e.frames| ==> !InTree(e.frames[j], runDir)
    ensures Message(e, runDir) == Indent + Body(e)
  {
  }

  /**
   * What the analysis logs after its header: no message twice, at most one
   * line per record, every record's message, and only record messages; something is
   * logged exactly when the report has a record.
   */
  lemma LoggedMessages(report: seq<ErrorRecord>, runDir: Path)
    requires WellFormed(report)
    ensures var logged := Distinct(Messages(report, runDir));
      && NoDuplicates(logged)
      && |logged| <= |report|
      && (forall i :: 0 <= i < |report| ==> Message(report[i], runDir) in logged)
      && (forall k :: 0 <= k < |logged| ==> logged[k] in Messages(report, runDir))
      && (|logged| > 0 <==> |report| > 0)
  {
  }

  /** A frame whose binary is missing or outside the tree is skipped. */
  lemma LocationSkipsOutOfTreeFrame(f: Frame, frames: seq<Frame>, runDir: Path)
    requires !InTree(f, runDir)
    ensures Location([f] + frames, runDir) == Location(frames, runDir)
  {
    assert ([f] + frames)[1..] == frames;
  }

  /** Leaks report `xwhat/text`, every other kind reports `what`; the stack only adds a suffix. */
  lemma MessageBodySelection(e: ErrorRecord, runDir: Path)
    requires HasMessage(e)
    ensures IsLeak(e.kind) ==> StartsWith(Message(e, runDir), Indent + e.xwhatText.value)
    ensures !IsLeak(e.kind) ==> StartsWith(Message(e, runDir), Indent + e.what.value)
  {
  }
}
