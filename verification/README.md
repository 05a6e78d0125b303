# check50 C helpers — a Dafny model

check50 is a grading framework. Its C helpers do three things. They compile a
student's `.c` file, run a program under valgrind, and after the check read
valgrind's XML report. This project models the pure logic of those helpers
and proves properties about it:

- **Command construction** (module `Commands`, `commands.dfy`). `compile`
  derives the default executable name, decides whether to emit `-o NAME`, and
  joins compiler, file, out-flag and flags with single spaces. `valgrind`
  wraps the user's command as
  `valgrind --show-leak-kinds=all --xml=yes --xml-file=F -- CMD`.
  The default executable name is the text before the *first* `.c` in the
  file name, not the name minus its `.c` suffix: `my.cool.c` compiles to `my`.
  The model keeps this behaviour and proves both the general rule and the
  quirk. To state what the compiler and valgrind receive, a command line is
  split into its space-separated words (`Text.Tokens`).
- **Report analysis** (module `ValgrindCheck`, `check_valgrind.dfy`). The
  report arrives already parsed (module `Report`, `report.dfy`): a
  sequence of error records, each with a kind, optional `what` and
  `xwhat/text`, and frames with optional `obj`, `file` and `line`. Paths are
  sequences of components, so "the run directory is one of `obj`'s parents"
  means "a proper component prefix". The pass does the following:
  1. Log a header line.
  2. Build one message per record. A message is a tab, then the body
     (`xwhat/text` for `Leak_` kinds, `what` otherwise), then at most one
     `": (file: F, line: L)"` suffix. The suffix comes from the first frame
     under the run directory, and only when that frame has both a file and a
     line.
  3. Log each distinct message once, in order of first occurrence.
  4. Fail exactly when something was logged.
- **De-duplication** (module `Dedup`, `dedup.dfy`). `Distinct` is the
  reference definition: keep each element at its first occurrence. The
  seen-set loop of `CheckValgrind` is proved to compute it.

The docstring of `compile` (check50/c.py:15) describes the default name as
"file_name minus .c". The code cuts at the first `.c` instead (check50/c.py:19),
and the model follows the code.

## Model

| member | source | states |
|---|---|---|
| Commands.ExeName | check50/c.py:18-19 | An explicit name is kept unchanged. With no name and a file not ending in `.c`, there is no name. Otherwise the name is the prefix of the file name that ends where `.c` first occurs, and no earlier `.c` exists. |
| Commands.ExeNameDropsSuffix | check50/c.py:18-19 | If the only `.c` in the file name is its suffix, the default name is the file name minus its last two characters. |
| Commands.ExeNameOfDotFreeStem | check50/c.py:14-19 | `STEM.c` with no dot in STEM compiles to STEM, as the docstring promises ("file_name minus .c"). |
| Commands.ExeNameOfHello | check50/c.py:14-19 | `hello.c` compiles to `hello`. |
| Commands.ExeNameCutsAtFirstOccurrence | check50/c.py:19 | The cut is at the first `.c`: `my.cool.c` compiles to `my`, not `my.cool`. |
| Commands.OutFlag | check50/c.py:21 | The out-flag is empty exactly when no executable name is known, and otherwise it is `-o ` followed by the name. |
| Commands.CompileCommand | check50/c.py:23 | The command starts with the compiler, a space, the file name and a space. The out-flag and one space follow right there, and the command ends with a space and the flags. Its length is the four parts' lengths plus three, so exactly one space separates each pair of parts and nothing else is added. |
| Commands.CompileCommandWords | check50/c.py:18-23 | The command's words are the compiler's, then the file's, then `-o` and the executable name's words when a name is known, then the flags' words. |
| Commands.CompileStemWords | check50/c.py:18-23 | For `STEM.c` and no explicit name, the command's words are exactly compiler, `STEM.c`, `-o`, `STEM`, then the flags' words. |
| Commands.DefaultFlagsWords | check50/c.py:10 | The default flags are the four words `-std=c11 -ggdb3 -lcs50 -lm`. |
| Commands.CompileDefaultsWords | check50/c.py:9-23 | With the default compiler and flags, `STEM.c` is compiled by `clang STEM.c -o STEM -std=c11 -ggdb3 -lcs50 -lm`. |
| Commands.ValgrindCommand | check50/c.py:32 | The command starts with `valgrind `. It continues with `--show-leak-kinds=all --xml=yes ` and then `--xml-file=F `. It ends with ` -- ` followed by the user's command verbatim. Its length is that of the fixed text plus the report-file name and the command, so nothing else is added. |
| Commands.ValgrindCommandWords | check50/c.py:32 | For a report-file name without spaces, valgrind receives exactly `--show-leak-kinds=all`, `--xml=yes`, `--xml-file=F` and `--`, then the words of the user's command. |
| Text.SplitHead | check50/c.py:19 | `s.split(sep)[0]` is a prefix of `s`, does not contain `sep`, and either ends where `sep` first occurs or is all of `s` when `sep` never occurs. |
| Report.IsLeak | check50/c.py:49 | A kind is a leak exactly when it starts with `Leak_`. |
| Report.LeakKinds | check50/c.py:49 | Valgrind's four `Leak_` kinds are leaks. `InvalidRead`, `InvalidWrite`, `UninitCondition`, `Leak` and a lower-case `leak_` kind are not. |
| Report.IsParent | check50/c.py:57 | The run directory is one of a path's parents when its components are a proper prefix of the path's components. |
| Report.IsParentAmongParents | check50/c.py:57 | The prefix test holds exactly when the directory is among `Path(obj).parents` (nearest first, down to the root or to `.`). The one exception is the empty directory above an absolute path, which the prefix test accepts. |
| Report.EmptyDirAboveAbsolutePath | check50/c.py:57 | The exception is real: the empty directory is a prefix-parent of `/x` but not among its `.parents`. |
| Report.InTree | check50/c.py:56-57 | A frame is in the tree when it has an `obj` and the run directory is one of that path's parents. |
| Report.InTreeAmongParents | check50/c.py:56-57 | For a non-empty run directory, a frame is in the tree exactly when `obj is not None and run_dir in Path(obj).parents`. |
| ValgrindCheck.Body | check50/c.py:46-49 | For `Leak_` kinds the message body is the `xwhat/text` field; for every other kind it is the `what` field. |
| ValgrindCheck.MessageBodySelection | check50/c.py:49-52 | A leak's message starts with a tab and its `xwhat/text`; any other record's message starts with a tab and its `what`. |
| ValgrindCheck.FirstInTree | check50/c.py:55-57 | The search returns the first frame whose `obj` has the run directory as a proper parent. All earlier frames lack `obj` or lie outside the tree. No index is returned only when no frame is in the tree. |
| ValgrindCheck.FirstInTreeAt | check50/c.py:55-61 | An in-tree frame with no in-tree frame before it is the frame the search stops at. |
| ValgrindCheck.Location | check50/c.py:55-61 | The suffix is empty or a single `": (file: F, line: L)"`. It is non-empty only when an in-tree frame exists. |
| ValgrindCheck.Message | check50/c.py:52-63 | A message is a tab and the selected body, optionally followed by exactly one location suffix and nothing else. |
| ValgrindCheck.MessageFromFirstInTreeFrame | check50/c.py:55-63 | Only the first in-tree frame is consulted. If it has both file and line, the message ends with its location. If it lacks either, the message has no suffix, even when later in-tree frames have both. |
| ValgrindCheck.MessageWithoutInTreeFrame | check50/c.py:55-63 | A record with no frame under the run directory gives just the tab and the body. |
| ValgrindCheck.LocationSkipsOutOfTreeFrame | check50/c.py:56-57 | A leading frame with a missing or out-of-tree `obj` does not affect the location. |
| ValgrindCheck.Messages | check50/c.py:44-63 | There is one message per error record, in document order, and each is the message of its record. |
| ValgrindCheck.CheckValgrind | check50/c.py:35-70 | The seen-set pass logs the header followed by exactly the reference de-duplication of the record messages. The check fails iff the report has at least one error record. |
| ValgrindCheck.LoggedMessages | check50/c.py:43-70 | After the header, no message is logged twice and at most one line is logged per record. Every record's message is logged, and only record messages are. Something is logged iff the report has a record, so an empty report passes with only the header. |
| Dedup.Distinct | check50/c.py:43-44 | De-duplication keeps every element and adds none. Its result has no duplicates, is no longer than its input, and is empty only for empty input. |
| Dedup.SeenSetStep | check50/c.py:64-66 | One step of the seen-set loop keeps the invariant. A message already reported changes nothing. A new one is appended and becomes reported. |
| Dedup.DistinctCardinality | check50/c.py:43-44 | The number of logged messages equals the size of the set of messages, the final `reported` set. |
| Dedup.DistinctKeepsFirstOccurrenceOrder | check50/c.py:44-66 | Logged messages appear in the order of their first occurrence among the records. |

## Left out

- `run(...)` and `.exit(0)` (check50/c.py:23, 32): process execution and the exit-status check belong to the framework. The model builds the command strings only.
- Splitting of a command into words: `Text.Tokens` splits on runs of spaces. It does not model shell quoting or other whitespace. That parsing belongs to the framework's process runner, which is not part of this model.
- `tempfile.NamedTemporaryFile` and its lifetime (check50/c.py:28): the report file's name is a parameter of `Commands.ValgrindCommand`.
- `internal.register.after` (check50/c.py:29): deferred scheduling is framework behaviour. `ValgrindCheck.CheckValgrind` is the callback itself.
- XML parsing with `xml.etree` (check50/c.py:40, 44, 46, 55-58): the input is the already-parsed `Report.ErrorRecord` sequence.
- Records without a `kind` or without the field their kind selects: the source raises `AttributeError`. The model requires the field to be present (`Report.HasMessage`) and does not model the crash.
- Elements with no text: a present but empty `<file/>` or `<line/>` would format as `None`, and an empty `<obj/>` would make `Path` raise. A textless `<kind/>` makes `kind.startswith` raise `AttributeError` (check50/c.py:49). A textless `<what/>` or `<xwhat><text/></xwhat>` puts `None` into the message, and the join raises `TypeError` (check50/c.py:63). The model takes all these texts as present strings and does not model the crashes.
- `Path(...).parents` beyond a component-prefix test: no normalisation, symlinks, `..` resolution or relative run directories. An empty `runDir` is a parent of every non-empty path in the model, while `Path(".")` is never among the parents of an absolute path (`Report.EmptyDirAboveAbsolutePath`). The run directory check50 sets is absolute, so `Report.InTreeAmongParents` assumes it is non-empty.
- The `log` sink and the `Failure` exception: they are a returned sequence of lines and a boolean. The failure's fixed text is not modelled.
- The `internal.run_dir` global: it is an explicit `runDir` parameter.
