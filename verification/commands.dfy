/**
 * Command-line construction in check50's C helpers: the default executable
 * name derived from a `.c` file, the optional `-o` flag, the compiler
 * command, and the command that wraps a program in valgrind.
 */
module Commands {
  import opened Options
  import opened Text

  /** Default compiler. */
  const CC: string := "clang"

  /** Default compiler flags. */
  const CFLAGS: string := "-std=c11 -ggdb3 -lcs50 -lm"

  /** The default flags, word by word. */
  const DefaultFlagWords: seq<string> := ["-std=c11", "-ggdb3", "-lcs50", "-lm"]

  /** The source-file suffix whose presence selects a default executable name. */
  const SourceSuffix: string := ".c"

  /**
   * The executable name `compile` uses: the one given, or, when none is
   * given and the file name ends in `.c`, the text before the FIRST `.c` in
   * the file name; otherwise none.
   */
  function ExeName(fileName: string, exeName: Option<string>): (r: Option<string>)
    ensures exeName.Some? ==> r == exeName
    ensures exeName.None? && !EndsWith(fileName, SourceSuffix) ==> r.None?
    ensures exeName.None? && EndsWith(fileName, SourceSuffix) ==>
      && r.Some?
      && |r.value| <= |fileName|
      && r.value == fileName[..|r.value|]
      && OccursAt(fileName, SourceSuffix, |r.value|)
      && forall j :: 0 <= j < |r.value| ==> !OccursAt(fileName, SourceSuffix, j)
  {
    if exeName.None? && EndsWith(fileName, SourceSuffix) then
      assert OccursAt(fileName, SourceSuffix, |fileName| - 2);
      Some(SplitHead(fileName, SourceSuffix))
    else exeName
  }

  /** `-o NAME` when an executable name is known, the empty string otherwise. */
  function OutFlag(exeName: Option<string>): (f: string)
    ensures exeName.None? <==> f == ""
    ensures exeName.Some? ==> f == "-o " + exeName.value
  {
    match exeName
    case Some(e) => "-o " + e
    case None => ""
  }

  /** The command line `compile` runs. */
  function CompileCommand(fileName: string, exeName: Option<string>, compiler: string, flags: string): (cmd: string)
    ensures
      && StartsWith(cmd, compiler + " " + fileName + " ")
      && EndsWith(cmd, " " + flags)
    ensures OccursAt(cmd, OutFlag(ExeName(fileName, exeName)) + " ", |compiler + " " + fileName + " "|)
    ensures |cmd| == |compiler| + |fileName| + |OutFlag(ExeName(fileName, exeName))| + |flags| + 3
  {
    var c := compiler + " " + fileName + " " + OutFlag(ExeName(fileName, exeName)) + " " + flags;
    StartsWithConcat(compiler + " " + fileName + " ", OutFlag(ExeName(fileName, exeName)) + " " + flags);
    EndsWithConcat(compiler + " " + fileName + " " + OutFlag(ExeName(fileName, exeName)), " " + flags);
    OccursAtConcat(compiler + " " + fileName + " ", OutFlag(ExeName(fileName, exeName)) + " ", flags);
    c
  }

  /** Words of the valgrind command line before the report-file option. */
  const Valgrind: string := "valgrind"
  const ShowLeakKinds: string := "--show-leak-kinds=all"
  const XmlYes: string := "--xml=yes"
  const XmlFileOption: string := "--xml-file="
  /** Ends valgrind's own options; everything after it is the program to run. */
  const Separator: string := "--"

  /** The command `valgrind` runs for the user's `command`, reporting to `xmlFile`. */
  function ValgrindCommand(xmlFile: string, command: string): (cmd: string)
    ensures StartsWith(cmd, Valgrind + " " + ShowLeakKinds + " " + XmlYes + " ")
    ensures EndsWith(cmd, " " + Separator + " " + command)
    ensures OccursAt(cmd, XmlFileOption + xmlFile + " ", |Valgrind + " " + ShowLeakKinds + " " + XmlYes + " "|)
    ensures |cmd| == |Valgrind + " " + ShowLeakKinds + " " + XmlYes + " " + XmlFileOption| + |xmlFile| + |" " + Separator + " "| + |command|
  {
    var c := Valgrind + " " + ShowLeakKinds + " " + XmlYes + " " + XmlFileOption + xmlFile + " " + Separator + " " + command;
    EndsWithConcat(Valgrind + " " + ShowLeakKinds + " " + XmlYes + " " + XmlFileOption + xmlFile, " " + Separator + " " + command);
    StartsWithConcat(Valgrind + " " + ShowLeakKinds + " " + XmlYes + " ", XmlFileOption + xmlFile + " " + Separator + " " + command);
    OccursAtConcat(Valgrind + " " + ShowLeakKinds + " " + XmlYes + " ", XmlFileOption + xmlFile + " ", Separator + " " + command);
    c
  }

  // ---------------------------------------------------------------------
  // Properties
  // ---------------------------------------------------------------------

  /** A file name whose only `.c` is its suffix loses exactly those two characters. */
  lemma ExeNameDropsSuffix(fileName: string)
    requires EndsWith(fileName, SourceSuffix)
    requires forall j :: 0 <= j < |fileName| - 2 ==> !OccursAt(fileName, SourceSuffix, j)
    ensures ExeName(fileName, None) == Some(fileName[..|fileName| - 2])
  {
    var r := ExeName(fileName, None).value;
    assert OccursAt(fileName, SourceSuffix, |fileName| - 2);
    if |r| < |fileName| - 2 {
      assert false;
    }
  }

  /** A stem without a dot, followed by `.c`, compiles to the stem. */
  lemma ExeNameOfDotFreeStem(stem: string)
    requires '.' !in stem
    ensures ExeName(stem + SourceSuffix, None) == Some(stem)
  {
    var f := stem + SourceSuffix;
    assert f[|f| - 2..] == SourceSuffix;
    forall j | 0 <= j < |f| - 2 ensures !OccursAt(f, SourceSuffix, j) {
      assert f[j..j + 2][0] == f[j] == stem[j];
    }
    ExeNameDropsSuffix(f);
    assert f[..|f| - 2] == stem;
  }

  /** `hello.c` compiles to `hello`. */
  lemma ExeNameOfHello()
    ensures ExeName("hello.c", None) == Some("hello")
  {
    ExeNameOfDotFreeStem("hello");
    assert "hello" + SourceSuffix == "hello.c";
  }

  /** The cut is at the first `.c`, not at the suffix: `my.cool.c` compiles to `my`. */
  lemma ExeNameCutsAtFirstOccurrence()
    ensures ExeName("my.cool.c", None) == Some("my")
  {
    var f := "my.cool.c";
    var r := ExeName(f, None).value;
    assert OccursAt(f, SourceSuffix, 2) by { assert f[2..4] == ".c"; }
    assert f[0..2][0] == 'm' && f[1..3][0] == 'y';
    assert |r| == 2;
    assert r == f[..2] == "my";
  }

  /**
   * The compiler receives, as space-separated words, the compiler, the file,
   * `-o` and the executable name when one is known, and then the flags.
   */
  lemma {:induction false} CompileCommandWords(fileName: string, exeName: Option<string>, compiler: string, flags: string)
    ensures Tokens(CompileCommand(fileName, exeName, compiler, flags)) ==
      Tokens(compiler) + Tokens(fileName)
      + (match ExeName(fileName, exeName)
         case Some(e) => ["-o"] + Tokens(e)
         case None => [])
      + Tokens(flags)
  {
    var o := OutFlag(ExeName(fileName, exeName));
    TokensJoin(compiler + " " + fileName + " " + o, flags);
    TokensJoin(compiler + " " + fileName, o);
    TokensJoin(compiler, fileName);
    match ExeName(fileName, exeName)
    case Some(e) =>
      assert o == "-o" + " " + e;
      TokensJoin("-o", e);
      TokensOfWord("-o");
    case None =>
      assert Tokens(o) == [];
  }

  /** Four words joined by single spaces. */
  lemma FourWords(s: string, a: string, b: string, c: string, d: string)
    requires IsWord(a) && IsWord(b) && IsWord(c) && IsWord(d)
    requires s == a + " " + b + " " + c + " " + d
    ensures Tokens(s) == [a, b, c, d]
  {
    TokensJoin(a + " " + b + " " + c, d);
    TokensJoin(a + " " + b, c);
    TokensJoin(a, b);
    TokensOfWord(a);
    TokensOfWord(b);
    TokensOfWord(c);
    TokensOfWord(d);
    QuadDisplay(a, b, c, d);
  }

  /**
   * Compiling `STEM.c` for a dot-free, space-free stem and no explicit
   * executable name runs the compiler on `STEM.c` with `-o STEM`, then the flags.
   */
  lemma CompileStemWords(stem: string, compiler: string, flags: string)
    requires IsWord(stem) && '.' !in stem && IsWord(compiler)
    ensures Tokens(CompileCommand(stem + SourceSuffix, None, compiler, flags)) ==
      [compiler, stem + SourceSuffix, "-o", stem] + Tokens(flags)
  {
    var f := stem + SourceSuffix;
    CompileCommandWords(f, None, compiler, flags);
    ExeNameOfDotFreeStem(stem);
    TokensOfWord(compiler);
    SpaceFreeConcat(stem, SourceSuffix);
    TokensOfWord(f);
    TokensOfWord(stem);
    QuadDisplayThen(compiler, f, "-o", stem, Tokens(flags));
  }

  /** With the default compiler and flags, `STEM.c` is compiled by `clang STEM.c -o STEM -std=c11 -ggdb3 -lcs50 -lm`. */
  lemma CompileDefaultsWords(stem: string)
    requires IsWord(stem) && '.' !in stem
    ensures Tokens(CompileCommand(stem + SourceSuffix, None, CC, CFLAGS)) ==
      [CC, stem + SourceSuffix, "-o", stem] + DefaultFlagWords
  {
    CompileStemWords(stem, CC, CFLAGS);
    DefaultFlagsWords();
  }

  /** The default flags are four words. */
  lemma DefaultFlagsWords()
    ensures Tokens(CFLAGS) == DefaultFlagWords
  {
    FourWords(CFLAGS, "-std=c11", "-ggdb3", "-lcs50", "-lm");
  }

  /** The valgrind command regrouped word by word from the right. */
  lemma ValgrindCommandNested(xmlFile: string, command: string)
    ensures ValgrindCommand(xmlFile, command) ==
      Valgrind + " " + (ShowLeakKinds + " " + (XmlYes + " " + ((XmlFileOption + xmlFile) + " " + (Separator + " " + command))))
  {
  }

  /** The fixed options valgrind starts with, followed by any text. */
  lemma ValgrindOptionsThen(rest: string)
    ensures Tokens(Valgrind + " " + (ShowLeakKinds + " " + (XmlYes + " " + rest))) ==
      [Valgrind, ShowLeakKinds, XmlYes] + Tokens(rest)
  {
    var t := Tokens(rest);
    var r2 := XmlYes + " " + rest;
    var r1 := ShowLeakKinds + " " + r2;
    TokensCons(XmlYes, rest);
    TokensCons(ShowLeakKinds, r2);
    PairDisplayThen(ShowLeakKinds, XmlYes, t);
    TokensCons(Valgrind, r1);
    TripleDisplayThen(Valgrind, ShowLeakKinds, XmlYes, t);
  }

  /**
   * Valgrind receives its three options, the report file, the `--`
   * separator and then the user's command word for word.
   */
  lemma ValgrindCommandWords(xmlFile: string, command: string)
    requires IsWord(xmlFile)
    ensures Tokens(ValgrindCommand(xmlFile, command)) ==
      [Valgrind, ShowLeakKinds, XmlYes, XmlFileOption + xmlFile, Separator] + Tokens(command)
  {
    var x := XmlFileOption + xmlFile;
    SpaceFreeConcat(XmlFileOption, xmlFile);
    var t := Tokens(command);
    var r4 := Separator + " " + command;
    var r3 := x + " " + r4;
    TokensCons(Separator, command);
    TokensCons(x, r4);
    PairDisplayThen(x, Separator, t);
    ValgrindOptionsThen(r3);
    QuintDisplayThen(Valgrind, ShowLeakKinds, XmlYes, x, Separator, t);
    ValgrindCommandNested(xmlFile, command);
  }
}
