/** The line store of a compilation unit (compiler/driver/source_file.cpp).
    Lines are kept with their terminating newline and are addressed from 1. */
module SourceFiles {
  import opened Wrappers
  import opened Errors

  /** Each raw line followed by "\n", in order. */
  function Terminated(raw: seq<string>): (r: seq<string>)
    ensures |r| == |raw|
    ensures forall i :: 0 <= i < |raw| ==> r[i] == raw[i] + "\n"
  {
    if raw == [] then [] else Terminated(raw[..|raw| - 1]) + [raw[|raw| - 1] + "\n"]
  }

  /** What the file-reading constructor stores for the lines std::getline
      produced: the terminated lines, or the single line "\n" for an empty file. */
  function FileLines(raw: seq<string>): seq<string> {
    if raw == [] then ["\n"] else Terminated(raw)
  }

  predicate EndsInNewline(line: string) { |line| > 0 && line[|line| - 1] == '\n' }

  /** A file's line list is never empty and every stored line ends in "\n". */
  lemma FileLinesShape(raw: seq<string>)
    ensures |FileLines(raw)| >= 1
    ensures forall i :: 0 <= i < |FileLines(raw)| ==> EndsInNewline(FileLines(raw)[i])
    ensures raw != [] ==> |FileLines(raw)| == |raw|
  {
  }

  /** lines.at(n - 1): the n-th line counting from 1, or the out_of_range
      exception. */
  function LineAt(lines: seq<string>, n: int): (r: Result<string, Error>)
    ensures r.Ok? <==> 1 <= n <= |lines|
    ensures r.Ok? ==> r.value == lines[n - 1]
  {
    if 1 <= n <= |lines| then Ok(lines[n - 1]) else Err(Internal("vector::_M_range_check"))
  }

  /** The vector constructor given no lines stores none, and then line 1,
      which a lexer reads first, is the out_of_range error. */
  lemma NoLinesNoFirstLine()
    ensures Terminated([]) == [] && LineAt(Terminated([]), 1).Err?
  {
  }

  class SourceFile {
    const filename: string
    var lines: seq<string>

    /** The constructor used by the tests: the file is named "testing". */
    constructor FromLines(src: seq<string>)
      ensures filename == "testing"
      ensures lines == Terminated(src)
    {
      filename := "testing";
      lines := [];
      new;
      var i := 0;
      while i < |src|
        invariant 0 <= i <= |src|
        invariant lines == Terminated(src[..i])
      {
        assert src[..i + 1][..i] == src[..i];
        lines := lines + [src[i] + "\n"];
        i := i + 1;
      }
      assert src[..|src|] == src;
    }

    /** The reading constructor, given the lines std::getline returned. */
    constructor FromFile(name: string, raw: seq<string>)
      ensures filename == name
      ensures lines == FileLines(raw)
    {
      filename := name;
      lines := [];
      new;
      var i := 0;
      while i < |raw|
        invariant 0 <= i <= |raw|
        invariant lines == Terminated(raw[..i])
      {
        assert raw[..i + 1][..i] == raw[..i];
        lines := lines + [raw[i] + "\n"];
        i := i + 1;
      }
      assert raw[..|raw|] == raw;
      if lines == [] {
        lines := ["\n"];
      }
    }

    function GetLine(n: int): (r: Result<string, Error>)
      reads this
      ensures r.Ok? <==> 1 <= n <= Length()
      ensures r.Ok? ==> r.value == lines[n - 1]
    {
      LineAt(lines, n)
    }

    function Length(): (r: int)
      reads this
      ensures r == |lines|
    {
      |lines|
    }
  }
}
