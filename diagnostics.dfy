/** The three-line diagnostic layout (compiler/errors/error_msg.h):

      file:line:col: message
       line | <source line>
           |     ^^^^

    The caret line is padded so that the carets sit under the columns the
    location covers. */
module Diagnostics {
  import opened Wrappers
  import opened Strings
  import opened Locations
  import opened Errors
  import SourceFiles

  /** The gutter in front of the quoted source line: " " + line + " | ". */
  function Gutter(line: nat): string { " " + NatToString(line) + " | " }

  function Header(filename: string, loc: Location, message: string): string {
    filename + ":" + IntToString(loc.line) + ":" + IntToString(loc.startCol) + ": " + message + "\n"
  }

  function CaretLine(line: nat, startCol: nat, endCol: nat): string
    requires startCol >= 1 && endCol >= startCol
  {
    Repeat(' ', |NatToString(line)|) + "  | " + Repeat(' ', startCol - 1) + Repeat('^', endCol - startCol) + "\n"
  }

  /** token_message. Reading a line outside the file throws out_of_range;
      a start column below 1 or an end column before the start column make a
      std::string of size_t(-1) characters, which throws length_error. */
  function TokenMessage(filename: string, lines: seq<string>, loc: Location, message: string): (r: Result<string, Error>)
    ensures r.Ok? <==> 1 <= loc.line <= |lines| && 1 <= loc.startCol <= loc.endCol
    ensures r.Ok? ==> r.value == Header(filename, loc, message) + Gutter(loc.line) + lines[loc.line - 1]
                                 + CaretLine(loc.line, loc.startCol, loc.endCol)
  {
    var codeLine :- SourceFiles.LineAt(lines, loc.line);
    if loc.startCol < 1 || loc.endCol < loc.startCol then
      Err(Internal("basic_string::_M_create"))
    else
      Ok(Header(filename, loc, message) + Gutter(loc.line) + codeLine + CaretLine(loc.line, loc.startCol, loc.endCol))
  }

  /** The first line names the file and the start position, then the
      message; a well-formed header ends in its only newline when the
      message and file name have none. */
  lemma HeaderStartsWithPosition(filename: string, loc: Location, message: string)
    requires loc.line >= 1 && loc.startCol >= 1
    ensures Header(filename, loc, message)
            == filename + ":" + NatToString(loc.line) + ":" + NatToString(loc.startCol) + ": " + message + "\n"
  {
  }

  /** The caret line: as many leading non-carets as the gutter plus
      startCol - 1, then endCol - startCol carets, then the newline. Since the
      gutter has the same width on the quoted line, the carets sit exactly under source
      columns startCol .. endCol - 1. */
  lemma {:induction false} CaretsUnderColumns(line: nat, startCol: nat, endCol: nat)
    requires startCol >= 1 && endCol >= startCol
    ensures var p := CaretLine(line, startCol, endCol);
            var w := |Gutter(line)|;
            && |p| == w + endCol - 1 + 1
            && (forall j :: 0 <= j < w + startCol - 1 ==> p[j] == ' ' || p[j] == '|')
            && (forall j :: w + startCol - 1 <= j < w + endCol - 1 ==> p[j] == '^')
            && p[|p| - 1] == '\n'
  {
    var d := |NatToString(line)|;
    var p := CaretLine(line, startCol, endCol);
    var a := Repeat(' ', d) + "  | ";
    var b := Repeat(' ', startCol - 1);
    var c := Repeat('^', endCol - startCol);
    assert p == a + b + c + "\n";
    assert |a| == |Gutter(line)|;
    forall j | 0 <= j < |a| + startCol - 1
      ensures p[j] == ' ' || p[j] == '|'
    {
      if j < d {
        assert p[j] == a[j];
      } else if j < |a| {
        assert p[j] == a[j] == "  | "[j - d];
      } else {
        assert p[j] == b[j - |a|];
      }
    }
    forall j | |a| + startCol - 1 <= j < |a| + endCol - 1
      ensures p[j] == '^'
    {
      assert p[j] == c[j - |a| - (startCol - 1)];
    }
  }

  /** The rendered text of a diagnostic raised in a file. */
  function Render(file: SourceFiles.SourceFile, e: Error): (r: Result<string, Error>)
    reads file
    requires e.Diag?
    ensures r.Ok? <==> 1 <= e.loc.line <= file.Length() && 1 <= e.loc.startCol <= e.loc.endCol
  {
    TokenMessage(file.filename, file.lines, e.loc, e.msg)
  }
}
