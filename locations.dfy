/** A source span on one line (compiler/lexer/location.h): the start and
    end positions always share their line, so a location is a line and a
    half-open column range. The reference back to the SourceFile is not kept;
    the diagnostic formatter takes the file's name and lines explicitly. */
module Locations {

  datatype Location = Location(line: int, startCol: int, endCol: int)
}
