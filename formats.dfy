/** printf format directives (compiler/typing/format_specifier.h,
    format_specifier.cpp): the directives of a string literal, located at
    their own column, and the type each one asks of its argument. */
module Formats {
  import opened Wrappers
  import opened Locations
  import opened Errors
  import opened Types

  datatype FormatKind = Integer | Float | String | Char

  datatype FormatSpecifier = FormatSpecifier(kind: FormatKind, loc: Location)

  /** shift_col: the location of the i-th character of a literal. */
  function ShiftCol(loc: Location, i: nat): (r: Location)
    ensures r.line == loc.line && r.endCol == loc.endCol
    ensures r.startCol - loc.startCol == i
  {
    Location(loc.line, loc.startCol + i, loc.endCol)
  }

  /** Shifting twice is shifting by the sum, and different offsets give
      different locations. */
  lemma ShiftColComposes(loc: Location, i: nat, j: nat)
    ensures ShiftCol(ShiftCol(loc, i), j) == ShiftCol(loc, i + j)
    ensures i != j ==> ShiftCol(loc, i) != ShiftCol(loc, j)
  {
  }

  /** is_format_char */
  function IsFormatChar(c: char): (b: bool)
    ensures b <==> c in "difsc"
  {
    match c
    case 'd' => true
    case 'i' => true
    case 'f' => true
    case 's' => true
    case 'c' => true
    case _ => false
  }

  /** specifier_of_char: Integer unless the character is f, s or c. */
  function SpecifierOfChar(c: char): (k: FormatKind)
    ensures k == Float <==> c == 'f'
    ensures k == String <==> c == 's'
    ensures k == Char <==> c == 'c'
    ensures k == Integer <==> c !in "fsc"
  {
    match c
    case 'f' => Float
    case 's' => String
    case 'c' => Char
    case _ => Integer
  }

  /** The conversion letters a kind is written with. */
  function KindChars(k: FormatKind): string {
    match k
    case Integer => "di"
    case Float => "f"
    case String => "s"
    case Char => "c"
  }

  /** Every conversion letter maps to a kind written with that letter, and
      every letter of a kind is a conversion letter mapping back to it. */
  lemma SpecifierOfCharRoundTrip(c: char, k: FormatKind)
    ensures IsFormatChar(c) ==> c in KindChars(SpecifierOfChar(c))
    ensures c in KindChars(k) ==> IsFormatChar(c) && SpecifierOfChar(c) == k
  {
  }

  /** A '%' at index j starting a directive. */
  predicate DirectiveAt(s: string, j: nat)
    requires j < |s|
  {
    s[j] == '%' && j + 1 < |s| && IsFormatChar(s[j + 1])
  }

  /** A '%' at index j that the scan rejects: the last character, or
      followed by neither a conversion letter nor another '%'. */
  predicate BadAt(s: string, j: nat)
    requires j < |s|
  {
    s[j] == '%' && (j + 1 == |s| || (!IsFormatChar(s[j + 1]) && s[j + 1] != '%'))
  }

  /** The error raised for the rejected '%' at index j. */
  function BadError(s: string, loc: Location, j: nat): (e: Error)
    requires j < |s|
    ensures e.Diag? && e.loc == ShiftCol(loc, j)
  {
    if j + 1 == |s| then Token("'%' expects a format specifier", ShiftCol(loc, j))
    else Errors.Type(ShiftCol(loc, j), "Unknown format specifier")
  }

  /** The first rejected '%' at index i or later. */
  function FirstBad(s: string, i: nat): (r: Option<nat>)
    ensures r.None? <==> forall j :: i <= j < |s| ==> !BadAt(s, j)
    ensures r.Some? ==> i <= r.value < |s| && BadAt(s, r.value)
    ensures r.Some? ==> forall j :: i <= j < r.value ==> !BadAt(s, j)
    decreases |s| - i
  {
    if i >= |s| then None
    else if BadAt(s, i) then Some(i)
    else FirstBad(s, i + 1)
  }

  /** The specifier of the directive at index j. */
  function SpecAt(s: string, loc: Location, j: nat): FormatSpecifier
    requires j + 1 < |s|
  {
    FormatSpecifier(SpecifierOfChar(s[j + 1]), ShiftCol(loc, j))
  }

  /** The directives at index i or later, in string order. */
  function Directives(s: string, loc: Location, i: nat): seq<FormatSpecifier>
    decreases |s| - i
  {
    if i >= |s| then []
    else if DirectiveAt(s, i) then [SpecAt(s, loc, i)] + Directives(s, loc, i + 1)
    else Directives(s, loc, i + 1)
  }

  /** get_format_specifiers: the first rejected '%' if there is one, and
      otherwise every directive in string order. */
  function FormatSpecifiers(s: string, loc: Location): Result<seq<FormatSpecifier>, Error> {
    match FirstBad(s, 0)
    case Some(j) => Err(BadError(s, loc, j))
    case None => Ok(Directives(s, loc, 0))
  }

  /** Each directive found comes from a '%' followed by a conversion letter,
      and each such '%' gives a directive. */
  lemma {:induction false} DirectivesMembers(s: string, loc: Location, i: nat, x: FormatSpecifier)
    ensures x in Directives(s, loc, i) <==>
      exists j :: i <= j < |s| && DirectiveAt(s, j) && x == SpecAt(s, loc, j)
    decreases |s| - i
  {
    if i < |s| {
      DirectivesMembers(s, loc, i + 1, x);
      if x in Directives(s, loc, i) && !(x in Directives(s, loc, i + 1)) {
        assert DirectiveAt(s, i) && x == SpecAt(s, loc, i);
      }
    }
  }

  /** The directives come in string order: strictly increasing columns,
      all at or after index i. */
  lemma {:induction false} DirectivesOrdered(s: string, loc: Location, i: nat)
    ensures forall k :: 0 <= k < |Directives(s, loc, i)| ==>
      Directives(s, loc, i)[k].loc.startCol >= loc.startCol + i
    ensures forall k1, k2 :: 0 <= k1 < k2 < |Directives(s, loc, i)| ==>
      Directives(s, loc, i)[k1].loc.startCol < Directives(s, loc, i)[k2].loc.startCol
    decreases |s| - i
  {
    if i < |s| {
      DirectivesOrdered(s, loc, i + 1);
    }
  }

  /** "%%" is not skipped as a unit: its second '%' can start a directive. */
  lemma PercentPercentD(loc: Location)
    ensures FormatSpecifiers("%%d", loc) == Ok([FormatSpecifier(Integer, ShiftCol(loc, 1))])
  {
    assert !BadAt("%%d", 0) && !BadAt("%%d", 1) && !BadAt("%%d", 2);
    assert FirstBad("%%d", 0) == FirstBad("%%d", 1) == FirstBad("%%d", 2) == FirstBad("%%d", 3) == None;
    assert !DirectiveAt("%%d", 0) && DirectiveAt("%%d", 1) && !DirectiveAt("%%d", 2);
    assert Directives("%%d", loc, 2) == Directives("%%d", loc, 3) == [];
    assert SpecAt("%%d", loc, 1) == FormatSpecifier(Integer, ShiftCol(loc, 1));
    assert Directives("%%d", loc, 0) == Directives("%%d", loc, 1) == [SpecAt("%%d", loc, 1)];
  }

  /** A string ending in "%%" is rejected at its last '%'. */
  lemma TrailingPercentPercent(loc: Location)
    ensures FormatSpecifiers("a%%", loc) == Err(Token("'%' expects a format specifier", ShiftCol(loc, 2)))
  {
    assert !BadAt("a%%", 0) && !BadAt("a%%", 1) && BadAt("a%%", 2);
    assert FirstBad("a%%", 0) == FirstBad("a%%", 1) == FirstBad("a%%", 2) == Some(2);
  }

  /** get_format_specifiers, the loop over the literal's characters. */
  method GetFormatSpecifiers(s: string, loc: Location) returns (r: Result<seq<FormatSpecifier>, Error>)
    ensures r == FormatSpecifiers(s, loc)
  {
    var specifiers: seq<FormatSpecifier> := [];
    var i := 0;
    while i < |s|
      invariant 0 <= i <= |s|
      invariant FirstBad(s, 0) == FirstBad(s, i)
      invariant Directives(s, loc, 0) == specifiers + Directives(s, loc, i)
      decreases |s| - i
    {
      if s[i] == '%' {
        if i == |s| - 1 {
          return Err(Token("'%' expects a format specifier", ShiftCol(loc, i)));
        }
        var c := s[i + 1];
        if IsFormatChar(c) {
          specifiers := specifiers + [FormatSpecifier(SpecifierOfChar(c), ShiftCol(loc, i))];
        } else if c != '%' {
          return Err(Errors.Type(ShiftCol(loc, i), "Unknown format specifier"));
        }
      }
      i := i + 1;
    }
    assert Directives(s, loc, i) == [];
    assert specifiers + [] == specifiers;
    return Ok(specifiers);
  }

  /** The type a directive of this kind asks for. */
  function KindType(k: FormatKind): (t: Type)
    ensures t.BasicTy?
  {
    match k
    case Integer => IntTy
    case Float => FloatTy
    case Char => CharTy
    case String => StringTy
  }

  /** expr_matches_format, given the argument's type slot (None when it was
      never set). */
  function ExprMatchesFormat(ty: Option<Type>, f: FormatSpecifier): (b: bool)
    ensures b <==> ty == Some(KindType(f.kind))
  {
    match f.kind
    case Integer => ty == Some(IntTy)
    case Float => ty == Some(FloatTy)
    case Char => ty == Some(CharTy)
    case String => ty == Some(StringTy)
  }

  /** An argument matches directives of exactly one kind, and an argument
      without a type matches none. */
  lemma MatchesOneKind(ty: Option<Type>, f1: FormatSpecifier, f2: FormatSpecifier)
    ensures ExprMatchesFormat(ty, f1) && ExprMatchesFormat(ty, f2) ==> f1.kind == f2.kind
    ensures ty.None? ==> !ExprMatchesFormat(ty, f1)
  {
  }
}
