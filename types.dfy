/** The type universe of the checker (compiler/typing/type.h, type.cpp). */
module Types {

  datatype BasicKind = IntKind | FloatKind | BoolKind | CharKind | StringKind | UnitKind

  /** BasicTy and FunctionTy. The C++ FunctionTy refers to interned
      types; the model holds the types themselves. */
  datatype Type = BasicTy(kind: BasicKind) | FunctionTy(argTypes: seq<Type>, returnType: Type)

  const IntTy := BasicTy(IntKind)
  const FloatTy := BasicTy(FloatKind)
  const BoolTy := BasicTy(BoolKind)
  const CharTy := BasicTy(CharKind)
  const StringTy := BasicTy(StringKind)
  const UnitTy := BasicTy(UnitKind)

  /** BasicTy::to_string */
  function KindName(k: BasicKind): string {
    match k
    case IntKind => "int"
    case FloatKind => "float"
    case CharKind => "char"
    case StringKind => "string"
    case BoolKind => "bool"
    case UnitKind => "unit"
  }

  predicate IsLower(c: char) { 'a' <= c <= 'z' }

  /** The six basic names are non-empty, made of lower-case letters, and distinct. */
  lemma KindNamesDistinct(k1: BasicKind, k2: BasicKind)
    ensures |KindName(k1)| > 0
    ensures forall i :: 0 <= i < |KindName(k1)| ==> IsLower(KindName(k1)[i])
    ensures KindName(k1) == KindName(k2) ==> k1 == k2
  {
  }

  /** The strings joined by sep, built left to right as vec_to_string does. */
  function Join(parts: seq<string>, sep: string): string
    decreases |parts|
  {
    if |parts| == 0 then ""
    else if |parts| == 1 then parts[0]
    else Join(parts[..|parts| - 1], sep) + sep + parts[|parts| - 1]
  }

  function ToString(t: Type): string
    decreases t, 1
  {
    match t
    case BasicTy(k) => KindName(k)
    case FunctionTy(args, ret) => "(" + Join(ArgNames(args), ", ") + ") -> " + ToString(ret)
  }

  function ArgNames(args: seq<Type>): (r: seq<string>)
    decreases args, 0
    ensures |r| == |args|
  {
    seq(|args|, i requires 0 <= i < |args| => ToString(args[i]))
  }

  /** vec_to_string: "" for no types, the single type's name for one, and
      otherwise the names joined with the separator. */
  method VecToString(types: seq<Type>, sep: string) returns (result: string)
    ensures result == Join(ArgNames(types), sep)
    ensures |types| == 0 ==> result == ""
    ensures |types| == 1 ==> result == ToString(types[0])
  {
    if |types| == 0 {
      return "";
    }
    ghost var names := ArgNames(types);
    result := ToString(types[0]);
    assert names[..1] == [names[0]];
    var i := 1;
    while i < |types|
      invariant 1 <= i <= |types|
      invariant result == Join(names[..i], sep)
    {
      assert names[..i + 1][..i] == names[..i];
      result := result + sep + ToString(types[i]);
      i := i + 1;
    }
    assert names[..|types|] == names;
  }

  /** clone keeps the kind of a basic type and the argument and return
      types of a function type, so the copy prints the same. */
  function Clone(t: Type): (c: Type)
    ensures ToString(c) == ToString(t)
  {
    match t
    case BasicTy(k) => BasicTy(k)
    case FunctionTy(args, ret) => FunctionTy(args, ret)
  }

  /** The types the checker builds: basic types, and function types over
      basic types (parameter and return annotations name basic types only). */
  predicate FirstOrder(t: Type) {
    match t
    case BasicTy(_) => true
    case FunctionTy(args, ret) => ret.BasicTy? && forall i :: 0 <= i < |args| ==> args[i].BasicTy?
  }

  // Splitting a string at a separator character that one side cannot contain.

  function FirstIndex(s: string, c: char): nat
    ensures FirstIndex(s, c) <= |s|
  {
    if |s| == 0 then 0 else if s[0] == c then 0 else 1 + FirstIndex(s[1..], c)
  }

  function LastIndex(s: string, c: char): int
    ensures -1 <= LastIndex(s, c) < |s|
  {
    if |s| == 0 then -1 else if s[|s| - 1] == c then |s| - 1 else LastIndex(s[..|s| - 1], c)
  }

  lemma {:induction false} FirstIndexOfSplit(a: string, l: string, c: char)
    requires c !in a
    ensures FirstIndex(a + [c] + l, c) == |a|
  {
    if |a| > 0 {
      assert (a + [c] + l)[1..] == a[1..] + [c] + l;
      FirstIndexOfSplit(a[1..], l, c);
    }
  }

  lemma {:induction false} LastIndexOfSplit(a: string, l: string, c: char)
    requires c !in l
    ensures LastIndex(a + [c] + l, c) == |a|
  {
    if |l| > 0 {
      assert (a + [c] + l)[..|a + [c] + l| - 1] == a + [c] + l[..|l| - 1];
      LastIndexOfSplit(a, l[..|l| - 1], c);
    }
  }

  lemma SplitAtFirst(a1: string, l1: string, a2: string, l2: string, c: char)
    requires c !in a1 && c !in a2
    requires a1 + [c] + l1 == a2 + [c] + l2
    ensures a1 == a2 && l1 == l2
  {
    var s := a1 + [c] + l1;
    FirstIndexOfSplit(a1, l1, c);
    FirstIndexOfSplit(a2, l2, c);
    assert a1 == s[..|a1|] == a2;
    assert l1 == s[|a1| + 1..] == l2;
  }

  lemma SplitAtLast(a1: string, l1: string, a2: string, l2: string, c: char)
    requires c !in l1 && c !in l2
    requires a1 + [c] + l1 == a2 + [c] + l2
    ensures a1 == a2 && l1 == l2
  {
    var s := a1 + [c] + l1;
    LastIndexOfSplit(a1, l1, c);
    LastIndexOfSplit(a2, l2, c);
    assert a1 == s[..|a1|] == a2;
    assert l1 == s[|a1| + 1..] == l2;
  }

  predicate AllBasic(ts: seq<Type>) { forall i :: 0 <= i < |ts| ==> ts[i].BasicTy? }

  /** A non-empty run of lower-case letters, like every basic type name. */
  predicate Word(w: string) { |w| > 0 && forall k :: 0 <= k < |w| ==> IsLower(w[k]) }

  predicate AllWords(ws: seq<string>) { forall i :: 0 <= i < |ws| ==> Word(ws[i]) }

  lemma WordHasNoPunctuation(w: string)
    requires Word(w)
    ensures ',' !in w && ')' !in w && ' ' !in w
  {
  }

  /** The words joined by ", ": empty exactly for no words, without ')',
      and with a ',' exactly when there are at least two words. */
  lemma {:induction false} JoinedWordsShape(ws: seq<string>)
    requires AllWords(ws)
    ensures ')' !in Join(ws, ", ")
    ensures |Join(ws, ", ")| == 0 <==> |ws| == 0
    ensures ',' in Join(ws, ", ") <==> |ws| > 1
    decreases |ws|
  {
    if |ws| == 1 {
      WordHasNoPunctuation(ws[0]);
    } else if |ws| > 1 {
      var init := ws[..|ws| - 1];
      var last := ws[|ws| - 1];
      JoinedWordsShape(init);
      WordHasNoPunctuation(last);
      JoinSplitsAtLastComma(ws);
      assert Join(ws, ", ")[|Join(init, ", ")|] == ',';
    }
  }

  lemma CancelPrefix(p: string, a: string, b: string)
    requires p + a == p + b
    ensures a == b
  {
    assert a == (p + a)[|p|..];
    assert b == (p + b)[|p|..];
  }

  lemma JoinSplitsAtLastComma(ws: seq<string>)
    requires |ws| > 1
    ensures Join(ws, ", ") == Join(ws[..|ws| - 1], ", ") + [','] + (" " + ws[|ws| - 1])
  {
    var a := Join(ws[..|ws| - 1], ", ");
    var l := ws[|ws| - 1];
    assert Join(ws, ", ") == a + ", " + l;
    CommaSpaceAssoc(a, l);
  }

  lemma CommaSpaceAssoc(a: string, l: string)
    ensures a + ", " + l == a + [','] + (" " + l)
  {
    assert ", " == [','] + " ";
    assert a + ", " + l == (a + [',']) + (" " + l);
  }

  lemma NoCommaAfterSpace(w: string)
    requires ',' !in w
    ensures ',' !in " " + w
  {
    forall k | 0 <= k < |" " + w| ensures (" " + w)[k] != ',' {
      if k > 0 { assert (" " + w)[k] == w[k - 1]; }
    }
  }

  /** Joining words with ", " is injective. */
  lemma {:induction false} JoinWordsInjective(ws1: seq<string>, ws2: seq<string>)
    requires AllWords(ws1) && AllWords(ws2)
    requires Join(ws1, ", ") == Join(ws2, ", ")
    ensures ws1 == ws2
    decreases |ws1|
  {
    JoinedWordsShape(ws1);
    JoinedWordsShape(ws2);
    if |ws1| > 1 {
      var i1 := ws1[..|ws1| - 1];
      var i2 := ws2[..|ws2| - 1];
      var last1 := ws1[|ws1| - 1];
      var last2 := ws2[|ws2| - 1];
      WordHasNoPunctuation(last1);
      WordHasNoPunctuation(last2);
      NoCommaAfterSpace(last1);
      NoCommaAfterSpace(last2);
      JoinSplitsAtLastComma(ws1);
      JoinSplitsAtLastComma(ws2);
      SplitAtLast(Join(i1, ", "), " " + last1, Join(i2, ", "), " " + last2, ',');
      CancelPrefix(" ", last1, last2);
      JoinWordsInjective(i1, i2);
      assert ws1 == i1 + [last1];
      assert ws2 == i2 + [last2];
    }
  }

  lemma BasicNamesAreWords(ts: seq<Type>)
    requires AllBasic(ts)
    ensures AllWords(ArgNames(ts))
  {
    forall i | 0 <= i < |ts| ensures Word(ArgNames(ts)[i]) {
      KindNamesDistinct(ts[i].kind, ts[i].kind);
    }
  }

  lemma BasicNamesInjective(ts1: seq<Type>, ts2: seq<Type>)
    requires AllBasic(ts1) && AllBasic(ts2)
    requires ArgNames(ts1) == ArgNames(ts2)
    ensures ts1 == ts2
  {
    forall i | 0 <= i < |ts1| ensures ts1[i] == ts2[i] {
      assert ArgNames(ts1)[i] == ArgNames(ts2)[i];
      KindNamesDistinct(ts1[i].kind, ts2[i].kind);
    }
  }

  /** A printed type starts with '(' exactly when it is a function type. */
  lemma FirstCharTellsKind(t: Type)
    ensures |ToString(t)| > 0
    ensures ToString(t)[0] == '(' <==> t.FunctionTy?
  {
    if t.BasicTy? {
      KindNamesDistinct(t.kind, t.kind);
    }
  }

  lemma NoCloseParenAfterOpen(j: string)
    requires ')' !in j
    ensures ')' !in "(" + j
  {
    forall k | 0 <= k < |"(" + j| ensures ("(" + j)[k] != ')' {
      if k > 0 { assert ("(" + j)[k] == j[k - 1]; }
    }
  }

  lemma FunctionTypeString(t: Type)
    requires t.FunctionTy?
    ensures ToString(t) == ("(" + Join(ArgNames(t.argTypes), ", ")) + [')'] + (" -> " + ToString(t.returnType))
  {
    var j := Join(ArgNames(t.argTypes), ", ");
    assert ") -> " + ToString(t.returnType) == [')'] + (" -> " + ToString(t.returnType));
    assert "(" + j + ") -> " + ToString(t.returnType) == ("(" + j) + (") -> " + ToString(t.returnType));
  }

  /** to_string is injective on the types the checker builds, so interning
      types under their printed name (add_type) never merges two different
      types. */
  lemma ToStringInjective(t1: Type, t2: Type)
    requires FirstOrder(t1) && FirstOrder(t2)
    requires ToString(t1) == ToString(t2)
    ensures t1 == t2
  {
    FirstCharTellsKind(t1);
    FirstCharTellsKind(t2);
    if t1.BasicTy? {
      KindNamesDistinct(t1.kind, t2.kind);
    } else {
      var n1 := ArgNames(t1.argTypes);
      var n2 := ArgNames(t2.argTypes);
      var r1 := ToString(t1.returnType);
      var r2 := ToString(t2.returnType);
      BasicNamesAreWords(t1.argTypes);
      BasicNamesAreWords(t2.argTypes);
      JoinedWordsShape(n1);
      JoinedWordsShape(n2);
      NoCloseParenAfterOpen(Join(n1, ", "));
      NoCloseParenAfterOpen(Join(n2, ", "));
      FunctionTypeString(t1);
      FunctionTypeString(t2);
      SplitAtFirst("(" + Join(n1, ", "), " -> " + r1, "(" + Join(n2, ", "), " -> " + r2, ')');
      CancelPrefix("(", Join(n1, ", "), Join(n2, ", "));
      JoinWordsInjective(n1, n2);
      BasicNamesInjective(t1.argTypes, t2.argTypes);
      CancelPrefix(" -> ", r1, r2);
      KindNamesDistinct(t1.returnType.kind, t2.returnType.kind);
    }
  }
}
