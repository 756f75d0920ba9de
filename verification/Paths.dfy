/**
 The path trees of the graphical-language generator and their printing as Structured Text.
 A Python list is a Series (AND), a tuple is a Parallel (OR), None is the power rail, and a string is
 an Atom: the text of one operand together with the local id of the element it came from.
 */
module Paths {
  import opened StText
  import opened Results

  datatype Path =
    | Rail
    | Atom(tag: nat, text: seq<Token>)
    | Series(items: seq<Path>)
    | Parallel(alts: seq<Path>)

  /**
   The printed path can stand between ANDs: lists and tuples are not empty, and an operand in a list is one factor.
   Tuples in a list are put in parentheses.
   */
  ghost predicate Conjoinable(p: Path) {
    match p
    case Rail => true
    case Atom(_, text) => Closed(text)
    case Series(items) => items != [] && forall q :: q in items ==> Conjoinable(q)
    case Parallel(alts) => alts != [] && forall q :: q in alts ==> Disjoinable(q)
  }

  /** The printed path can stand alone or between ORs: an operand that is not in a list may be any expression. */
  ghost predicate Disjoinable(p: Path) {
    match p
    case Rail => true
    case Atom(_, text) => Complete(text)
    case Series(items) =>
      && items != []
      && if |items| == 1 then Disjoinable(items[0]) else forall q :: q in items ==> Conjoinable(q)
    case Parallel(alts) => alts != [] && forall q :: q in alts ==> Disjoinable(q)
  }

  ghost predicate AllConjoinable(ps: seq<Path>) {
    forall q :: q in ps ==> Conjoinable(q)
  }

  ghost predicate AllDisjoinable(ps: seq<Path>) {
    forall q :: q in ps ==> Disjoinable(q)
  }

  lemma {:induction false} ConjoinableIsDisjoinable(p: Path)
    requires Conjoinable(p)
    ensures Disjoinable(p)
    decreases p
  {
    match p
    case Atom(_, text) => ClosedIsExpr(text, map[]);
    case Series(items) =>
      if |items| == 1 {
        ConjoinableIsDisjoinable(items[0]);
      }
    case _ =>
  }

  /** The value a path tree denotes; a lone member passes its value on unchanged. */
  ghost function Meaning(p: Path, s: Store): Value {
    match p
    case Rail => Bool(true)
    case Atom(_, text) => EvalText(text, s)
    case Series(items) =>
      if |items| == 1 then Meaning(items[0], s) else Bool(forall q :: q in items ==> Truth(Meaning(q, s)))
    case Parallel(alts) =>
      if |alts| == 1 then Meaning(alts[0], s) else Bool(exists q :: q in alts && Truth(Meaning(q, s)))
  }

  ghost predicate AllTrue(ps: seq<Path>, s: Store) {
    forall q :: q in ps ==> Truth(Meaning(q, s))
  }

  ghost predicate AnyTrue(ps: seq<Path>, s: Store) {
    exists q :: q in ps && Truth(Meaning(q, s))
  }

  lemma SeriesTruth(items: seq<Path>, s: Store)
    ensures Truth(Meaning(Series(items), s)) == AllTrue(items, s)
  {
  }

  lemma ParallelTruth(alts: seq<Path>, s: Store)
    ensures Truth(Meaning(Parallel(alts), s)) == AnyTrue(alts, s)
  {
  }

  // ----- Printing

  /** The printed text; only the outermost tuple goes without parentheses. */
  function ComputePaths(p: Path, first: bool): seq<Token> {
    match p
    case Rail => [TrueWord]
    case Atom(_, text) => text
    case Series(items) => JoinPaths(items, AndWord)
    case Parallel(alts) =>
      if Rail in alts then [TrueWord]
      else if first then JoinPaths(alts, OrWord)
      else [Open] + JoinPaths(alts, OrWord) + [Close]
  }

  /** The printed members of a list or tuple with a separator between them; nothing when there are none. */
  function JoinPaths(ps: seq<Path>, separator: Token): seq<Token>
    decreases ps
  {
    if |ps| == 0 then []
    else if |ps| == 1 then ComputePaths(ps[0], false)
    else ComputePaths(ps[0], false) + [separator] + JoinPaths(ps[1..], separator)
  }

  // ----- How the reader takes the pieces of a printed text

  lemma ReadOneFactor(acc: Option<Expr>, f: seq<Token>, rest: seq<Token>)
    requires Closed(f)
    ensures ReadTerm(acc, f + rest) == ReadTermTail(ConjWith(acc, ReadFactor(f).value.0), rest)
  {
    FactorPrefix(f, rest);
    assert [] + rest == rest;
  }

  lemma ReadParentheses(acc: Option<Expr>, inner: seq<Token>, e: Expr, rest: seq<Token>)
    requires ReadSum(None, inner + ([Close] + rest)) == Some((e, [Close] + rest))
    ensures ReadTerm(acc, [Open] + inner + [Close] + rest) == ReadTermTail(ConjWith(acc, e), rest)
  {
    var ts := [Open] + (inner + ([Close] + rest));
    assert [Open] + inner + [Close] + rest == ts;
    assert ts[1..] == inner + ([Close] + rest);
    assert ([Close] + rest)[1..] == rest;
    assert ReadFactor(ts) == Some((e, rest));
  }

  lemma ReadAnd(acc: Option<Expr>, head: seq<Token>, e: Expr, more: seq<Token>)
    requires ReadTerm(acc, head + ([AndWord] + more)) == ReadTermTail(e, [AndWord] + more)
    ensures ReadTerm(acc, head + ([AndWord] + more)) == ReadTerm(Some(e), more)
  {
    assert ([AndWord] + more)[1..] == more;
  }

  lemma ReadOr(acc: Option<Expr>, head: seq<Token>, e: Expr, more: seq<Token>)
    requires ReadSum(acc, head + ([OrWord] + more)) == ReadSumTail(e, [OrWord] + more)
    ensures ReadSum(acc, head + ([OrWord] + more)) == ReadSum(Some(e), more)
  {
    assert ([OrWord] + more)[1..] == more;
  }

  lemma JoinSplit(ps: seq<Path>, separator: Token, rest: seq<Token>)
    requires |ps| > 1
    ensures JoinPaths(ps, separator) + rest ==
            ComputePaths(ps[0], false) + ([separator] + (JoinPaths(ps[1..], separator) + rest))
  {
    Regroup(ComputePaths(ps[0], false), [separator], JoinPaths(ps[1..], separator), rest);
  }

  lemma Regroup(a: seq<Token>, b: seq<Token>, c: seq<Token>, d: seq<Token>)
    ensures a + b + c + d == a + (b + (c + d))
  {
  }

  /** `e` is what the reader holds once it has read `p` as part of a term. */
  ghost predicate Extends(e: Expr, acc: Option<Expr>, p: Path) {
    forall s: Store :: Eval(e, s) == Conjoined(acc, Meaning(p, s), s)
  }

  ghost predicate Offers(e: Expr, acc: Option<Expr>, p: Path) {
    forall s: Store :: Eval(e, s) == Disjoined(acc, Meaning(p, s), s)
  }

  lemma ExtendsByValue(e0: Expr, acc: Option<Expr>, p: Path)
    requires forall s: Store :: Eval(e0, s) == Meaning(p, s)
    ensures Extends(ConjWith(acc, e0), acc, p) && Offers(DisjWith(acc, e0), acc, p)
  {
  }

  lemma ExtendsSeries(e: Expr, e0: Expr, acc: Option<Expr>, items: seq<Path>)
    requires |items| > 1
    requires Extends(e0, acc, items[0]) && Extends(e, Some(e0), Series(items[1..]))
    ensures Extends(e, acc, Series(items))
  {
    forall s: Store
      ensures Eval(e, s) == Conjoined(acc, Meaning(Series(items), s), s)
    {
      SeriesSplit(items, s);
      assert Eval(e0, s) == Conjoined(acc, Meaning(items[0], s), s);
    }
  }

  lemma OffersParallel(e: Expr, e0: Expr, acc: Option<Expr>, alts: seq<Path>)
    requires |alts| > 1
    requires Offers(e0, acc, alts[0]) && Offers(e, Some(e0), Parallel(alts[1..]))
    ensures Offers(e, acc, Parallel(alts))
  {
    forall s: Store
      ensures Eval(e, s) == Disjoined(acc, Meaning(Parallel(alts), s), s)
    {
      ParallelSplit(alts, s);
      assert Eval(e0, s) == Disjoined(acc, Meaning(alts[0], s), s);
    }
  }

  lemma RailConducts(alts: seq<Path>)
    requires Rail in alts
    ensures forall s: Store :: Meaning(Parallel(alts), s) == Bool(true)
  {
    assert forall s: Store :: Truth(Meaning(Rail, s));
  }

  /**
   Reading a printed path where a term may go on: the reader conjoins the meaning of the whole path with
   what it already has, and continues behind it.
   */
  lemma {:induction false} ReadPath(p: Path, acc: Option<Expr>, rest: seq<Token>) returns (e: Expr)
    requires Conjoinable(p)
    ensures ReadTerm(acc, ComputePaths(p, false) + rest) == ReadTermTail(e, rest)
    ensures Extends(e, acc, p)
    decreases p, 0
  {
    match p
    case Rail =>
      e := ConjWith(acc, Constant);
      ReadOneFactor(acc, [TrueWord], rest);
      ExtendsByValue(Constant, acc, p);
    case Atom(_, text) =>
      e := ConjWith(acc, ReadFactor(text).value.0);
      ReadOneFactor(acc, text, rest);
      OperandMeaning(p);
      ExtendsByValue(ReadFactor(text).value.0, acc, p);
    case Series(items) =>
      e := ReadSeries(items, acc, rest);
    case Parallel(alts) =>
      if Rail in alts {
        e := ConjWith(acc, Constant);
        ReadOneFactor(acc, [TrueWord], rest);
        RailConducts(alts);
        ExtendsByValue(Constant, acc, p);
      } else {
        var e0 := ReadParallel(alts, None, [Close] + rest);
        ReadParentheses(acc, JoinPaths(alts, OrWord), e0, rest);
        e := ConjWith(acc, e0);
        ExtendsByValue(e0, acc, p);
      }
  }

  lemma {:induction false} ReadSeries(items: seq<Path>, acc: Option<Expr>, rest: seq<Token>) returns (e: Expr)
    requires items != [] && AllConjoinable(items)
    ensures ReadTerm(acc, JoinPaths(items, AndWord) + rest) == ReadTermTail(e, rest)
    ensures Extends(e, acc, Series(items))
    decreases items, 1
  {
    if |items| == 1 {
      e := ReadPath(items[0], acc, rest);
    } else {
      var head, more := ComputePaths(items[0], false), JoinPaths(items[1..], AndWord) + rest;
      var e0 := ReadPath(items[0], acc, [AndWord] + more);
      e := ReadSeries(items[1..], Some(e0), rest);
      JoinSplit(items, AndWord, rest);
      ReadAnd(acc, head, e0, more);
      ExtendsSeries(e, e0, acc, items);
    }
  }

  lemma OperandMeaning(p: Path)
    requires p.Atom? && Closed(p.text)
    ensures forall s: Store :: Eval(ReadFactor(p.text).value.0, s) == Meaning(p, s)
  {
    forall s: Store
      ensures Eval(ReadFactor(p.text).value.0, s) == Meaning(p, s)
    {
      ClosedIsExpr(p.text, s);
    }
  }

  /** Reading a printed path where a sum may go on: the reader disjoins the meaning of the path with what it has. */
  lemma {:induction false} ReadSummand(p: Path, acc: Option<Expr>, rest: seq<Token>) returns (e: Expr)
    requires Disjoinable(p) && EndsTerm(rest)
    ensures ReadSum(acc, ComputePaths(p, false) + rest) == ReadSumTail(e, rest)
    ensures Offers(e, acc, p)
    decreases p, 1
  {
    if Conjoinable(p) {
      var e0 := ReadPath(p, None, rest);
      e := DisjWith(acc, e0);
      ExtendsByValue(e0, acc, p);
    } else if p.Atom? {
      SumBehind(acc, p.text);
      e := ReadSum(acc, p.text).value.0;
      SumThen(acc, p.text, rest);
    } else if p.Series? && |p.items| == 1 {
      e := ReadSummand(p.items[0], acc, rest);
    }
  }

  lemma {:induction false} ReadParallel(alts: seq<Path>, acc: Option<Expr>, rest: seq<Token>) returns (e: Expr)
    requires alts != [] && AllDisjoinable(alts) && EndsTerm(rest)
    ensures ReadSum(acc, JoinPaths(alts, OrWord) + rest) == ReadSumTail(e, rest)
    ensures Offers(e, acc, Parallel(alts))
    decreases alts, 2
  {
    if |alts| == 1 {
      e := ReadSummand(alts[0], acc, rest);
    } else {
      var head, more := ComputePaths(alts[0], false), JoinPaths(alts[1..], OrWord) + rest;
      var e0 := ReadSummand(alts[0], acc, [OrWord] + more);
      e := ReadParallel(alts[1..], Some(e0), rest);
      JoinSplit(alts, OrWord, rest);
      ReadOr(acc, head, e0, more);
      OffersParallel(e, e0, acc, alts);
    }
  }

  lemma SeriesSplit(items: seq<Path>, s: Store)
    requires |items| > 1
    ensures Meaning(Series(items), s) ==
            Bool(Truth(Meaning(items[0], s)) && Truth(Meaning(Series(items[1..]), s)))
  {
    assert items == [items[0]] + items[1..];
    SeriesTruth(items[1..], s);
  }

  lemma ParallelSplit(alts: seq<Path>, s: Store)
    requires |alts| > 1
    ensures Meaning(Parallel(alts), s) ==
            Bool(Truth(Meaning(alts[0], s)) || Truth(Meaning(Parallel(alts[1..]), s)))
  {
    assert alts == [alts[0]] + alts[1..];
    ParallelTruth(alts[1..], s);
  }

  /** Printing a tree and reading the text back gives an expression with the value of the tree. */
  lemma {:induction false} PrintReadRoundTrip(p: Path)
    requires Disjoinable(p)
    ensures Complete(ComputePaths(p, true))
    ensures forall s: Store :: EvalText(ComputePaths(p, true), s) == Meaning(p, s)
  {
    var text := ComputePaths(p, true);
    assert text + [] == text;
    if p.Parallel? && Rail !in p.alts {
      var e := ReadParallel(p.alts, None, []);
      assert ReadExpr(text) == Some((e, []));
    } else {
      var e := ReadSummand(p, None, []);
      assert ComputePaths(p, false) == text;
      assert ReadExpr(text) == Some((e, []));
    }
  }
}
