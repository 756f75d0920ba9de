/**
 The fragment of Structured Text that the generator writes: a token stream, a reader for it in which
 AND binds tighter than OR (section 3.3.1 of IEC 61131-3, 2nd edition), and its value in a store.
 */
module StText {
  import opened Results

  /** A program variable, or the temporary that receives one output of a block. */
  datatype Var = Named(name: string) | Output(block: nat, pin: nat)

  /** A value is a boolean or a number; logical operators look at the truth of their operands. */
  datatype Value = Bool(b: bool) | Num(n: int)

  type Store = map<Var, Value>

  predicate Truth(v: Value) {
    match v
    case Bool(b) => b
    case Num(n) => n != 0
  }

  function Lookup(s: Store, v: Var): Value {
    if v in s then s[v] else Bool(false)
  }

  datatype Token = Word(v: Var) | TrueWord | AndWord | OrWord | NotOpen | Open | Close

  datatype Expr =
    | Constant
    | Ref(v: Var)
    | Negation(e: Expr)
    | Conj(l: Expr, r: Expr)
    | Disj(l: Expr, r: Expr)

  function Eval(e: Expr, s: Store): Value {
    match e
    case Constant => Bool(true)
    case Ref(v) => Lookup(s, v)
    case Negation(x) => Bool(!Truth(Eval(x, s)))
    case Conj(l, r) => Bool(Truth(Eval(l, s)) && Truth(Eval(r, s)))
    case Disj(l, r) => Bool(Truth(Eval(l, s)) || Truth(Eval(r, s)))
  }

  // ----- Reader: every function returns what it read and the tokens that follow it.

  type Reading = Option<(Expr, seq<Token>)>

  function ReadFactor(ts: seq<Token>): (r: Reading)
    ensures r.Some? ==> |r.value.1| < |ts|
    decreases |ts|, 0
  {
    if ts == [] then None
    else
      match ts[0]
      case Word(v) => Some((Ref(v), ts[1..]))
      case TrueWord => Some((Constant, ts[1..]))
      case NotOpen =>
        var r := ReadExpr(ts[1..]);
        if r.Some? && Starts(r.value.1, Close) then Some((Negation(r.value.0), r.value.1[1..])) else None
      case Open =>
        var r := ReadExpr(ts[1..]);
        if r.Some? && Starts(r.value.1, Close) then Some((r.value.0, r.value.1[1..])) else None
      case _ => None
  }

  predicate Starts(ts: seq<Token>, t: Token) {
    ts != [] && ts[0] == t
  }

  /** Reads one factor, conjoins it with what was already read, and goes on with the term. */
  function ReadTerm(acc: Option<Expr>, ts: seq<Token>): (r: Reading)
    ensures r.Some? ==> |r.value.1| < |ts|
    decreases |ts|, 1
  {
    var f := ReadFactor(ts);
    if f.None? then None else ReadTermTail(ConjWith(acc, f.value.0), f.value.1)
  }

  function ReadTermTail(e: Expr, ts: seq<Token>): (r: Reading)
    ensures r.Some? ==> |r.value.1| <= |ts|
    decreases |ts|, 2
  {
    if Starts(ts, AndWord) then ReadTerm(Some(e), ts[1..]) else Some((e, ts))
  }

  /** Reads one term, disjoins it with what was already read, and goes on with the expression. */
  function ReadSum(acc: Option<Expr>, ts: seq<Token>): (r: Reading)
    ensures r.Some? ==> |r.value.1| < |ts|
    decreases |ts|, 3
  {
    var t := ReadTerm(None, ts);
    if t.None? then None else ReadSumTail(DisjWith(acc, t.value.0), t.value.1)
  }

  function ReadSumTail(e: Expr, ts: seq<Token>): (r: Reading)
    ensures r.Some? ==> |r.value.1| <= |ts|
    decreases |ts|, 4
  {
    if Starts(ts, OrWord) then ReadSum(Some(e), ts[1..]) else Some((e, ts))
  }

  function ReadExpr(ts: seq<Token>): (r: Reading)
    ensures r.Some? ==> |r.value.1| < |ts|
    decreases |ts|, 5
  {
    ReadSum(None, ts)
  }

  function ConjWith(acc: Option<Expr>, e: Expr): Expr {
    if acc.None? then e else Conj(acc.value, e)
  }

  function DisjWith(acc: Option<Expr>, e: Expr): Expr {
    if acc.None? then e else Disj(acc.value, e)
  }

  /** The value of a complete expression text; a text that does not read as one counts as FALSE. */
  function EvalText(ts: seq<Token>, s: Store): Value {
    var r := ReadExpr(ts);
    if r.Some? && r.value.1 == [] then Eval(r.value.0, s) else Bool(false)
  }

  /** The text reads as one factor, so AND, OR and NOT can be put around it without parentheses. */
  predicate Closed(ts: seq<Token>) {
    var r := ReadFactor(ts);
    r.Some? && r.value.1 == []
  }

  /** The text is a whole expression. */
  predicate Complete(ts: seq<Token>) {
    var r := ReadExpr(ts);
    r.Some? && r.value.1 == []
  }

  function FactorValue(ts: seq<Token>, s: Store): Value {
    var r := ReadFactor(ts);
    if r.Some? then Eval(r.value.0, s) else Bool(false)
  }

  predicate EndsTerm(ts: seq<Token>) {
    !Starts(ts, AndWord)
  }

  predicate EndsSum(ts: seq<Token>) {
    !Starts(ts, AndWord) && !Starts(ts, OrWord)
  }

  // ----- What was read does not depend on the text after it.

  lemma {:induction false} FactorPrefix(ts: seq<Token>, x: seq<Token>)
    requires ReadFactor(ts).Some?
    ensures ReadFactor(ts + x) == Some((ReadFactor(ts).value.0, ReadFactor(ts).value.1 + x))
    decreases |ts|, 0
  {
    assert (ts + x)[1..] == ts[1..] + x;
    if ts[0] == NotOpen || ts[0] == Open {
      var r := ReadExpr(ts[1..]).value.1;
      SumPrefix(None, ts[1..], x);
      assert (r + x)[1..] == r[1..] + x;
    }
  }

  lemma {:induction false} TermPrefix(acc: Option<Expr>, ts: seq<Token>, x: seq<Token>)
    requires ReadTerm(acc, ts).Some?
    requires ReadTerm(acc, ts).value.1 != [] || EndsTerm(x)
    ensures ReadTerm(acc, ts + x) == Some((ReadTerm(acc, ts).value.0, ReadTerm(acc, ts).value.1 + x))
    decreases |ts|, 1
  {
    FactorPrefix(ts, x);
    var r := ReadFactor(ts).value.1;
    if Starts(r, AndWord) {
      assert (r + x)[1..] == r[1..] + x;
      TermPrefix(Some(ConjWith(acc, ReadFactor(ts).value.0)), r[1..], x);
    } else {
      assert r == [] ==> r + x == x;
    }
  }

  lemma {:induction false} SumPrefix(acc: Option<Expr>, ts: seq<Token>, x: seq<Token>)
    requires ReadSum(acc, ts).Some?
    requires ReadSum(acc, ts).value.1 != [] || EndsSum(x)
    ensures ReadSum(acc, ts + x) == Some((ReadSum(acc, ts).value.0, ReadSum(acc, ts).value.1 + x))
    decreases |ts|, 2
  {
    var r := ReadTerm(None, ts).value.1;
    TermPrefix(None, ts, x);
    if Starts(r, OrWord) {
      assert (r + x)[1..] == r[1..] + x;
      SumPrefix(Some(DisjWith(acc, ReadTerm(None, ts).value.0)), r[1..], x);
    } else {
      assert r == [] ==> r + x == x;
    }
  }

  /** A complete text keeps its value inside NOT( ) and becomes a closed factor. */
  lemma NotText(ts: seq<Token>, s: Store)
    requires Complete(ts)
    ensures var n := [NotOpen] + ts + [Close];
            Closed(n) && FactorValue(n, s) == Bool(!Truth(EvalText(ts, s)))
  {
    SumPrefix(None, ts, [Close]);
    assert ([NotOpen] + ts + [Close])[1..] == ts + [Close];
  }

  /** A closed factor is also a complete expression text, with the same value. */
  lemma ClosedIsExpr(ts: seq<Token>, s: Store)
    requires Closed(ts)
    ensures Complete(ts) && EvalText(ts, s) == FactorValue(ts, s)
  {
    assert ReadTerm(None, ts) == ReadFactor(ts);
    assert ReadSum(None, ts) == ReadFactor(ts);
  }

  // ----- An expression behind others

  /** The value of a term after a further factor. */
  ghost function Conjoined(acc: Option<Expr>, v: Value, s: Store): Value {
    if acc.None? then v else Bool(Truth(Eval(acc.value, s)) && Truth(v))
  }

  ghost function Disjoined(acc: Option<Expr>, v: Value, s: Store): Value {
    if acc.None? then v else Bool(Truth(Eval(acc.value, s)) || Truth(v))
  }

  /** A term is read the same behind others; its value is then conjoined with theirs. */
  lemma {:induction false} TermBehind(acc: Option<Expr>, ts: seq<Token>)
    ensures ReadTerm(acc, ts).Some? <==> ReadTerm(None, ts).Some?
    ensures ReadTerm(acc, ts).Some? ==>
              var r, alone := ReadTerm(acc, ts).value, ReadTerm(None, ts).value;
              r.1 == alone.1 && forall s :: Eval(r.0, s) == Conjoined(acc, Eval(alone.0, s), s)
    decreases |ts|
  {
    var f := ReadFactor(ts);
    if f.Some? && Starts(f.value.1, AndWord) {
      TermBehind(Some(ConjWith(acc, f.value.0)), f.value.1[1..]);
      TermBehind(Some(f.value.0), f.value.1[1..]);
    }
  }

  lemma {:induction false} SumBehind(acc: Option<Expr>, ts: seq<Token>)
    ensures ReadSum(acc, ts).Some? <==> ReadSum(None, ts).Some?
    ensures ReadSum(acc, ts).Some? ==>
              var r, alone := ReadSum(acc, ts).value, ReadSum(None, ts).value;
              r.1 == alone.1 && forall s :: Eval(r.0, s) == Disjoined(acc, Eval(alone.0, s), s)
    decreases |ts|
  {
    var t := ReadTerm(None, ts);
    if t.Some? && Starts(t.value.1, OrWord) {
      SumBehind(Some(DisjWith(acc, t.value.0)), t.value.1[1..]);
      SumBehind(Some(t.value.0), t.value.1[1..]);
    }
  }

  /** Where a text ends, reading goes on with what follows, as long as that does not continue its last term. */
  lemma {:induction false} SumThen(acc: Option<Expr>, ts: seq<Token>, x: seq<Token>)
    requires ReadSum(acc, ts).Some? && ReadSum(acc, ts).value.1 == [] && EndsTerm(x)
    ensures ReadSum(acc, ts + x) == ReadSumTail(ReadSum(acc, ts).value.0, x)
    decreases |ts|
  {
    var t := ReadTerm(None, ts).value;
    TermPrefix(None, ts, x);
    if t.1 == [] {
      assert t.1 + x == x;
    } else {
      assert (t.1 + x)[1..] == t.1[1..] + x;
      SumThen(Some(DisjWith(acc, t.0)), t.1[1..], x);
    }
  }

  /** What stands behind the first term of an expression. */
  function BehindFirstTerm(ts: seq<Token>): seq<Token> {
    var t := ReadTerm(None, ts);
    if t.Some? && Starts(t.value.1, OrWord) then t.value.1[1..] else []
  }

  /**
   An expression put behind a factor and AND keeps its value for all stores if and only if it is one term, or what
   stands behind its first term is never true unless the factor is.
   */
  lemma SplicedBehindAnd(f: seq<Token>, ts: seq<Token>)
    requires Closed(f) && Complete(ts)
    ensures (forall s :: Truth(EvalText(f + [AndWord] + ts, s)) <==> Truth(FactorValue(f, s)) && Truth(EvalText(ts, s)))
        <==> (forall s :: Truth(EvalText(BehindFirstTerm(ts), s)) ==> Truth(FactorValue(f, s)))
  {
    forall s
      ensures (Truth(EvalText(f + [AndWord] + ts, s)) <==> Truth(FactorValue(f, s)) && Truth(EvalText(ts, s)))
          <==> (Truth(EvalText(BehindFirstTerm(ts), s)) ==> Truth(FactorValue(f, s)))
    {
      SplicedValue(f, ts, s);
      FirstTermOr(ts, s);
    }
  }

  ghost predicate FirstTermTrue(ts: seq<Token>, s: Store) {
    ReadTerm(None, ts).Some? && Truth(Eval(ReadTerm(None, ts).value.0, s))
  }

  /** An expression is true when its first term is, or what stands behind that. */
  lemma FirstTermOr(ts: seq<Token>, s: Store)
    requires Complete(ts)
    ensures ReadTerm(None, ts).Some? && (Starts(ReadTerm(None, ts).value.1, OrWord) || ReadTerm(None, ts).value.1 == [])
    ensures Starts(ReadTerm(None, ts).value.1, OrWord) ==> Complete(BehindFirstTerm(ts))
    ensures Truth(EvalText(ts, s)) <==> FirstTermTrue(ts, s) || Truth(EvalText(BehindFirstTerm(ts), s))
  {
    assert ReadExpr(ts) == ReadSum(None, ts);
    var t := ReadTerm(None, ts).value;
    assert ReadSum(None, ts) == ReadSumTail(t.0, t.1);
    if Starts(t.1, OrWord) {
      assert ReadSumTail(t.0, t.1) == ReadSum(Some(t.0), t.1[1..]);
      SumBehind(Some(t.0), t.1[1..]);
      assert ReadExpr(t.1[1..]) == ReadSum(None, t.1[1..]);
    } else {
      NothingRead(s);
    }
  }

  /** The factor is conjoined with the first term only. */
  lemma SplicedValue(f: seq<Token>, ts: seq<Token>, s: Store)
    requires Closed(f) && Complete(ts)
    ensures Truth(EvalText(f + [AndWord] + ts, s)) <==>
            (Truth(FactorValue(f, s)) && FirstTermTrue(ts, s)) || Truth(EvalText(BehindFirstTerm(ts), s))
  {
    var e := ReadFactor(f).value.0;
    var all := f + [AndWord] + ts;
    FirstTermOr(ts, s);
    SplicedTerm(f, ts);
    TermBehind(Some(e), ts);
    var t := ReadTerm(None, ts).value;
    var joined := ReadTerm(Some(e), ts).value.0;
    assert ReadExpr(all) == ReadSum(None, all) == ReadSumTail(joined, t.1);
    if Starts(t.1, OrWord) {
      assert ReadSumTail(joined, t.1) == ReadSum(Some(joined), t.1[1..]);
      assert ReadExpr(t.1[1..]) == ReadSum(None, t.1[1..]);
      SumBehind(Some(joined), t.1[1..]);
    } else {
      NothingRead(s);
    }
  }

  lemma SplicedTerm(f: seq<Token>, ts: seq<Token>)
    requires Closed(f)
    ensures ReadTerm(None, f + [AndWord] + ts) == ReadTerm(Some(ReadFactor(f).value.0), ts)
  {
    assert f + [AndWord] + ts == f + ([AndWord] + ts) && ([AndWord] + ts)[1..] == ts;
    FactorPrefix(f, [AndWord] + ts);
    assert [] + ([AndWord] + ts) == [AndWord] + ts;
  }

  lemma NothingRead(s: Store)
    ensures !Truth(EvalText([], s))
  {
  }

  // ----- The value of a text depends only on the words in it

  ghost predicate SameWords(ts: seq<Token>, s: Store, t: Store) {
    forall v :: Word(v) in ts ==> Lookup(s, v) == Lookup(t, v)
  }

  ghost predicate SameValue(acc: Option<Expr>, s: Store, t: Store) {
    acc.Some? ==> Eval(acc.value, s) == Eval(acc.value, t)
  }

  lemma {:induction false} FactorFrame(ts: seq<Token>, s: Store, t: Store)
    requires SameWords(ts, s, t)
    ensures FactorValue(ts, s) == FactorValue(ts, t)
    ensures ReadFactor(ts).Some? ==> SameWords(ReadFactor(ts).value.1, s, t)
    decreases |ts|, 0
  {
    if ReadFactor(ts).Some? {
      assert ts[0] in ts && forall t :: t in ts[1..] ==> t in ts;
      if ts[0] == NotOpen || ts[0] == Open {
        assert ReadExpr(ts[1..]) == ReadSum(None, ts[1..]);
        SumFrame(None, ts[1..], s, t);
      }
    }
  }

  lemma {:induction false} TermFrame(acc: Option<Expr>, ts: seq<Token>, s: Store, t: Store)
    requires ReadTerm(acc, ts).Some? && SameWords(ts, s, t) && SameValue(acc, s, t)
    ensures Eval(ReadTerm(acc, ts).value.0, s) == Eval(ReadTerm(acc, ts).value.0, t)
    ensures SameWords(ReadTerm(acc, ts).value.1, s, t)
    decreases |ts|, 1
  {
    FactorFrame(ts, s, t);
    var r := ReadFactor(ts).value;
    if Starts(r.1, AndWord) {
      TermFrame(Some(ConjWith(acc, r.0)), r.1[1..], s, t);
    }
  }

  lemma {:induction false} SumFrame(acc: Option<Expr>, ts: seq<Token>, s: Store, t: Store)
    requires ReadSum(acc, ts).Some? && SameWords(ts, s, t) && SameValue(acc, s, t)
    ensures Eval(ReadSum(acc, ts).value.0, s) == Eval(ReadSum(acc, ts).value.0, t)
    ensures SameWords(ReadSum(acc, ts).value.1, s, t)
    decreases |ts|, 2
  {
    TermFrame(None, ts, s, t);
    var r := ReadTerm(None, ts).value;
    if Starts(r.1, OrWord) {
      SumFrame(Some(DisjWith(acc, r.0)), r.1[1..], s, t);
    }
  }

  lemma TextFrame(ts: seq<Token>, s: Store, t: Store)
    requires SameWords(ts, s, t)
    ensures EvalText(ts, s) == EvalText(ts, t)
  {
    if ReadExpr(ts).Some? {
      SumFrame(None, ts, s, t);
    }
  }
}
