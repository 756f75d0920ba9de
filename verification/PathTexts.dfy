/**
 What the pieces the generator assembles denote: operand texts, the path of a contact, the text of a
 whole connection, and the arguments of a block call.
 */
module PathTexts {
  import opened Results
  import opened StText
  import opened Paths
  import opened PathOrder
  import opened Factorization
  import opened Networks
  import opened Emission

  /** The operand `v`, or NOT(v). */
  function Operand(v: Var, negated: bool): seq<Token> {
    if negated then [NotOpen, Word(v), Close] else [Word(v)]
  }

  lemma OperandValue(v: Var, negated: bool, s: Store)
    ensures Closed(Operand(v, negated)) && Complete(Operand(v, negated))
    ensures EvalText(Operand(v, negated), s) == Modified(negated, Lookup(s, v))
  {
    assert Closed([Word(v)]) && FactorValue([Word(v)], s) == Lookup(s, v);
    ClosedIsExpr([Word(v)], s);
    if negated {
      NotText([Word(v)], s);
      assert [NotOpen] + [Word(v)] + [Close] == Operand(v, true);
      ClosedIsExpr(Operand(v, true), s);
    }
  }

  /** What leads back along the link, through coils only, is an expression that is not one factor. */
  ghost predicate Loose(body: Body, rank: nat -> nat, l: Link)
    requires Ranked(body, rank)
    decreases if IsGate(body, l.ref) then rank(l.ref) + 1 else 0
  {
    l.ref in body &&
      match body[l.ref]
      case InVariable(text) => !Closed(text)
      case Coil(_, _, links) => exists m :: m in links && IsSource(body, m) && Loose(body, rank, m)
      case _ => false
  }

  /**
   The conditions under which the generator's text means what the network says: the text of an input variable is
   an expression, which is one factor if it is put behind a contact; and a coil that passes power on has exactly
   one connection.
   */
  ghost predicate Regular(body: Body, rank: nat -> nat)
    requires Ranked(body, rank)
  {
    && (forall id :: id in body && body[id].InVariable? ==> Complete(body[id].text))
    && (forall id :: id in body && body[id].Contact? ==> Behind(body, rank, body[id].links))
    && (forall id, l :: id in body && HasLink(body[id], l) ==> SingleCoil(body, l))
  }

  /** A single source behind a contact is printed without parentheses. */
  ghost predicate Behind(body: Body, rank: nat -> nat, links: seq<Link>)
    requires Ranked(body, rank)
  {
    |Live(body, links)| == 1 ==> !Loose(body, rank, Live(body, links)[0])
  }

  ghost predicate SingleCoil(body: Body, l: Link) {
    l.ref in body && body[l.ref].Coil? ==> |Live(body, body[l.ref].links)| == 1
  }

  ghost predicate SingleCoils(body: Body, links: seq<Link>) {
    forall l :: l in links ==> SingleCoil(body, l)
  }

  /** The path built for one link. */
  ghost predicate PathFor(body: Body, rank: nat -> nat, l: Link, p: Path)
    requires Ranked(body, rank) && IsSource(body, l)
  {
    && Disjoinable(p) && (!Loose(body, rank, l) ==> Conjoinable(p))
    && forall s :: Typed(body, s) ==> Meaning(p, s) == Contribution(body, rank, l, s)
  }

  ghost predicate PathsFor(body: Body, rank: nat -> nat, live: seq<Link>, paths: seq<Path>)
    requires Ranked(body, rank) && forall l :: l in live ==> IsSource(body, l)
  {
    |paths| == |live| && forall i :: 0 <= i < |live| ==> assert live[i] in live; PathFor(body, rank, live[i], paths[i])
  }

  lemma {:induction false} LiveAppend(body: Body, links: seq<Link>, k: nat)
    requires k < |links|
    ensures Live(body, links[..k + 1]) == Live(body, links[..k]) + (if IsSource(body, links[k]) then [links[k]] else [])
  {
    if k == 0 {
      assert links[..1] == [links[0]];
      assert links[..1][1..] == [];
    } else {
      assert links[..k + 1][1..] == links[1..][..k] && links[..k][1..] == links[1..][..k - 1];
      LiveAppend(body, links[1..], k - 1);
    }
  }

  lemma PathsTruth(body: Body, rank: nat -> nat, links: seq<Link>, bound: nat, paths: seq<Path>, s: Store)
    requires Ranked(body, rank) && Below(body, rank, links, bound) && Typed(body, s)
    requires PathsFor(body, rank, Live(body, links), paths)
    ensures AllDisjoinable(paths)
    ensures AnyTrue(paths, s) == Truth(Flow(body, rank, links, bound, s))
    ensures |paths| == 1 ==> Meaning(paths[0], s) == Flow(body, rank, links, bound, s)
    ensures |paths| != 1 ==> Flow(body, rank, links, bound, s) == Bool(AnyTrue(paths, s))
  {
    var live := Live(body, links);
    ResultDisjoinable(body, rank, live, paths);
    PathsContribute(body, rank, live, paths, s);
    SomeTrue(body, rank, live, paths, s);
  }

  lemma PathsContribute(body: Body, rank: nat -> nat, live: seq<Link>, paths: seq<Path>, s: Store)
    requires Ranked(body, rank) && Typed(body, s) && forall l :: l in live ==> IsSource(body, l)
    requires PathsFor(body, rank, live, paths)
    ensures |paths| == |live|
    ensures forall i :: 0 <= i < |live| ==>
              live[i] in live && Meaning(paths[i], s) == Contribution(body, rank, live[i], s)
  {
    forall i | 0 <= i < |live|
      ensures live[i] in live && PathFor(body, rank, live[i], paths[i])
    {
      assert live[i] in live;
    }
  }

  lemma SomeTrue(body: Body, rank: nat -> nat, live: seq<Link>, paths: seq<Path>, s: Store)
    requires Ranked(body, rank) && |paths| == |live| && forall l :: l in live ==> IsSource(body, l)
    requires forall i :: 0 <= i < |live| ==>
              live[i] in live && Meaning(paths[i], s) == Contribution(body, rank, live[i], s)
    ensures AnyTrue(paths, s) <==> exists l :: l in live && Truth(Contribution(body, rank, l, s))
  {
    if p :| p in paths && Truth(Meaning(p, s)) {
      var i :| 0 <= i < |paths| && paths[i] == p;
      assert live[i] in live;
    }
    if l :| l in live && Truth(Contribution(body, rank, l, s)) {
      var i :| 0 <= i < |live| && live[i] == l;
      assert paths[i] in paths;
    }
  }

  /** The path of a contact in front of what feeds it (before and after factorizing). */
  function ContactPath(variable: Path, result: seq<Path>, factorized: seq<Path>): Path
    requires result != []
  {
    if |result| > 1 then
      if |factorized| > 1 then Series([variable, Parallel(factorized)]) else Series([variable] + factorized)
    else
      match result[0]
      case Series(items) => Series([variable] + items)
      case Rail => variable
      case _ => Series([variable, result[0]])
  }

  /** The paths of a connection as they are put together: factorized if there are several. */
  function Joined(paths: seq<Path>, before: Before): seq<Path> {
    if |paths| > 1 then Factorized(paths, before) else paths
  }

  /** The path that a link stands for. */
  ghost function PathOf(body: Body, rank: nat -> nat, before: Before, l: Link): Path
    requires Ranked(body, rank) && IsSource(body, l)
    decreases if IsGate(body, l.ref) then rank(l.ref) + 1 else 0, 0
  {
    match body[l.ref]
    case LeftRail => Rail
    case InVariable(text) => Atom(l.ref, text)
    case OutVariable(_, _) => Rail
    case Block(_, _, outputs) =>
      if l.pin < |outputs| then Atom(l.ref, Operand(Output(l.ref, l.pin), outputs[l.pin])) else Rail
    case Contact(name, negated, links) =>
      var result := PathsOf(body, rank, before, links, rank(l.ref));
      if result == [] then Rail
      else ContactPath(Atom(l.ref, Operand(Named(name), negated)), result, Joined(result, before))
    case Coil(_, _, links) => Series(PathsOf(body, rank, before, links, rank(l.ref)))
  }

  /** The paths of the sources of a connection. */
  ghost function PathsOf(body: Body, rank: nat -> nat, before: Before, links: seq<Link>, bound: nat): (r: seq<Path>)
    requires Ranked(body, rank) && Below(body, rank, links, bound)
    ensures |r| == |Live(body, links)|
    decreases bound, 1
  {
    var live := Live(body, links);
    seq(|live|, i requires 0 <= i < |live| => assert live[i] in live; PathOf(body, rank, before, live[i]))
  }

  lemma PathsOfAppend(body: Body, rank: nat -> nat, before: Before, links: seq<Link>, k: nat, bound: nat)
    requires Ranked(body, rank) && Below(body, rank, links, bound) && k < |links|
    ensures Below(body, rank, links[..k], bound) && Below(body, rank, links[..k + 1], bound)
    ensures PathsOf(body, rank, before, links[..k + 1], bound)
         == PathsOf(body, rank, before, links[..k], bound)
            + if IsSource(body, links[k]) then [PathOf(body, rank, before, links[k])] else []
  {
    LiveAppend(body, links, k);
  }

  lemma InFront(variable: Path, rest: seq<Path>, s: Store)
    requires Conjoinable(variable) && AllConjoinable(rest) && rest != []
    ensures var p := Series([variable] + rest);
            && Conjoinable(p)
            && Meaning(p, s) == Bool(Truth(Meaning(variable, s)) && AllTrue(rest, s))
  {
    assert forall q :: q in [variable] + rest <==> q == variable || q in rest;
  }

  lemma ContactPathTruth(variable: Path, result: seq<Path>, factorized: seq<Path>, s: Store)
    requires result != [] && (|result| > 1 ==> factorized != [])
    requires AnyTrue(factorized, s) == AnyTrue(result, s)
    requires Conjoinable(variable) && AllDisjoinable(result) && AllDisjoinable(factorized) && variable.Atom?
    requires |result| == 1 ==> Conjoinable(result[0])
    requires |result| > 1 && |factorized| == 1 ==> Long(factorized[0])
    ensures var p := ContactPath(variable, result, factorized);
            && Conjoinable(p)
            && Truth(Meaning(p, s)) == (Truth(Meaning(variable, s)) && AnyTrue(result, s))
            && (p != variable ==> Meaning(p, s).Bool?)
  {
    assert result[0] in result && Disjoinable(result[0]);
    if |result| > 1 {
      if |factorized| > 1 {
        ParallelTruth(factorized, s);
        InFront(variable, [Parallel(factorized)], s);
        assert [variable] + [Parallel(factorized)] == [variable, Parallel(factorized)];
      } else {
        assert factorized == [factorized[0]] && Disjoinable(factorized[0]) && Conjoinable(factorized[0]);
        SeriesTruth(factorized, s);
        ParallelTruth(factorized, s);
        InFront(variable, factorized, s);
      }
    } else {
      assert result == [result[0]];
      if result[0].Series? {
        SeriesTruth(result[0].items, s);
        InFront(variable, result[0].items, s);
      } else if !result[0].Rail? {
        InFront(variable, result, s);
        assert [variable] + result == [variable, result[0]];
      }
    }
  }

  lemma ContactContribution(body: Body, rank: nat -> nat, l: Link, result: seq<Path>, factorized: seq<Path>)
    requires Ranked(body, rank) && l.ref in body && body[l.ref].Contact?
    requires PathsFor(body, rank, Live(body, body[l.ref].links), result)
    requires result != [] && (|result| > 1 ==> factorized != [])
    requires forall s: Store :: AnyTrue(factorized, s) == AnyTrue(result, s)
    requires AllDisjoinable(result) ==> AllDisjoinable(factorized)
    requires |result| > 1 && |factorized| == 1 ==> Long(factorized[0])
    requires Behind(body, rank, body[l.ref].links)
    ensures var n := body[l.ref];
            PathFor(body, rank, l, ContactPath(Atom(l.ref, Operand(Named(n.name), n.negated)), result, factorized))
  {
    var n := body[l.ref];
    var variable := Atom(l.ref, Operand(Named(n.name), n.negated));
    OperandValue(Named(n.name), n.negated, map[]);
    ResultDisjoinable(body, rank, Live(body, n.links), result);
    ContactPathTruth(variable, result, factorized, map[]);
    ConjoinableIsDisjoinable(ContactPath(variable, result, factorized));
    forall s | Typed(body, s)
      ensures Meaning(ContactPath(variable, result, factorized), s) == Contribution(body, rank, l, s)
    {
      OperandValue(Named(n.name), n.negated, s);
      PathsTruth(body, rank, n.links, rank(l.ref), result, s);
      ContactPathTruth(variable, result, factorized, s);
      assert Lookup(s, Named(n.name)).Bool?;
    }
  }

  lemma ResultDisjoinable(body: Body, rank: nat -> nat, live: seq<Link>, paths: seq<Path>)
    requires Ranked(body, rank) && forall l :: l in live ==> IsSource(body, l)
    requires PathsFor(body, rank, live, paths)
    ensures AllDisjoinable(paths)
    ensures forall i :: 0 <= i < |paths| && !Loose(body, rank, live[i]) ==> Conjoinable(paths[i])
  {
    forall i | 0 <= i < |paths|
      ensures Disjoinable(paths[i]) && (!Loose(body, rank, live[i]) ==> Conjoinable(paths[i]))
    {
      assert live[i] in live && PathFor(body, rank, live[i], paths[i]);
    }
  }

  /**
   The path of a coil that passes power on is true when all of its connections conduct; if it has one, the path
   has the value that reaches the coil.
   */
  lemma CoilContribution(body: Body, rank: nat -> nat, l: Link, result: seq<Path>)
    requires Ranked(body, rank) && l.ref in body && body[l.ref].Coil?
    requires Live(body, body[l.ref].links) != []
    requires PathsFor(body, rank, Live(body, body[l.ref].links), result)
    ensures (forall m :: m in Live(body, body[l.ref].links) ==> !Loose(body, rank, m)) ==> Conjoinable(Series(result))
    ensures forall s :: Typed(body, s) ==>
              (Truth(Meaning(Series(result), s)) <==>
               forall m :: m in Live(body, body[l.ref].links) ==> Truth(Contribution(body, rank, m, s)))
    ensures |Live(body, body[l.ref].links)| == 1 ==> PathFor(body, rank, l, Series(result))
  {
    var live := Live(body, body[l.ref].links);
    ResultDisjoinable(body, rank, live, result);
    assert |live| == 1 ==> live[0] in live;
    forall s | Typed(body, s)
      ensures Truth(Meaning(Series(result), s)) <==> forall m :: m in live ==> Truth(Contribution(body, rank, m, s))
      ensures |live| == 1 ==> Meaning(Series(result), s) == Contribution(body, rank, l, s)
    {
      SeriesTruth(result, s);
      AllConduct(body, rank, live, result, s);
      PathsTruth(body, rank, body[l.ref].links, rank(l.ref), result, s);
    }
  }

  lemma AllConduct(body: Body, rank: nat -> nat, live: seq<Link>, paths: seq<Path>, s: Store)
    requires Ranked(body, rank) && Typed(body, s) && forall l :: l in live ==> IsSource(body, l)
    requires PathsFor(body, rank, live, paths)
    ensures AllTrue(paths, s) <==> forall m :: m in live ==> Truth(Contribution(body, rank, m, s))
  {
    assert forall i :: 0 <= i < |live| ==>
        live[i] in live && paths[i] in paths && PathFor(body, rank, live[i], paths[i]);
  }

  /** The text of a whole connection reads completely and has the value that reaches the connection. */
  ghost predicate TextFor(body: Body, rank: nat -> nat, top: nat, links: seq<Link>, text: seq<Token>)
    requires Layered(body, rank, top)
  {
    && Complete(text)
    && forall s :: Typed(body, s) ==> EvalText(text, s) == Flow(body, rank, links, top, s)
  }

  /** The tree printed for a connection: the only path, or the OR of the factorized paths. */
  function ConnectionPath(paths: seq<Path>, factorized: seq<Path>): Path
    requires paths != [] && (|paths| > 1 ==> factorized != [])
  {
    if |paths| == 1 then paths[0]
    else if |factorized| > 1 then Parallel(factorized)
    else factorized[0]
  }

  lemma ConnectionText(body: Body, rank: nat -> nat, top: nat, links: seq<Link>, paths: seq<Path>,
          factorized: seq<Path>)
    requires Layered(body, rank, top) && PathsFor(body, rank, Live(body, links), paths)
    requires paths != [] && (|paths| > 1 ==> factorized != [])
    requires forall s: Store :: AnyTrue(factorized, s) == AnyTrue(paths, s)
    requires AllDisjoinable(paths) ==> AllDisjoinable(factorized)
    requires |paths| > 1 && |factorized| == 1 ==> factorized[0].Series? && |factorized[0].items| > 1
    ensures TextFor(body, rank, top, links, ComputePaths(ConnectionPath(paths, factorized), true))
  {
    var p := ConnectionPath(paths, factorized);
    ResultDisjoinable(body, rank, Live(body, links), paths);
    PrintReadRoundTrip(p);
    forall s | Typed(body, s)
      ensures Meaning(p, s) == Flow(body, rank, links, top, s)
    {
      PathsTruth(body, rank, links, top, paths, s);
      if |paths| > 1 {
        if |factorized| == 1 {
          assert factorized == [factorized[0]];
        }
      }
    }
  }

  /** The printed condition is true exactly when power is conducted to the connection. */
  lemma TextConducts(body: Body, rank: nat -> nat, top: nat, links: seq<Link>, text: seq<Token>)
    requires Layered(body, rank, top) && TextFor(body, rank, top, links, text)
    ensures forall s :: Typed(body, s) ==> Truth(EvalText(text, s)) == Reached(body, links, s)
  {
    forall s | Typed(body, s)
      ensures Truth(EvalText(text, s)) == Reached(body, links, s)
    {
      FlowIsConduction(body, rank, links, top, s);
    }
  }

  /**
   The paths of a coil that passes power on are put in one list, which reads as AND, while its connections
   are a wired OR. The two agree for all paths and stores exactly when the coil has one connection.
   */
  lemma PassThroughCoil(n: nat)
    requires n >= 1
    ensures (forall result: seq<Path>, s: Store :: |result| == n ==>
               Truth(Meaning(Series(result), s)) == AnyTrue(result, s)) <==> n == 1
  {
    if n == 1 {
      forall result: seq<Path>, s: Store | |result| == 1
        ensures Truth(Meaning(Series(result), s)) == AnyTrue(result, s)
      {
        assert result == [result[0]];
        ParallelTruth(result, s);
      }
    } else {
      var open := Atom(0, [Word(Named("x"))]);
      var result := [Rail] + seq(n - 1, _ => open);
      SeriesTruth(result, map[]);
      assert result[0] == Rail && result[1] == open && Rail in result && open in result;
      assert Truth(Meaning(Rail, map[]));
      assert ReadFactor([Word(Named("x"))]) == Some((Ref(Named("x")), []));
      assert !Truth(Meaning(open, map[]));
      assert |result| == n;
    }
  }

  /**
   The path of a coil without a connection is an empty list. Alone it is printed as an empty text, which cannot
   be read; a contact behind it is printed as if it were at the rail.
   */
  lemma UnconnectedCoil(first: bool, variable: Path)
    requires variable.Atom?
    ensures ReadExpr(ComputePaths(Series([]), first)).None?
    ensures ComputePaths(ContactPath(variable, [Series([])], []), first)
         == ComputePaths(ContactPath(variable, [Rail], []), first)
  {
    assert [variable] + [] == [variable];
    assert JoinPaths([variable], AndWord) == ComputePaths(variable, false);
  }

  // ----- Arguments of a call

  /** The inputs with a wired pin, in order, up to input `n`. */
  function WiredInputs(body: Body, inputs: seq<Option<InPin>>, n: nat): (r: seq<nat>)
    requires n <= |inputs|
    ensures forall k: nat :: k in r <==> k < n && Wired(body, inputs[k])
    ensures forall i, j :: 0 <= i < j < |r| ==> r[i] < r[j]
  {
    if n == 0 then []
    else
      var r := WiredInputs(body, inputs, n - 1);
      assert forall i :: 0 <= i < |r| ==> r[i] in r;
      if Wired(body, inputs[n - 1]) then r + [n - 1] else r
  }

  function PinText(pin: InPin, text: seq<Token>): seq<Token> {
    if pin.negated then [NotOpen] + text + [Close] else text
  }

  /** `connected` holds, for each wired input so far, its index and the text of its value. */
  ghost predicate ArgsFor(body: Body, rank: nat -> nat, top: nat, inputs: seq<Option<InPin>>, n: nat,
          connected: seq<(nat, seq<Token>)>)
    requires Layered(body, rank, top) && n <= |inputs|
  {
    var wired := WiredInputs(body, inputs, n);
    && |connected| == |wired|
    && forall i :: 0 <= i < |wired| ==>
         && assert wired[i] in wired; connected[i].0 == wired[i]
         && forall s :: Typed(body, s) ==>
              EvalText(connected[i].1, s) == PinValue(body, rank, top, inputs[wired[i]].value, s)
  }

  lemma PinTextFor(body: Body, rank: nat -> nat, top: nat, pin: InPin, text: seq<Token>)
    requires Layered(body, rank, top) && TextFor(body, rank, top, pin.links, text)
    ensures forall s :: Typed(body, s) ==> EvalText(PinText(pin, text), s) == PinValue(body, rank, top, pin, s)
  {
    if pin.negated {
      forall s | Typed(body, s)
        ensures EvalText(PinText(pin, text), s) == PinValue(body, rank, top, pin, s)
      {
        NotText(text, s);
        ClosedIsExpr(PinText(pin, text), s);
      }
    }
  }

  function FormalArgs(connected: seq<(nat, seq<Token>)>): seq<Arg> {
    seq(|connected|, i requires 0 <= i < |connected| => Formal(connected[i].0, connected[i].1))
  }

  function PositionalArgs(connected: seq<(nat, seq<Token>)>): seq<Arg> {
    seq(|connected|, i requires 0 <= i < |connected| => Positional(connected[i].1))
  }

  /** A call names its inputs unless it is a function with one output and a pin for every input. */
  predicate NamesInputs(n: Node)
    requires n.Block?
  {
    n.kind.FunctionBlock? || |n.outputs| > 1 || exists pin :: pin in n.inputs && pin.None?
  }

  /** The wired inputs are the first ones, so position and formal parameter agree. */
  predicate PrefixWired(body: Body, inputs: seq<Option<InPin>>) {
    forall i, j :: 0 <= i < j < |inputs| && Wired(body, inputs[j]) ==> Wired(body, inputs[i])
  }

  /** Of a function with at most one output and a pin for every input it is asked that its wired inputs have no gap. */
  predicate BindsRight(body: Body, b: nat)
    requires IsBlock(body, b)
  {
    var n := body[b];
    n.kind.Function? && |n.outputs| <= 1 && (forall pin :: pin in n.inputs ==> pin.Some?) ==>
      PrefixWired(body, n.inputs)
  }

  lemma FormalLast(front: seq<(nat, seq<Token>)>, last: (nat, seq<Token>), s: Store)
    ensures ArgValues(FormalArgs(front + [last]), s) == ArgValues(FormalArgs(front), s)[last.0 := EvalText(last.1, s)]
  {
    assert FormalArgs(front + [last])[..|front|] == FormalArgs(front);
  }

  lemma {:induction false} FormalBinding(connected: seq<(nat, seq<Token>)>, s: Store)
    requires forall i, j :: 0 <= i < j < |connected| ==> connected[i].0 < connected[j].0
    ensures var m := ArgValues(FormalArgs(connected), s);
            && m.Keys == (set c | c in connected :: c.0)
            && (forall c :: c in connected ==> c.0 in m && m[c.0] == EvalText(c.1, s))
    decreases |connected|
  {
    if connected != [] {
      var n := |connected| - 1;
      var front, last := connected[..n], connected[n];
      assert connected == front + [last];
      FormalLast(front, last, s);
      FormalBinding(front, s);
      var m := ArgValues(FormalArgs(front), s);
      assert forall i :: 0 <= i < n ==> front[i].0 != last.0;
      assert ArgValues(FormalArgs(connected), s) == m[last.0 := EvalText(last.1, s)];
      LastBound(front, last, m, EvalText(last.1, s), s);
    }
  }

  lemma LastBound(front: seq<(nat, seq<Token>)>, last: (nat, seq<Token>), m: map<nat, Value>, v: Value, s: Store)
    requires forall c :: c in front ==> c.0 != last.0
    requires m.Keys == (set c | c in front :: c.0) && forall c :: c in front ==> c.0 in m && m[c.0] == EvalText(c.1, s)
    ensures m[last.0 := v].Keys == (set c | c in front + [last] :: c.0)
    ensures forall c :: c in front ==> c.0 in m[last.0 := v] && m[last.0 := v][c.0] == EvalText(c.1, s)
  {
    var all := front + [last];
    assert last in all && forall c :: c in all <==> c in front || c == last;
    assert (set c | c in all :: c.0) == (set c | c in front :: c.0) + {last.0};
  }

  lemma {:induction false} PositionalBinding(connected: seq<(nat, seq<Token>)>, s: Store)
    ensures var m := ArgValues(PositionalArgs(connected), s);
            && (forall k: nat :: k in m <==> k < |connected|)
            && (forall i :: 0 <= i < |connected| ==> m[i] == EvalText(connected[i].1, s))
    decreases |connected|
  {
    if connected != [] {
      var n := |connected| - 1;
      assert PositionalArgs(connected)[..n] == PositionalArgs(connected[..n]);
      PositionalBinding(connected[..n], s);
      assert forall i :: 0 <= i < n ==> connected[..n][i] == connected[i];
    }
  }

  lemma {:induction false} PrefixInputs(body: Body, inputs: seq<Option<InPin>>, n: nat)
    requires n <= |inputs| && PrefixWired(body, inputs)
    ensures forall i :: 0 <= i < |WiredInputs(body, inputs, n)| ==> WiredInputs(body, inputs, n)[i] == i
    ensures |WiredInputs(body, inputs, n)| < n ==> !Wired(body, inputs[|WiredInputs(body, inputs, n)|])
  {
    if n > 0 {
      PrefixInputs(body, inputs, n - 1);
    }
  }

  /** In one store: the texts collected for the wired inputs have the values of those inputs. */
  lemma ArgsAt(body: Body, rank: nat -> nat, top: nat, b: nat, connected: seq<(nat, seq<Token>)>, s: Store)
    requires Layered(body, rank, top) && IsBlock(body, b) && Typed(body, s)
    requires ArgsFor(body, rank, top, body[b].inputs, |body[b].inputs|, connected)
    ensures var v, wired := InputValues(body, rank, top, b, s), WiredInputs(body, body[b].inputs, |body[b].inputs|);
            && |connected| == |wired|
            && (forall k: nat :: k in v <==> k in wired)
            && (forall i :: 0 <= i < |wired| ==>
                  connected[i].0 == wired[i] && wired[i] in v && v[wired[i]] == EvalText(connected[i].1, s))
  {
    var wired := WiredInputs(body, body[b].inputs, |body[b].inputs|);
    assert forall i :: 0 <= i < |wired| ==> wired[i] in wired;
  }

  lemma FormalMap(connected: seq<(nat, seq<Token>)>, wired: seq<nat>, v: map<nat, Value>, s: Store)
    requires |connected| == |wired| && forall i, j :: 0 <= i < j < |wired| ==> wired[i] < wired[j]
    requires forall k: nat :: k in v <==> k in wired
    requires forall i :: 0 <= i < |wired| ==>
               connected[i].0 == wired[i] && wired[i] in v && v[wired[i]] == EvalText(connected[i].1, s)
    ensures ArgValues(FormalArgs(connected), s) == v
  {
    FormalBinding(connected, s);
    BoundAs(connected, wired, v, ArgValues(FormalArgs(connected), s), s);
  }

  /** Two maps that give the wired inputs the values of the same texts are equal. */
  lemma BoundAs(connected: seq<(nat, seq<Token>)>, wired: seq<nat>, v: map<nat, Value>, m: map<nat, Value>, s: Store)
    requires |connected| == |wired| && forall k: nat :: k in v <==> k in wired
    requires forall i :: 0 <= i < |wired| ==>
               connected[i].0 == wired[i] && wired[i] in v && v[wired[i]] == EvalText(connected[i].1, s)
    requires m.Keys == set c | c in connected :: c.0
    requires forall c :: c in connected ==> c.0 in m && m[c.0] == EvalText(c.1, s)
    ensures m == v
  {
    forall k
      ensures k in m <==> k in v
      ensures k in v ==> m[k] == v[k]
    {
      if k in v {
        var i :| 0 <= i < |wired| && wired[i] == k;
        assert connected[i] in connected;
      }
      if k in m {
        var c :| c in connected && c.0 == k;
        var i :| 0 <= i < |wired| && connected[i] == c;
        assert wired[i] in wired;
      }
    }
  }

  lemma PositionalMap(connected: seq<(nat, seq<Token>)>, wired: seq<nat>, v: map<nat, Value>, s: Store)
    requires |connected| == |wired|
    requires forall k: nat :: k in v <==> k in wired
    requires forall i :: 0 <= i < |wired| ==> wired[i] == i
    requires forall i :: 0 <= i < |wired| ==>
               connected[i].0 == wired[i] && wired[i] in v && v[wired[i]] == EvalText(connected[i].1, s)
    ensures ArgValues(PositionalArgs(connected), s) == v
  {
    PositionalBinding(connected, s);
  }

  /** Calling by formal parameter hands every wired input its value. */
  lemma FormalArgsFaithful(body: Body, rank: nat -> nat, top: nat, b: nat, connected: seq<(nat, seq<Token>)>, s: Store)
    requires Layered(body, rank, top) && IsBlock(body, b) && Typed(body, s)
    requires ArgsFor(body, rank, top, body[b].inputs, |body[b].inputs|, connected)
    ensures ArgValues(FormalArgs(connected), s) == InputValues(body, rank, top, b, s)
  {
    ArgsAt(body, rank, top, b, connected, s);
    var inputs := body[b].inputs;
    FormalMap(connected, WiredInputs(body, inputs, |inputs|), InputValues(body, rank, top, b, s), s);
  }

  lemma PositionalGap(connected: seq<(nat, seq<Token>)>, v: map<nat, Value>, i: nat, j: nat, s: Store)
    requires i < j && j in v && i !in v
    ensures ArgValues(PositionalArgs(connected), s).Keys != v.Keys
  {
    PositionalBinding(connected, s);
    var m := ArgValues(PositionalArgs(connected), s);
    assert j in m.Keys ==> i in m.Keys;
    assert j in v.Keys && i !in v.Keys;
  }

  /**
   Calling by position hands every input its value exactly when no unwired input precedes a wired one: an
   unwired pin is left out of the list, so the arguments behind it move up.
   */
  lemma PositionalArgsFaithful(body: Body, rank: nat -> nat, top: nat, b: nat, connected: seq<(nat, seq<Token>)>,
          s: Store)
    requires Layered(body, rank, top) && IsBlock(body, b) && Typed(body, s)
    requires ArgsFor(body, rank, top, body[b].inputs, |body[b].inputs|, connected)
    ensures ArgValues(PositionalArgs(connected), s) == InputValues(body, rank, top, b, s) <==>
            PrefixWired(body, body[b].inputs)
  {
    var inputs := body[b].inputs;
    ArgsAt(body, rank, top, b, connected, s);
    var v, wired := InputValues(body, rank, top, b, s), WiredInputs(body, inputs, |inputs|);
    if PrefixWired(body, inputs) {
      PrefixInputs(body, inputs, |inputs|);
      PositionalMap(connected, wired, v, s);
    } else {
      var i: nat, j: nat :| i < j < |inputs| && Wired(body, inputs[j]) && !Wired(body, inputs[i]);
      PositionalGap(connected, v, i, j, s);
    }
  }

  /** A function of two inputs, the first of which is not connected. */
  const GAP: Body := map[0 := InVariable([Word(Named("x"))]),
                         1 := Block(Function, [Some(InPin([], false)), Some(InPin([Link(0, 0)], false))], [false])]

  const READ_X: seq<Token> := [Word(Named("x"))]

  lemma GapValue(rank: nat -> nat, top: nat, s: Store)
    requires Layered(GAP, rank, top)
    ensures EvalText(READ_X, s) == Lookup(s, Named("x"))
    ensures PinValue(GAP, rank, top, GAP[1].inputs[1].value, s) == Lookup(s, Named("x"))
  {
    ClosedIsExpr(READ_X, s);
    assert ReadFactor(READ_X) == Some((Ref(Named("x")), []));
    GapWired();
    assert Flow(GAP, rank, [Link(0, 0)], top, s) == FactorValue(READ_X, s);
  }

  /** It is called by position, and its first input is given what reaches the second. */
  lemma GapHappens(rank: nat -> nat, top: nat, s: Store)
    requires Layered(GAP, rank, top)
    ensures !NamesInputs(GAP[1])
    ensures ArgsFor(GAP, rank, top, GAP[1].inputs, |GAP[1].inputs|, [(1, READ_X)])
    ensures ArgValues(PositionalArgs([(1, READ_X)]), s) == map[0 := Lookup(s, Named("x"))]
    ensures InputValues(GAP, rank, top, 1, s) == map[1 := Lookup(s, Named("x"))]
  {
    GapArgument(rank, top);
    GapValue(rank, top, s);
    GapWired();
    OnlyArgument(s);
  }

  lemma GapArgument(rank: nat -> nat, top: nat)
    requires Layered(GAP, rank, top)
    ensures ArgsFor(GAP, rank, top, GAP[1].inputs, |GAP[1].inputs|, [(1, READ_X)])
  {
    forall t
      ensures EvalText(READ_X, t) == PinValue(GAP, rank, top, GAP[1].inputs[1].value, t)
    {
      GapValue(rank, top, t);
    }
    GapWired();
  }

  lemma OnlyArgument(s: Store)
    ensures ArgValues(PositionalArgs([(1, READ_X)]), s) == map[0 := EvalText(READ_X, s)]
  {
    var args := PositionalArgs([(1, READ_X)]);
    assert args == [Positional(READ_X)] && args[..0] == [];
    assert ArgValues(args[..0], s) == map[];
  }

  lemma GapWired()
    ensures Live(GAP, [Link(0, 0)]) == [Link(0, 0)] && Live(GAP, []) == []
    ensures WiredInputs(GAP, GAP[1].inputs, 2) == [1]
    ensures Wired(GAP, GAP[1].inputs[1]) && !Wired(GAP, GAP[1].inputs[0])
  {
    assert [Link(0, 0)][1..] == [];
    assert WiredInputs(GAP, GAP[1].inputs, 1) == [];
  }
}
