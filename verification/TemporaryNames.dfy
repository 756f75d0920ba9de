/** The names of the temporaries that take the outputs of functions, and when two of them are the same. */
module TemporaryNames {
  import opened Sequences
  import opened FreeNames

  /** An output of a function: its type, the block's local id, and the formal parameter, which may be empty. */
  datatype Temporary = Temporary(typeName: string, id: nat, parameter: string)

  function Head(t: Temporary): string {
    t.typeName + Decimal(t.id)
  }

  function NameOf(t: Temporary): string {
    if t.parameter == "" then Head(t) else "_TMP_" + Head(t) + "_" + t.parameter
  }

  // ----- Cutting a text in two ways

  lemma Cut(a: string, b: string, c: string, d: string)
    requires a + b == c + d && |a| <= |c|
    ensures a == c[..|a|] && b == c[|a|..] + d
  {
    assert a == (a + b)[..|a|] == (c + d)[..|a|] == c[..|a|];
    assert b == (a + b)[|a|..] == (c + d)[|a|..];
  }

  // ----- The ways in which two names can be the same

  /** The second type is the first one and further digits, which the first block's id begins with. */
  predicate TakesDigits(s: Temporary, t: Temporary) {
    s.typeName < t.typeName && Decimal(s.id) == t.typeName[|s.typeName|..] + Decimal(t.id)
  }

  /** The second type goes on, behind the first type and id, with what the first parameter begins with. */
  predicate TakesParameter(s: Temporary, t: Temporary) {
    Head(s) < Head(t) && "_" + s.parameter == Head(t)[|Head(s)|..] + "_" + t.parameter
  }

  /** The first type is the name of the second temporary up to a number, which is the first block's id. */
  predicate TakesName(s: Temporary, t: Temporary) {
    var front := "_TMP_" + Head(t) + "_";
    front <= s.typeName && t.parameter == s.typeName[|front|..] + Decimal(s.id)
  }

  predicate Clash(s: Temporary, t: Temporary) {
    if s.parameter == t.parameter then TakesDigits(s, t)
    else if s.parameter == "" then TakesName(s, t)
    else t.parameter != "" && TakesParameter(s, t)
  }

  lemma SameHead(s: Temporary, t: Temporary)
    requires s.parameter == t.parameter && s != t
    ensures Head(s) == Head(t) <==> TakesDigits(s, t) || TakesDigits(t, s)
  {
    if Head(s) == Head(t) {
      HeadsCut(s, t);
    }
    if TakesDigits(s, t) {
      Associative(s.typeName, t.typeName[|s.typeName|..], Decimal(t.id));
    }
    if TakesDigits(t, s) {
      Associative(t.typeName, s.typeName[|t.typeName|..], Decimal(s.id));
    }
  }

  lemma HeadsCut(s: Temporary, t: Temporary)
    requires s.parameter == t.parameter && s != t && Head(s) == Head(t)
    ensures TakesDigits(s, t) || TakesDigits(t, s)
  {
    if |s.typeName| <= |t.typeName| {
      Cut(s.typeName, Decimal(s.id), t.typeName, Decimal(t.id));
    } else {
      Cut(t.typeName, Decimal(t.id), s.typeName, Decimal(s.id));
    }
    if s.typeName == t.typeName {
      DecimalInjective(s.id, t.id);
    }
  }

  lemma SameLong(s: Temporary, t: Temporary)
    requires s.parameter != t.parameter
    ensures Head(s) + ("_" + s.parameter) == Head(t) + ("_" + t.parameter) <==>
            TakesParameter(s, t) || TakesParameter(t, s)
  {
    if Head(s) + ("_" + s.parameter) == Head(t) + ("_" + t.parameter) {
      LongCut(s, t);
    }
    if TakesParameter(s, t) {
      Associative(Head(s), Head(t)[|Head(s)|..], "_" + t.parameter);
    }
    if TakesParameter(t, s) {
      Associative(Head(t), Head(s)[|Head(t)|..], "_" + s.parameter);
    }
  }

  lemma LongCut(s: Temporary, t: Temporary)
    requires s.parameter != t.parameter && Head(s) + ("_" + s.parameter) == Head(t) + ("_" + t.parameter)
    ensures TakesParameter(s, t) || TakesParameter(t, s)
  {
    if |Head(s)| <= |Head(t)| {
      Cut(Head(s), "_" + s.parameter, Head(t), "_" + t.parameter);
    } else {
      Cut(Head(t), "_" + t.parameter, Head(s), "_" + s.parameter);
    }
    UnderscoreRead(s.parameter, t.parameter);
  }

  lemma UnderscoreRead(a: string, b: string)
    ensures "_" + a == "_" + b ==> a == b
  {
    assert a == ("_" + a)[1..] && b == ("_" + b)[1..];
  }

  /** A number has no underscore in it. */
  lemma FrontFits(a: string, n: nat, front: string, rest: string)
    requires a + Decimal(n) == front + rest && front != "" && front[|front| - 1] == '_'
    ensures |front| <= |a|
  {
    DecimalExact(n);
    assert (front + rest)[|front| - 1] == '_';
  }

  lemma ShortAndLong(s: Temporary, t: Temporary)
    requires s.parameter == "" && t.parameter != ""
    ensures NameOf(s) == NameOf(t) <==> TakesName(s, t)
  {
    var front := "_TMP_" + Head(t) + "_";
    if NameOf(s) == NameOf(t) {
      FrontFits(s.typeName, s.id, front, t.parameter);
      Cut(front, t.parameter, s.typeName, Decimal(s.id));
    }
    if TakesName(s, t) {
      Associative(front, s.typeName[|front|..], Decimal(s.id));
    }
  }

  /** Two temporaries have the same name if and only if their types, ids and parameters run into each other. */
  lemma SameName(s: Temporary, t: Temporary)
    requires s != t
    ensures NameOf(s) == NameOf(t) <==> Clash(s, t) || Clash(t, s)
  {
    if s.parameter == t.parameter {
      SameHead(s, t);
      SameSuffix(s, t);
    } else if s.parameter == "" {
      ShortAndLong(s, t);
    } else if t.parameter == "" {
      ShortAndLong(t, s);
    } else {
      SameLong(s, t);
      WithoutPrefix(s, t);
    }
  }

  lemma WithoutPrefix(s: Temporary, t: Temporary)
    requires s.parameter != "" && t.parameter != ""
    ensures NameOf(s) == NameOf(t) <==> Head(s) + ("_" + s.parameter) == Head(t) + ("_" + t.parameter)
  {
    assert NameOf(s) == "_TMP_" + (Head(s) + ("_" + s.parameter));
    assert NameOf(t) == "_TMP_" + (Head(t) + ("_" + t.parameter));
    assert NameOf(s)[5..] == Head(s) + ("_" + s.parameter) && NameOf(t)[5..] == Head(t) + ("_" + t.parameter);
  }

  lemma SameSuffix(s: Temporary, t: Temporary)
    requires s.parameter == t.parameter
    ensures NameOf(s) == NameOf(t) <==> Head(s) == Head(t)
  {
    if s.parameter != "" && NameOf(s) == NameOf(t) {
      WithoutPrefix(s, t);
      assert |Head(s)| == |Head(t)|;
      Cut(Head(s), "_" + s.parameter, Head(t), "_" + t.parameter);
    }
  }

  // ----- Names that are safe

  /** The type name has no digit at its end or before an underscore, and does not look like a temporary. */
  predicate Tame(typeName: string) {
    && (forall i :: 0 < i < |typeName| && typeName[i] == '_' ==> !IsDigit(typeName[i - 1]))
    && (typeName != "" ==> !IsDigit(typeName[|typeName| - 1]))
    && !("_TMP_" <= typeName)
  }

  lemma EndsInDigit(s: Temporary, t: Temporary)
    requires TakesDigits(s, t)
    ensures IsDigit(t.typeName[|t.typeName| - 1])
  {
    DecimalExact(s.id);
    var n := |t.typeName| - |s.typeName|;
    assert Decimal(s.id)[n - 1] == t.typeName[|t.typeName| - 1];
  }

  lemma DigitAndUnderscore(s: Temporary, t: Temporary)
    requires TakesParameter(s, t)
    ensures exists i :: 0 < i < |t.typeName| && t.typeName[i] == '_' && IsDigit(t.typeName[i - 1])
  {
    DecimalExact(s.id);
    DecimalExact(t.id);
    var k := |Head(s)|;
    assert Head(t)[k] == ("_" + s.parameter)[0] == '_';
    assert Head(t)[k - 1] == Head(s)[k - 1] == Decimal(s.id)[|Decimal(s.id)| - 1];
    assert k < |t.typeName|;
  }

  lemma TameKeepsApart(s: Temporary, t: Temporary)
    requires Tame(s.typeName) && Tame(t.typeName)
    ensures !Clash(s, t)
  {
    if TakesDigits(s, t) {
      EndsInDigit(s, t);
    } else if TakesParameter(s, t) {
      DigitAndUnderscore(s, t);
    }
  }

  /** As long as all functions have such type names, different temporaries have different names. */
  lemma TameInjective(s: Temporary, t: Temporary)
    requires Tame(s.typeName) && Tame(t.typeName) && NameOf(s) == NameOf(t)
    ensures s == t
  {
    if s != t {
      TameKeepsApart(s, t);
      TameKeepsApart(t, s);
      SameName(s, t);
    }
  }

  /** It happens: block 12 of type ADD and block 2 of type ADD1; output A2_Q of an F and output Q of an F1_A. */
  lemma NamesClash()
    ensures NameOf(Temporary("ADD", 12, "")) == NameOf(Temporary("ADD1", 2, ""))
    ensures NameOf(Temporary("ADD", 12, "OUT")) == NameOf(Temporary("ADD1", 2, "OUT"))
    ensures NameOf(Temporary("F", 1, "A2_Q")) == NameOf(Temporary("F1_A", 2, "Q"))
  {
    assert Decimal(12) == Decimal(1) + ['2'] == "12" && Decimal(1) == "1" && Decimal(2) == "2";
    assert Head(Temporary("ADD", 12, "")) == "ADD12" == Head(Temporary("ADD1", 2, ""));
    assert Head(Temporary("ADD", 12, "OUT")) == "ADD12" == Head(Temporary("ADD1", 2, "OUT"));
    assert Head(Temporary("F", 1, "A2_Q")) == "F1" && Head(Temporary("F1_A", 2, "Q")) == "F1_A2";
    assert "_TMP_" + "F1" + "_" + "A2_Q" == "_TMP_" + "F1_A2" + "_" + "Q";
  }
}
