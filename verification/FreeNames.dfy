/**
 The searches for a free name and for a free channel among those of the siblings.
 */
module FreeNames {
  import opened Sequences
  import FiniteSets
  import opened Results

  // ----- Numbers in decimal

  function Digit(d: nat): char
    requires d < 10
  {
    '0' + d as char
  }

  function Decimal(n: nat): (r: string)
    ensures r != ""
  {
    if n < 10 then [Digit(n)] else Decimal(n / 10) + [Digit(n % 10)]
  }

  lemma {:induction false} DecimalInjective(m: nat, n: nat)
    requires Decimal(m) == Decimal(n)
    ensures m == n
    decreases m
  {
    var s, t := Decimal(m), Decimal(n);
    assert s[|s| - 1] == t[|t| - 1];
    if m >= 10 && n >= 10 {
      assert s[..|s| - 1] == Decimal(m / 10) && t[..|t| - 1] == Decimal(n / 10);
      DecimalInjective(m / 10, n / 10);
    }
  }

  predicate IsDigit(c: char) {
    '0' <= c <= '9'
  }

  /** The number that digits stand for. */
  function ValueOf(s: string): int {
    if s == "" then 0 else 10 * ValueOf(s[..|s| - 1]) + (s[|s| - 1] as int - '0' as int)
  }

  /** The decimal of a number is made of digits, has its value, and does not start with a zero unless it is "0". */
  lemma {:induction false} DecimalExact(n: nat)
    ensures forall i :: 0 <= i < |Decimal(n)| ==> IsDigit(Decimal(n)[i])
    ensures ValueOf(Decimal(n)) == n
    ensures Decimal(n)[0] == '0' ==> n == 0
  {
    if n < 10 {
      assert Decimal(n)[..0] == "";
    } else {
      DecimalExact(n / 10);
      assert Decimal(n)[..|Decimal(n)| - 1] == Decimal(n / 10);
    }
  }

  // ----- Names

  /** The name without an ending "_0". */
  function BaseName(desired: string): string {
    if |desired| >= 2 && desired[|desired| - 2..] == "_0" then desired[..|desired| - 2] else desired
  }

  /** An ending "_0" is dropped, once; a name without it stays. */
  lemma BaseNameExact(base: string, desired: string)
    ensures BaseName(base + "_0") == base
    ensures BaseName(desired) != desired ==> desired == BaseName(desired) + "_0"
  {
  }

  function Numbered(base: string, suffix: nat): string {
    base + "_" + Decimal(suffix)
  }

  lemma NumberedInjective(base: string, i: nat, j: nat)
    requires Numbered(base, i) == Numbered(base, j)
    ensures i == j
  {
    assert Numbered(base, i)[|base| + 1..] == Decimal(i) && Numbered(base, j)[|base| + 1..] == Decimal(j);
    DecimalInjective(i, j);
  }

  /** The names with suffixes from 1 up to `n`. */
  ghost function Tried(base: string, n: nat): (r: set<string>)
    ensures |r| == n
    ensures forall name :: name in r <==> exists i :: 1 <= i <= n && name == Numbered(base, i)
  {
    if n == 0 then {}
    else
      assert Numbered(base, n) !in Tried(base, n - 1) by {
        if i: int :| 1 <= i <= n - 1 && Numbered(base, n) == Numbered(base, i) {
          NumberedInjective(base, n, i);
        }
      }
      Tried(base, n - 1) + {Numbered(base, n)}
  }

  /** The numbered names with suffixes from 1 up to `n` are all in use. */
  ghost predicate AllUsed(used: seq<string>, base: string, n: nat) {
    forall i :: 1 <= i <= n ==> Numbered(base, i) in used
  }

  lemma FinitelyMany(used: seq<string>, base: string, n: nat)
    requires AllUsed(used, base, n)
    ensures n <= |set name | name in used|
  {
    FiniteSets.SubsetSize(Tried(base, n), set name | name in used);
  }

  /** The name that the search must find: the desired one if it is free, or the free one with the least suffix. */
  ghost predicate FirstFreeName(used: seq<string>, desired: string, name: string) {
    && name !in used
    && (desired !in used ==> name == desired)
    && (desired in used ==>
          exists n: nat :: LeastFreeSuffix(used, BaseName(desired), n) && name == Numbered(BaseName(desired), n))
  }

  ghost predicate LeastFreeSuffix(used: seq<string>, base: string, n: nat) {
    n >= 1 && Numbered(base, n) !in used && AllUsed(used, base, n - 1)
  }

  /** The search ends, and finds the first free name. */
  method FreeName(used: seq<string>, desired: string) returns (res: string)
    ensures FirstFreeName(used, desired, res)
  {
    var base := BaseName(desired);
    res := desired;
    var suffix := 1;
    while res in used
      invariant suffix >= 1
      invariant suffix == 1 ==> res == desired
      invariant suffix > 1 ==> desired in used && res == Numbered(base, suffix - 1) && AllUsed(used, base, suffix - 2)
      decreases |set name | name in used| + 2 - suffix
    {
      if suffix > 1 {
        FinitelyMany(used, base, suffix - 1);
      }
      res := Numbered(base, suffix);
      suffix := suffix + 1;
    }
    if suffix > 1 {
      assert LeastFreeSuffix(used, base, suffix - 1);
    }
  }

  // ----- Channels

  /**
   What the search for a channel must find. Below the current channel it goes down, and gives up below zero;
   from the current one on it goes up.
   */
  ghost predicate FirstFreeChannel(used: seq<int>, desired: int, current: int, channel: Option<int>) {
    if desired !in used then channel == Some(desired)
    else if desired < current then
      match channel
      case Some(c) => 0 <= c < desired && c !in used && forall i :: c < i <= desired ==> i in used
      case None => forall i :: 0 <= i <= desired ==> i in used
    else
      && channel.Some? && channel.value > desired && channel.value !in used
      && forall i :: desired <= i < channel.value ==> i in used
  }

  lemma OrderIrrelevant(used: seq<int>, siblings: seq<int>, desired: int, current: int, channel: Option<int>)
    requires multiset(used) == multiset(siblings)
    ensures FirstFreeChannel(used, desired, current, channel) <==> FirstFreeChannel(siblings, desired, current, channel)
  {
    assert forall c :: c in used <==> c in multiset(used);
    assert forall c :: c in siblings <==> c in multiset(siblings);
  }

  ghost predicate Ascending(s: seq<int>) {
    forall i, j :: 0 <= i < j < |s| ==> s[i] <= s[j]
  }

  function Sorted(s: seq<int>): (r: seq<int>)
    ensures Ascending(r) && multiset(r) == multiset(s)
  {
    if s == [] then []
    else
      HeadAndTail(s);
      PlacedAmong(s[0], Sorted(s[1..]));
      PlacedAscending(s[0], Sorted(s[1..]));
      InPlace(s[0], Sorted(s[1..]))
  }

  /** Puts a number behind the smaller ones. */
  function InPlace(x: int, s: seq<int>): (r: seq<int>)
    ensures r != [] && (r[0] == x || (s != [] && r[0] == s[0]))
  {
    if s == [] || x <= s[0] then [x] + s else [s[0]] + InPlace(x, s[1..])
  }

  lemma {:induction false} PlacedAmong(x: int, s: seq<int>)
    ensures multiset(InPlace(x, s)) == multiset(s) + multiset{x}
    decreases |s|
  {
    if s != [] && x > s[0] {
      HeadAndTail(s);
      PlacedAmong(x, s[1..]);
    }
  }

  lemma {:induction false} PlacedAscending(x: int, s: seq<int>)
    requires Ascending(s)
    ensures Ascending(InPlace(x, s))
    decreases |s|
  {
    if s != [] && x > s[0] {
      PlacedAscending(x, s[1..]);
    }
  }

  /** An upper limit of the channels in use. */
  ghost function Limit(used: seq<int>): (r: int)
    ensures forall c :: c in used ==> c < r
  {
    if used == [] then 0
    else
      var m := Limit(used[..|used| - 1]);
      assert used == used[..|used| - 1] + [used[|used| - 1]];
      if used[|used| - 1] < m then m else used[|used| - 1] + 1
  }

  method FreeChannel(used: seq<int>, desired: int, current: int) returns (channel: Option<int>)
    ensures FirstFreeChannel(used, desired, current, channel)
  {
    var res := desired;
    while res in used
      invariant if desired < current
                then (res == desired || 0 <= res < desired) && forall i :: res < i <= desired ==> i in used
                else res >= desired && forall i :: desired <= i < res ==> i in used
      decreases if desired < current then res + 1 else Limit(used) - res
    {
      if res < current {
        res := res - 1;
        if res < 0 {
          return None;
        }
      } else {
        res := res + 1;
      }
    }
    return Some(res);
  }
}
