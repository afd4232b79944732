/** Small shared vocabulary: an optional value, sums, powers of two, and finite sets. */
module Basics {

  datatype Option<+T> = None | Some(value: T)

  type Tid = nat

  function Sum(s: seq<nat>): nat {
    if s == [] then 0 else s[0] + Sum(s[1..])
  }

  lemma {:induction false} SumUpdate(s: seq<nat>, i: nat, v: nat)
    requires i < |s|
    ensures s[i] <= Sum(s)
    ensures Sum(s[i := v]) == Sum(s) - s[i] + v
  {
    if i == 0 {
      assert s[i := v][1..] == s[1..];
    } else {
      SumUpdate(s[1..], i - 1, v);
      assert s[i := v][1..] == s[1..][i - 1 := v];
    }
  }

  /** A table sums to zero exactly when every entry is zero. */
  lemma {:induction false} SumZero(s: seq<nat>)
    ensures Sum(s) == 0 <==> forall i :: 0 <= i < |s| ==> s[i] == 0
  {
    if s != [] {
      SumZero(s[1..]);
      assert forall i :: 0 < i < |s| ==> s[i] == s[1..][i - 1];
      assert forall i :: 0 <= i < |s[1..]| ==> s[1..][i] == s[i + 1];
    }
  }

  // What each entry of a table amounts to
  function Amounts<L>(table: seq<L>, amount: L -> nat): seq<nat> {
    seq(|table|, i requires 0 <= i < |table| => amount(table[i]))
  }

  lemma AmountsPut<L>(table: seq<L>, amount: L -> nat, i: nat, l: L)
    requires i < |table|
    ensures amount(table[i]) <= Sum(Amounts(table, amount))
    ensures Sum(Amounts(table[i := l], amount)) == Sum(Amounts(table, amount)) - amount(table[i]) + amount(l)
  {
    SumUpdate(Amounts(table, amount), i, amount(l));
    assert Amounts(table[i := l], amount) == Amounts(table, amount)[i := amount(l)];
  }

  function Pow2(k: nat): (r: nat)
    ensures r > 0
  {
    if k == 0 then 1 else 2 * Pow2(k - 1)
  }

  // Pieces put back together
  function Concat<T>(parts: seq<seq<T>>): seq<T> { if parts == [] then [] else parts[0] + Concat(parts[1..]) }

  lemma SubsetSize<T>(a: set<T>, b: set<T>)
    requires a <= b
    ensures |a| <= |b|
    ensures |a| == |b| ==> a == b
  {
    assert b == a + (b - a);
    assert |b| == |a| + |b - a|;
  }
}
