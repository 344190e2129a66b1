/** Sequences with an element put in or taken out. */
module Seqs {
  function InsertAt<T>(s: seq<T>, k: nat, x: T): seq<T>
    requires k <= |s|
  {
    s[..k] + [x] + s[k..]
  }

  function WithoutAt<T>(s: seq<T>, i: nat): seq<T> {
    if i < |s| then s[..i] + s[i + 1..] else s
  }

  predicate NoRepeats<T(==)>(s: seq<T>) {
    forall i, j :: 0 <= i < j < |s| ==> s[i] != s[j]
  }

  predicate Owned<T(==)>(s: seq<T>, own: set<T>) {
    forall i :: 0 <= i < |s| ==> s[i] in own
  }

  /** Where an element is after another is taken out. */
  function After(i: nat, j: nat): int { if j < i then j else j - 1 }

  lemma WithoutOther<T>(s: seq<T>, i: nat, j: nat)
    requires j < |s| && j != i
    ensures var n := if i < |s| then After(i, j) else j;
            0 <= n < |WithoutAt(s, i)| && WithoutAt(s, i)[n] == s[j]
  {
  }

  lemma InsertNew<T>(s: seq<T>, k: nat, x: T)
    requires k <= |s| && NoRepeats(s) && x !in s
    ensures NoRepeats(InsertAt(s, k, x))
    ensures forall y :: y in InsertAt(s, k, x) <==> y == x || y in s
  {
    var t := InsertAt(s, k, x);
    assert forall i :: 0 <= i < |t| ==> t[i] == if i < k then s[i] else if i == k then x else s[i - 1];
    forall y | y in s ensures y in t {
      var i :| 0 <= i < |s| && s[i] == y;
      assert t[if i < k then i else i + 1] == y;
    }
    assert t[k] == x;
  }

  lemma WithoutOne<T>(s: seq<T>, k: nat)
    requires k < |s| && NoRepeats(s)
    ensures NoRepeats(WithoutAt(s, k))
    ensures forall y :: y in WithoutAt(s, k) <==> y in s && y != s[k]
  {
    var t := WithoutAt(s, k);
    assert forall i :: 0 <= i < |t| ==> t[i] == s[if i < k then i else i + 1];
    forall y | y in s && y != s[k] ensures y in t {
      var i :| 0 <= i < |s| && s[i] == y;
      assert t[if i < k then i else i - 1] == y;
    }
  }
}
