/** Hash chains: a head with one pointer, and nodes that know the cell which holds them. */
module Hlist {
  import opened Seqs

  /** The address in pprev: that of a head's first or of a node's next, or null. */
  datatype Cell<T> = Nowhere | FirstOf(head: Head<T>) | NextOf(node: Node<T>)

  class Head<T> {
    var first: Node?<T>

    constructor ()
      ensures first == null
    {
      first := null;
    }
  }

  class Node<T> {
    var next: Node?<T>
    var pprev: Cell<T>
    const entry: T

    constructor (entry: T)
      ensures this.entry == entry && next == null && pprev == Nowhere
    {
      this.entry, next, pprev := entry, null, Nowhere;
    }
  }

  // ----- chains -----

  function At<T>(s: seq<Node<T>>, i: nat): Node?<T> {
    if i < |s| then s[i] else null
  }

  /** The cell that holds the node at i, if this cell holds the first. */
  function Holder<T>(cell: Cell<T>, s: seq<Node<T>>, i: nat): Cell<T>
    requires i <= |s|
  {
    if i == 0 then cell else NextOf(s[i - 1])
  }

  function Nth<T>(s: seq<Node<T>>, i: nat): Node<T>
    requires i < |s|
  {
    s[i]
  }

  ghost predicate HeldAt<T>(cell: Cell<T>, s: seq<Node<T>>, i: nat)
    requires i < |s|
    reads Nth(s, i)`next, Nth(s, i)`pprev
  {
    s[i].next == At(s, i + 1) && s[i].pprev == Holder(cell, s, i)
  }

  /** What a cell holds leads through the nodes of s, each naming the cell it is in. */
  ghost predicate From<T>(cell: Cell<T>, n: Node?<T>, s: seq<Node<T>>, own: set<Node<T>>)
    reads own`next, own`pprev
    decreases |s|
  {
    if |s| == 0 then n == null
    else n == s[0] && n in own && n !in s[1..] && n.pprev == cell && From(NextOf(n), n.next, s[1..], own)
  }

  ghost predicate Chain<T>(h: Head<T>, s: seq<Node<T>>, own: set<Node<T>>)
    reads h`first, own`next, own`pprev
  {
    From(FirstOf(h), h.first, s, own)
  }

  lemma {:induction false} FromAll<T>(cell: Cell<T>, n: Node?<T>, s: seq<Node<T>>, own: set<Node<T>>)
    ensures From(cell, n, s, own) <==>
            (Owned(s, own) && NoRepeats(s) && n == At(s, 0) && forall i :: 0 <= i < |s| ==> HeldAt(cell, s, i))
    decreases |s|
  {
    if |s| > 0 {
      var rest := s[1..];
      assert s == [s[0]] + rest;
      FromAll(NextOf(s[0]), s[0].next, rest, own);
      forall i | 0 <= i < |rest| ensures HeldAt(NextOf(s[0]), rest, i) <==> HeldAt(cell, s, i + 1) {
      }
      if forall i :: 0 <= i < |s| ==> HeldAt(cell, s, i) {
        assert HeldAt(cell, s, 0);
        forall i | 0 <= i < |rest| ensures HeldAt(NextOf(s[0]), rest, i) {
          assert HeldAt(cell, s, i + 1);
        }
      }
      if forall i :: 0 <= i < |rest| ==> HeldAt(NextOf(s[0]), rest, i) {
        forall i | 1 <= i < |s| ensures HeldAt(cell, s, i) {
          assert HeldAt(NextOf(s[0]), rest, i - 1);
        }
      }
    }
  }

  /** Each node names the one cell that holds it. */
  lemma ChainAll<T>(h: Head<T>, s: seq<Node<T>>, own: set<Node<T>>)
    ensures Chain(h, s, own) <==>
            (Owned(s, own) && NoRepeats(s) && h.first == At(s, 0) &&
             forall i :: 0 <= i < |s| ==> HeldAt(FirstOf(h), s, i))
  {
    FromAll(FirstOf(h), h.first, s, own);
  }

  lemma ChainAt<T>(h: Head<T>, s: seq<Node<T>>, own: set<Node<T>>, i: nat)
    requires Chain(h, s, own)
    ensures h.first == At(s, 0)
    ensures i < |s| ==> s[i] in own && HeldAt(FirstOf(h), s, i)
  {
    ChainAll(h, s, own);
  }

  predicate Unhashed<T>(n: Node<T>)
    reads n
  {
    n.pprev.Nowhere?
  }

  predicate HlistEmpty<T>(h: Head<T>)
    reads h
  {
    h.first == null
  }

  ghost function HeadIn<T>(cell: Cell<T>): set<Head<T>> {
    if cell.FirstOf? then {cell.head} else {}
  }

  ghost function NodeIn<T>(cell: Cell<T>): set<Node<T>> {
    if cell.NextOf? then {cell.node} else {}
  }

  ghost function Just<T>(n: Node?<T>): set<Node<T>> {
    if n == null then {} else {n}
  }

  /** Writes through a pprev. */
  method Put<T>(cell: Cell<T>, n: Node?<T>)
    requires !cell.Nowhere?
    modifies HeadIn(cell)`first, NodeIn(cell)`next
    ensures cell.FirstOf? ==> cell.head.first == n
    ensures cell.NextOf? ==> cell.node.next == n
  {
    match cell
    case FirstOf(h) => h.first := n;
    case NextOf(m) => m.next := n;
  }

  /** The entries that the nodes sit in. */
  function Entries<T>(s: seq<Node<T>>): (r: seq<T>)
    ensures |r| == |s|
  {
    seq(|s|, i requires 0 <= i < |s| => s[i].entry)
  }

  // ----- deleting -----

  /** Takes a node out wherever it is, without its head. */
  method Unhook<T>(n: Node<T>, ghost h: Head<T>, ghost s: seq<Node<T>>, ghost k: nat, ghost own: set<Node<T>>)
    requires Chain(h, s, own) && k < |s| && n == s[k]
    modifies HeadIn(n.pprev)`first, NodeIn(n.pprev)`next, Just(n.next)`pprev
    ensures Chain(h, WithoutAt(s, k), own) && n !in WithoutAt(s, k)
  {
    ghost var t := WithoutAt(s, k);
    ChainAll(h, s, own);
    WithoutOne(s, k);
    assert HeldAt(FirstOf(h), s, k);
    var next, pprev := n.next, n.pprev;
    Put(pprev, next);
    if next != null {
      next.pprev := pprev;
    }
    forall i | 0 <= i < |t| ensures HeldAt(FirstOf(h), t, i) {
      assert t[i] == s[if i < k then i else i + 1];
      assert old(HeldAt(FirstOf(h), s, if i < k then i else i + 1));
    }
    ChainAll(h, t, own);
  }

  method Forget<T>(n: Node<T>, ghost h: Head<T>, ghost s: seq<Node<T>>, ghost own: set<Node<T>>)
    requires Chain(h, s, own) && n !in s
    modifies n`next, n`pprev
    ensures Chain(h, s, own) && n.next == null && Unhashed(n)
  {
    ChainAll(h, s, own);
    n.next, n.pprev := null, Nowhere;
    forall i | 0 <= i < |s| ensures HeldAt(FirstOf(h), s, i) {
      assert old(HeldAt(FirstOf(h), s, i));
    }
    ChainAll(h, s, own);
  }

  method HlistDel<T>(n: Node<T>, ghost h: Head<T>, ghost s: seq<Node<T>>, ghost k: nat, ghost own: set<Node<T>>)
    requires Chain(h, s, own) && k < |s| && n == s[k]
    modifies HeadIn(n.pprev)`first, NodeIn(n.pprev)`next, Just(n.next)`pprev, n`next, n`pprev
    ensures Chain(h, WithoutAt(s, k), own) && n !in WithoutAt(s, k)
    ensures n.next == null && Unhashed(n)
  {
    Unhook(n, h, s, k, own);
    Forget(n, h, WithoutAt(s, k), own);
  }

  /** Like hlist_del, but it may be called for a node that is on no list. */
  method HlistDelInit<T>(n: Node<T>, ghost h: Head<T>, ghost s: seq<Node<T>>, ghost k: nat, ghost own: set<Node<T>>)
    requires Chain(h, s, own) && (!Unhashed(n) ==> k < |s| && n == s[k])
    modifies HeadIn(n.pprev)`first, NodeIn(n.pprev)`next, Just(n.next)`pprev, n`next, n`pprev
    ensures if old(Unhashed(n)) then n.next == old(n.next) && Chain(h, s, own)
            else n.next == null && k < |s| && Chain(h, WithoutAt(s, k), own) && n !in WithoutAt(s, k)
    ensures Unhashed(n)
  {
    if !Unhashed(n) {
      Unhook(n, h, s, k, own);
      Forget(n, h, WithoutAt(s, k), own);
    }
  }

  /** On a list a node is never unhashed. */
  lemma Hashed<T>(h: Head<T>, s: seq<Node<T>>, own: set<Node<T>>, k: nat)
    requires Chain(h, s, own)
    ensures HlistEmpty(h) <==> s == []
    ensures k < |s| ==> !Unhashed(s[k])
  {
    ChainAt(h, s, own, k);
  }

  // ----- adding -----

  lemma InsertHeld<T>(cell: Cell<T>, s: seq<Node<T>>, k: nat, n: Node<T>, i: nat)
    requires k <= |s| && i <= |s|
    ensures var t := InsertAt(s, k, n);
            t[i] == (if i < k then s[i] else if i == k then n else s[i - 1]) &&
            At(t, i + 1) == (if i + 1 < k then s[i + 1] else if i + 1 == k then n else At(s, i)) &&
            Holder(cell, t, i) ==
            (if i <= k then Holder(cell, s, i) else if i == k + 1 then NextOf(n) else Holder(cell, s, i - 1))
  {
  }

  method HlistAddHead<T>(n: Node<T>, h: Head<T>, ghost s: seq<Node<T>>, ghost own: set<Node<T>>)
    requires Chain(h, s, own) && n !in s && n in own
    modifies n`next, n`pprev, Just(h.first)`pprev, h`first
    ensures Chain(h, [n] + s, own)
  {
    ghost var t := InsertAt(s, 0, n);
    ChainAll(h, s, own);
    InsertNew(s, 0, n);
    var first := h.first;
    n.next := first;
    if first != null {
      first.pprev := NextOf(n);
    }
    h.first := n;
    n.pprev := FirstOf(h);
    forall i | 0 <= i < |t| ensures HeldAt(FirstOf(h), t, i) {
      InsertHeld(FirstOf(h), s, 0, n, i);
      if i > 0 {
        assert old(HeldAt(FirstOf(h), s, i - 1));
      }
    }
    ChainAll(h, t, own);
    assert t == [n] + s;
  }

  method HlistAddBefore<T>(n: Node<T>, next: Node<T>,
                           ghost h: Head<T>, ghost s: seq<Node<T>>, ghost k: nat, ghost own: set<Node<T>>)
    requires Chain(h, s, own) && k < |s| && next == s[k] && n !in s && n in own
    modifies n`next, n`pprev, next`pprev, HeadIn(next.pprev)`first, NodeIn(next.pprev)`next
    ensures Chain(h, InsertAt(s, k, n), own)
  {
    ghost var t := InsertAt(s, k, n);
    ChainAll(h, s, own);
    InsertNew(s, k, n);
    assert HeldAt(FirstOf(h), s, k);
    n.pprev := next.pprev;
    n.next := next;
    next.pprev := NextOf(n);
    Put(n.pprev, n);
    forall i | 0 <= i < |t| ensures HeldAt(FirstOf(h), t, i) {
      InsertHeld(FirstOf(h), s, k, n, i);
      if i < k {
        assert old(HeldAt(FirstOf(h), s, i));
      } else if i > k {
        assert old(HeldAt(FirstOf(h), s, i - 1));
      }
    }
    ChainAll(h, t, own);
  }

  /** Puts the second node after the first, which is on a list. */
  method HlistAddAfter<T>(n: Node<T>, next: Node<T>,
                          ghost h: Head<T>, ghost s: seq<Node<T>>, ghost k: nat, ghost own: set<Node<T>>)
    requires Chain(h, s, own) && k < |s| && n == s[k] && next !in s && next in own
    modifies next`next, next`pprev, n`next, Just(n.next)`pprev
    ensures Chain(h, InsertAt(s, k + 1, next), own)
  {
    ghost var t := InsertAt(s, k + 1, next);
    ChainAll(h, s, own);
    InsertNew(s, k + 1, next);
    assert HeldAt(FirstOf(h), s, k);
    next.next := n.next;
    n.next := next;
    next.pprev := NextOf(n);
    if next.next != null {
      next.next.pprev := NextOf(next);
    }
    forall i | 0 <= i < |t| ensures HeldAt(FirstOf(h), t, i) {
      InsertHeld(FirstOf(h), s, k + 1, next, i);
      if i < k + 1 {
        assert old(HeldAt(FirstOf(h), s, i));
      } else if i > k + 1 {
        assert old(HeldAt(FirstOf(h), s, i - 1));
      }
    }
    ChainAll(h, t, own);
  }

  /** A node that pretends to be on a list; deleting it then does no harm. */
  method HlistAddFake<T>(n: Node<T>)
    modifies n`pprev
    ensures n.pprev == NextOf(n) && !Unhashed(n)
  {
    n.pprev := NextOf(n);
  }

  /** What hlist_del does to it: the node is unhashed; another node that its next still
      led to names that cell from then on. */
  method DelFake<T>(n: Node<T>)
    requires n.pprev == NextOf(n)
    modifies n`next, n`pprev, Just(n.next)`pprev
    ensures n.next == null && Unhashed(n)
    ensures old(n.next) != null && old(n.next) != n ==> old(n.next).pprev == NextOf(n)
  {
    var next, pprev := n.next, n.pprev;
    Put(pprev, next);
    if next != null {
      next.pprev := pprev;
    }
    n.next, n.pprev := null, Nowhere;
  }

  // ----- moving -----

  /** The whole list goes to another head, whose own nodes are given up; a list moved to
      its own head is lost. */
  method HlistMoveList<T>(former: Head<T>, h: Head<T>, ghost s: seq<Node<T>>, ghost own: set<Node<T>>)
    requires Chain(former, s, own)
    modifies former`first, h`first, Just(former.first)`pprev
    ensures Chain(former, [], own)
    ensures h != former ==> Chain(h, s, own)
  {
    ChainAll(former, s, own);
    assert forall i :: 0 <= i < |s| ==> HeldAt(FirstOf(former), s, i);
    h.first := former.first;
    if h.first != null {
      h.first.pprev := FirstOf(h);
    }
    former.first := null;
    if h != former {
      forall i | 0 <= i < |s| ensures HeldAt(FirstOf(h), s, i) {
        assert old(HeldAt(FirstOf(former), s, i));
      }
      ChainAll(h, s, own);
    }
  }
}
