/** Circular doubly linked lists: a ring through a head, as a sequence of nodes. */
module ListHead {
  import opened Seqs

  /** A link that sits inside an entry; a head is a link without an entry, whose entry
      is never looked at. After list_del its pointers are null. */
  class Node<T> {
    var next: Node?<T>
    var prev: Node?<T>
    const entry: T

    constructor (entry: T)
      ensures this.entry == entry && next == this && prev == this
    {
      this.entry, next, prev := entry, this, this;
    }
  }

  // ----- rings -----

  /** The links lead from a through s to b, and back. */
  ghost predicate Segment<T>(a: Node<T>, s: seq<Node<T>>, b: Node<T>, own: set<Node<T>>)
    reads own`next, own`prev
  {
    && a in own && b in own
    && if |s| == 0 then a.next == b && b.prev == a
       else s[0] in own && a.next == s[0] && s[0].prev == a && Segment(s[0], s[1..], b, own)
  }

  /** One cycle: from the head through the nodes of s and back to the head, next and
      prev inverse, no node twice. */
  ghost predicate Ring<T>(h: Node<T>, s: seq<Node<T>>, own: set<Node<T>>)
    reads own`next, own`prev
  {
    Segment(h, s, h, own) && Apart(h, s)
  }

  /** No node of the list twice, and the head not among them; recursive, so that it is
      seldom unfolded. */
  predicate Apart<T>(h: Node<T>, s: seq<Node<T>>) {
    |s| == 0 || (s[0] != h && s[0] !in s[1..] && Apart(h, s[1..]))
  }

  function Point<T>(a: Node<T>, s: seq<Node<T>>, b: Node<T>, i: nat): Node<T> {
    if i == 0 then a else if i <= |s| then s[i - 1] else b
  }

  ghost predicate LinkedAt<T>(a: Node<T>, s: seq<Node<T>>, b: Node<T>, i: nat)
    reads Point(a, s, b, i)`next, Point(a, s, b, i + 1)`prev
  {
    Point(a, s, b, i).next == Point(a, s, b, i + 1) && Point(a, s, b, i + 1).prev == Point(a, s, b, i)
  }

  lemma {:induction false} SegmentAll<T>(a: Node<T>, s: seq<Node<T>>, b: Node<T>, own: set<Node<T>>)
    ensures Segment(a, s, b, own) <==>
            (a in own && b in own && Owned(s, own) && forall i :: 0 <= i <= |s| ==> LinkedAt(a, s, b, i))
    decreases |s|
  {
    if |s| == 0 {
      assert LinkedAt(a, s, b, 0) <==> a.next == b && b.prev == a;
    } else {
      SegmentAll(s[0], s[1..], b, own);
      forall i | 0 <= i <= |s[1..]| ensures LinkedAt(s[0], s[1..], b, i) == LinkedAt(a, s, b, i + 1) {
      }
      assert s == [s[0]] + s[1..];
      assert LinkedAt(a, s, b, 0) <==> a.next == s[0] && s[0].prev == a;
      if forall i :: 0 <= i <= |s| ==> LinkedAt(a, s, b, i) {
        forall i | 0 <= i <= |s[1..]| ensures LinkedAt(s[0], s[1..], b, i) {
          assert LinkedAt(a, s, b, i + 1);
        }
      }
      if forall i :: 0 <= i <= |s[1..]| ==> LinkedAt(s[0], s[1..], b, i) {
        forall i | 1 <= i <= |s| ensures LinkedAt(a, s, b, i) {
          assert LinkedAt(s[0], s[1..], b, i - 1);
        }
      }
    }
  }

  lemma {:induction false} ApartAll<T>(h: Node<T>, s: seq<Node<T>>)
    ensures Apart(h, s) <==> h !in s && NoRepeats(s)
  {
    if |s| > 0 {
      ApartAll(h, s[1..]);
      assert s == [s[0]] + s[1..];
    }
  }

  lemma RingAll<T>(h: Node<T>, s: seq<Node<T>>, own: set<Node<T>>)
    ensures Ring(h, s, own) <==>
            (h in own && Owned(s, own) && h !in s && NoRepeats(s) && forall i :: 0 <= i <= |s| ==> LinkedAt(h, s, h, i))
  {
    SegmentAll(h, s, h, own);
    ApartAll(h, s);
  }

  /** The entries that the nodes sit in. */
  function Entries<T>(s: seq<Node<T>>): (r: seq<T>)
    ensures |r| == |s|
  {
    seq(|s|, i requires 0 <= i < |s| => s[i].entry)
  }

  // ----- adding -----

  lemma InsertPoint<T>(h: Node<T>, s: seq<Node<T>>, k: nat, n: Node<T>, i: nat)
    requires k <= |s| && i <= |s| + 2
    ensures Point(h, InsertAt(s, k, n), h, i) ==
            if i <= k then Point(h, s, h, i) else if i == k + 1 then n else Point(h, s, h, i - 1)
  {
  }

  /** Puts a node between two neighbours. */
  method AddBetween<T>(n: Node<T>, prev: Node<T>, next: Node<T>,
                       ghost h: Node<T>, ghost s: seq<Node<T>>, ghost k: nat, ghost own: set<Node<T>>)
    requires Ring(h, s, own) && k <= |s| && n != h && n !in s && n in own
    requires prev == Point(h, s, h, k) && next == Point(h, s, h, k + 1)
    modifies next`prev, n`next, n`prev, prev`next
    ensures Ring(h, InsertAt(s, k, n), own)
  {
    ghost var t := InsertAt(s, k, n);
    RingAll(h, s, own);
    InsertNew(s, k, n);
    next.prev := n;
    n.next := next;
    n.prev := prev;
    prev.next := n;
    forall i | 0 <= i <= |t| ensures LinkedAt(h, t, h, i) {
      InsertPoint(h, s, k, n, i);
      InsertPoint(h, s, k, n, i + 1);
      if i < k {
        assert old(LinkedAt(h, s, h, i));
      } else if i > k + 1 {
        assert old(LinkedAt(h, s, h, i - 1));
      }
    }
    RingAll(h, t, own);
  }

  lemma RingAt<T>(h: Node<T>, s: seq<Node<T>>, own: set<Node<T>>, i: nat)
    requires Ring(h, s, own) && i <= |s|
    ensures LinkedAt(h, s, h, i) && Point(h, s, h, i) in own && Point(h, s, h, i + 1) in own
  {
    RingAll(h, s, own);
  }

  ghost function Cell<T>(n: Node?<T>): set<Node<T>> {
    if n == null then {} else {n}
  }

  method ListAdd<T>(n: Node<T>, head: Node<T>, ghost s: seq<Node<T>>, ghost own: set<Node<T>>)
    requires Ring(head, s, own) && n != head && n !in s && n in own
    modifies head`next, Cell(head.next)`prev, n`next, n`prev
    ensures Ring(head, [n] + s, own)
  {
    RingAt(head, s, own, 0);
    AddBetween(n, head, head.next, head, s, 0, own);
    assert InsertAt(s, 0, n) == [n] + s;
  }

  method ListAddTail<T>(n: Node<T>, head: Node<T>, ghost s: seq<Node<T>>, ghost own: set<Node<T>>)
    requires Ring(head, s, own) && n != head && n !in s && n in own
    modifies head`prev, Cell(head.prev)`next, n`next, n`prev
    ensures Ring(head, s + [n], own)
  {
    RingAt(head, s, own, |s|);
    AddBetween(n, head.prev, head, head, s, |s|, own);
    assert InsertAt(s, |s|, n) == s + [n];
  }

  // ----- deleting -----

  lemma WithoutPoint<T>(h: Node<T>, s: seq<Node<T>>, k: nat, i: nat)
    requires k < |s| && i <= |s|
    ensures Point(h, WithoutAt(s, k), h, i) == if i <= k then Point(h, s, h, i) else Point(h, s, h, i + 1)
  {
  }

  /** Joins the two neighbours of a node. */
  method DelBetween<T>(prev: Node<T>, next: Node<T>,
                       ghost h: Node<T>, ghost s: seq<Node<T>>, ghost k: nat, ghost own: set<Node<T>>)
    requires Ring(h, s, own) && k < |s|
    requires prev == Point(h, s, h, k) && next == Point(h, s, h, k + 2)
    modifies next`prev, prev`next
    ensures Ring(h, WithoutAt(s, k), own) && s[k] !in WithoutAt(s, k)
  {
    ghost var t := WithoutAt(s, k);
    RingAll(h, s, own);
    WithoutOne(s, k);
    next.prev := prev;
    prev.next := next;
    forall i | 0 <= i <= |t| ensures LinkedAt(h, t, h, i) {
      WithoutPoint(h, s, k, i);
      WithoutPoint(h, s, k, i + 1);
      if i < k {
        assert old(LinkedAt(h, s, h, i));
      } else if i > k {
        assert old(LinkedAt(h, s, h, i + 1));
      }
    }
    RingAll(h, t, own);
  }

  method DelEntry<T>(n: Node<T>, ghost h: Node<T>, ghost s: seq<Node<T>>, ghost k: nat, ghost own: set<Node<T>>)
    requires Ring(h, s, own) && k < |s| && n == s[k]
    modifies Cell(n.next)`prev, Cell(n.prev)`next
    ensures Ring(h, WithoutAt(s, k), own) && n !in WithoutAt(s, k)
  {
    RingAt(h, s, own, k);
    RingAt(h, s, own, k + 1);
    DelBetween(n.prev, n.next, h, s, k, own);
  }

  lemma RingFrame<T>(h: Node<T>, s: seq<Node<T>>, own: set<Node<T>>)
    requires Ring(h, s, own)
    ensures h in own && Owned(s, own) && h !in s && NoRepeats(s)
  {
    RingAll(h, s, own);
  }

  /** A node outside a ring may change as it likes. */
  method Clear<T>(n: Node<T>, ghost h: Node<T>, ghost s: seq<Node<T>>, ghost own: set<Node<T>>)
    requires Ring(h, s, own) && n != h && n !in s
    modifies n`next, n`prev
    ensures Ring(h, s, own) && n.next == null && n.prev == null
  {
    RingAll(h, s, own);
    n.next, n.prev := null, null;
    forall i | 0 <= i <= |s| ensures LinkedAt(h, s, h, i) {
      assert old(LinkedAt(h, s, h, i));
    }
    RingAll(h, s, own);
  }

  method InitListHead<T>(n: Node<T>, ghost h: Node<T>, ghost s: seq<Node<T>>, ghost own: set<Node<T>>)
    requires Ring(h, s, own) && n != h && n !in s && n in own
    modifies n`next, n`prev
    ensures Ring(h, s, own) && Ring(n, [], own)
  {
    RingAll(h, s, own);
    n.next, n.prev := n, n;
    forall i | 0 <= i <= |s| ensures LinkedAt(h, s, h, i) {
      assert old(LinkedAt(h, s, h, i));
    }
    RingAll(h, s, own);
  }

  method ListDel<T>(n: Node<T>, ghost h: Node<T>, ghost s: seq<Node<T>>, ghost k: nat, ghost own: set<Node<T>>)
    requires Ring(h, s, own) && k < |s| && n == s[k]
    modifies Cell(n.next)`prev, Cell(n.prev)`next, n`next, n`prev
    ensures Ring(h, WithoutAt(s, k), own) && n !in WithoutAt(s, k)
    ensures n.next == null && n.prev == null
  {
    RingFrame(h, s, own);
    DelEntry(n, h, s, k, own);
    Clear(n, h, WithoutAt(s, k), own);
  }

  method ListDelInit<T>(n: Node<T>, ghost h: Node<T>, ghost s: seq<Node<T>>, ghost k: nat, ghost own: set<Node<T>>)
    requires Ring(h, s, own) && k < |s| && n == s[k]
    modifies Cell(n.next)`prev, Cell(n.prev)`next, n`next, n`prev
    ensures Ring(h, WithoutAt(s, k), own) && n !in WithoutAt(s, k) && Ring(n, [], own)
  {
    RingFrame(h, s, own);
    DelEntry(n, h, s, k, own);
    InitListHead(n, h, WithoutAt(s, k), own);
  }

  // ----- asking -----

  predicate ListIsLast<T>(n: Node<T>, head: Node<T>)
    reads n
  {
    n.next == head
  }

  predicate ListEmpty<T>(head: Node<T>)
    reads head
  {
    head.next == head
  }

  predicate ListEmptyCareful<T>(head: Node<T>)
    reads head
  {
    head.next == head && head.next == head.prev
  }

  predicate ListIsSingular<T>(head: Node<T>)
    reads head
  {
    !ListEmpty(head) && head.next == head.prev
  }

  /** What the tests on two or three pointers tell of the whole list. */
  lemma TestsTell<T>(head: Node<T>, s: seq<Node<T>>, own: set<Node<T>>, k: nat)
    requires Ring(head, s, own)
    ensures ListEmpty(head) <==> s == []
    ensures ListEmptyCareful(head) <==> s == []
    ensures ListIsSingular(head) <==> |s| == 1
    ensures k < |s| ==> (ListIsLast(s[k], head) <==> k == |s| - 1)
  {
    RingFrame(head, s, own);
    RingAt(head, s, own, 0);
    RingAt(head, s, own, |s|);
    if k < |s| {
      RingAt(head, s, own, k + 1);
    }
  }

  // ----- moving -----

  /** A ring is one of its own nodes, whatever else there is. */
  lemma OwnAny<T>(h: Node<T>, s: seq<Node<T>>, own: set<Node<T>>, other: set<Node<T>>)
    requires Ring(h, s, own) && h in other && Owned(s, other)
    ensures Ring(h, s, other)
  {
    RingAll(h, s, own);
    RingAll(h, s, other);
  }

  /** Takes an entry out of a list and gives it up. */
  method DelMove<T>(n: Node<T>, ghost g: Node<T>, ghost s: seq<Node<T>>, ghost k: nat, ghost own: set<Node<T>>)
    requires Ring(g, s, own) && k < |s| && n == s[k]
    modifies Cell(n.next)`prev, Cell(n.prev)`next
    ensures Ring(g, WithoutAt(s, k), own) && Ring(g, WithoutAt(s, k), own - {n})
    ensures n in own && n != g && n !in WithoutAt(s, k)
  {
    RingFrame(g, s, own);
    DelEntry(n, g, s, k, own);
    RingFrame(g, WithoutAt(s, k), own);
    OwnAny(g, WithoutAt(s, k), own, own - {n});
  }

  /** The entry leaves its list and comes first in another, or in its own. */
  method ListMove<T>(n: Node<T>, head: Node<T>,
                     ghost g: Node<T>, ghost s: seq<Node<T>>, ghost k: nat, ghost a: set<Node<T>>,
                     ghost t: seq<Node<T>>, ghost b: set<Node<T>>)
    requires Ring(g, s, a) && k < |s| && n == s[k]
    requires head != g ==> Ring(head, t, b) && a !! b
    modifies a`next, a`prev, b`next, b`prev
    ensures head == g ==> Ring(g, [n] + WithoutAt(s, k), a)
    ensures head != g ==> Ring(g, WithoutAt(s, k), a - {n}) && Ring(head, [n] + t, b + {n})
  {
    RingAt(g, s, a, k);
    RingAt(g, s, a, k + 1);
    DelMove(n, g, s, k, a);
    ghost var u, own := if head == g then WithoutAt(s, k) else t, if head == g then a else b + {n};
    if head != g {
      RingFrame(head, t, b);
      OwnAny(head, t, b, own);
    }
    RingAt(head, u, own, 0);
    ListAdd(n, head, u, own);
  }

  method ListMoveTail<T>(n: Node<T>, head: Node<T>,
                         ghost g: Node<T>, ghost s: seq<Node<T>>, ghost k: nat, ghost a: set<Node<T>>,
                         ghost t: seq<Node<T>>, ghost b: set<Node<T>>)
    requires Ring(g, s, a) && k < |s| && n == s[k]
    requires head != g ==> Ring(head, t, b) && a !! b
    modifies a`next, a`prev, b`next, b`prev
    ensures head == g ==> Ring(g, WithoutAt(s, k) + [n], a)
    ensures head != g ==> Ring(g, WithoutAt(s, k), a - {n}) && Ring(head, t + [n], b + {n})
  {
    RingAt(g, s, a, k);
    RingAt(g, s, a, k + 1);
    DelMove(n, g, s, k, a);
    ghost var u, own := if head == g then WithoutAt(s, k) else t, if head == g then a else b + {n};
    if head != g {
      RingFrame(head, t, b);
      OwnAny(head, t, b, own);
    }
    RingAt(head, u, own, |u|);
    ListAddTail(n, head, u, own);
  }

  method ListRotateLeft<T>(head: Node<T>, ghost s: seq<Node<T>>, ghost own: set<Node<T>>)
    requires Ring(head, s, own)
    modifies own`next, own`prev
    ensures Ring(head, if s == [] then [] else s[1..] + [s[0]], own)
  {
    TestsTell(head, s, own, 0);
    RingAt(head, s, own, 0);
    if !ListEmpty(head) {
      var first := head.next;
      ListMoveTail(first, head, head, s, 0, own, [], {});
      assert WithoutAt(s, 0) == s[1..];
    }
  }

  // ----- replacing -----

  /** A new node takes the place of the old one in the ring. */
  method ListReplace<T>(former: Node<T>, n: Node<T>, ghost s: seq<Node<T>>, ghost own: set<Node<T>>)
    requires Ring(former, s, own) && n != former && n !in s && n in own
    modifies n`next, n`prev, former`next, former`prev, Cell(former.next)`prev, Cell(former.prev)`next
    ensures Ring(n, s, own)
  {
    RingAll(former, s, own);
    RingAt(former, s, own, 0);
    RingAt(former, s, own, |s|);
    n.next := former.next;
    n.next.prev := n;
    n.prev := former.prev;
    n.prev.next := n;
    forall i | 0 <= i <= |s| ensures LinkedAt(n, s, n, i) {
      assert old(LinkedAt(former, s, former, i));
    }
    RingAll(n, s, own);
  }

  /** The ring seen from its entry k. */
  function Rotated<T>(h: Node<T>, s: seq<Node<T>>, k: nat): seq<Node<T>>
    requires k < |s|
  {
    s[k + 1..] + [h] + s[..k]
  }

  lemma RotatedPoint<T>(h: Node<T>, s: seq<Node<T>>, k: nat, i: nat)
    requires k < |s| && i <= |s| + 1
    ensures Point(s[k], Rotated(h, s, k), s[k], i) ==
            Point(h, s, h, if i + k + 1 <= |s| + 1 then i + k + 1 else i + k - |s|)
  {
  }

  lemma RotatedApart<T>(h: Node<T>, s: seq<Node<T>>, k: nat)
    requires k < |s| && h !in s && NoRepeats(s)
    ensures s[k] !in Rotated(h, s, k) && NoRepeats(Rotated(h, s, k))
  {
    var t := Rotated(h, s, k);
    assert forall i :: 0 <= i < |t| ==>
             t[i] == if i < |s| - k - 1 then s[k + 1 + i] else if i == |s| - k - 1 then h else s[i - (|s| - k)];
  }

  /** Every node of a ring is as good a head as any other. */
  lemma RotateRing<T>(h: Node<T>, s: seq<Node<T>>, own: set<Node<T>>, k: nat)
    requires Ring(h, s, own) && k < |s|
    ensures Ring(s[k], Rotated(h, s, k), own)
  {
    var t := Rotated(h, s, k);
    RingAll(h, s, own);
    RotatedApart(h, s, k);
    forall i | 0 <= i <= |t| ensures LinkedAt(s[k], t, s[k], i) {
      RotatedPoint(h, s, k, i);
      RotatedPoint(h, s, k, i + 1);
      assert LinkedAt(h, s, h, if i + k + 1 <= |s| then i + k + 1 else i + k - |s|);
    }
    RingAll(s[k], t, own);
  }

  method ListReplaceInit<T>(former: Node<T>, n: Node<T>, ghost s: seq<Node<T>>, ghost own: set<Node<T>>)
    requires Ring(former, s, own) && n != former && n !in s && n in own
    modifies own`next, own`prev
    ensures Ring(n, s, own) && Ring(former, [], own)
  {
    RingFrame(former, s, own);
    RingAt(former, s, own, 0);
    RingAt(former, s, own, |s|);
    ListReplace(former, n, s, own);
    InitListHead(former, n, s, own);
  }

  /** Seen from the head, an entry replaced is the entry at the same place. */
  method ReplaceEntry<T>(former: Node<T>, n: Node<T>,
                         ghost h: Node<T>, ghost s: seq<Node<T>>, ghost k: nat, ghost own: set<Node<T>>)
    requires Ring(h, s, own) && k < |s| && former == s[k] && n != h && n !in s && n in own
    modifies own`next, own`prev
    ensures Ring(h, s[k := n], own)
  {
    ghost var t := Rotated(h, s, k);
    RotateRing(h, s, own, k);
    RingAt(former, t, own, 0);
    RingAt(former, t, own, |t|);
    ListReplace(former, n, t, own);
    RotateRing(n, t, own, |s| - k - 1);
    assert Rotated(n, t, |s| - k - 1) == s[k := n];
  }

  // ----- cutting -----

  /** Two lists have no node in common. */
  predicate Disjoint<T>(g: Node<T>, s: seq<Node<T>>, h: Node<T>, t: seq<Node<T>>) {
    g != h && g !in t && h !in s && forall i :: 0 <= i < |s| ==> s[i] !in t
  }

  /** The first k entries go to the other head. */
  method CutBetween<T>(list: Node<T>, head: Node<T>, entry: Node<T>,
                       ghost s: seq<Node<T>>, ghost k: nat, ghost own: set<Node<T>>)
    requires Ring(head, s, own) && 0 < k <= |s| && entry == s[k - 1] && list != head && list !in s && list in own
    modifies own`next, own`prev
    ensures Ring(list, s[..k], own) && Ring(head, s[k..], own)
  {
    ghost var a, b := s[..k], s[k..];
    RingAll(head, s, own);
    RingAt(head, s, own, 0);
    RingAt(head, s, own, k);
    var newFirst := entry.next;
    list.next := head.next;
    list.next.prev := list;
    list.prev := entry;
    entry.next := list;
    head.next := newFirst;
    newFirst.prev := head;
    forall i | 0 <= i <= |a| ensures LinkedAt(list, a, list, i) {
      assert old(LinkedAt(head, s, head, i));
    }
    forall i | 0 <= i <= |b| ensures LinkedAt(head, b, head, i) {
      assert old(LinkedAt(head, s, head, i + k));
    }
    RingAll(list, a, own);
    RingAll(head, b, own);
  }

  /** Cuts a list after an entry of it, or after its head. Of an empty list nothing is
      cut, and then the other list is not even emptied; nor is a list of one cut at an
      entry that is not its own. */
  method ListCutPosition<T>(list: Node<T>, head: Node<T>, entry: Node<T>,
                            ghost s: seq<Node<T>>, ghost k: nat, ghost own: set<Node<T>>)
    requires Ring(head, s, own) && list != head && list !in s && list in own
    requires (k <= |s| && entry == Point(head, s, head, k)) || (|s| <= 1 && entry != head && entry !in s)
    modifies own`next, own`prev
    ensures s != [] && (entry == head || entry in s) ==> k <= |s| && Ring(list, s[..k], own) && Ring(head, s[k..], own)
    ensures s == [] || (entry != head && entry !in s) ==> unchanged(own`next) && unchanged(own`prev)
  {
    TestsTell(head, s, own, 0);
    RingFrame(head, s, own);
    RingAt(head, s, own, 0);
    if ListEmpty(head) {
      return;
    }
    if ListIsSingular(head) && head.next != entry && head != entry {
      return;
    }
    if entry == head {
      InitListHead(list, head, s, own);
    } else {
      CutBetween(list, head, entry, s, k, own);
    }
  }

  // ----- splicing -----

  function SpliceAt<T>(s: seq<Node<T>>, k: nat, t: seq<Node<T>>): seq<Node<T>>
    requires k <= |s|
  {
    s[..k] + t + s[k..]
  }

  lemma SplicePoint<T>(h: Node<T>, s: seq<Node<T>>, k: nat, list: Node<T>, t: seq<Node<T>>, i: nat)
    requires k <= |s| && i <= |s| + |t| + 1
    ensures Point(h, SpliceAt(s, k, t), h, i) ==
            if i <= k then Point(h, s, h, i)
            else if i <= k + |t| then Point(list, t, list, i - k)
            else Point(h, s, h, i - |t|)
  {
  }

  lemma SpliceApart<T>(h: Node<T>, s: seq<Node<T>>, k: nat, list: Node<T>, t: seq<Node<T>>)
    requires k <= |s| && h !in s && NoRepeats(s) && NoRepeats(t) && Disjoint(h, s, list, t)
    ensures h !in SpliceAt(s, k, t) && NoRepeats(SpliceAt(s, k, t))
  {
    var u := SpliceAt(s, k, t);
    assert forall i :: 0 <= i < |u| ==> u[i] == if i < k then s[i] else if i < k + |t| then t[i - k] else s[i - |t|];
  }

  /** Puts the entries of a list between two neighbours of another. */
  method SpliceBetween<T>(list: Node<T>, prev: Node<T>, next: Node<T>, ghost t: seq<Node<T>>,
                          ghost h: Node<T>, ghost s: seq<Node<T>>, ghost k: nat, ghost own: set<Node<T>>)
    requires Ring(list, t, own) && t != [] && Ring(h, s, own) && Disjoint(h, s, list, t)
    requires k <= |s| && prev == Point(h, s, h, k) && next == Point(h, s, h, k + 1)
    modifies (own - {list})`next, (own - {list})`prev
    ensures Ring(h, SpliceAt(s, k, t), own)
  {
    ghost var u := SpliceAt(s, k, t);
    RingAll(h, s, own);
    RingAll(list, t, own);
    RingAt(list, t, own, 0);
    RingAt(list, t, own, |t|);
    SpliceApart(h, s, k, list, t);
    var first, last := list.next, list.prev;
    first.prev := prev;
    prev.next := first;
    last.next := next;
    next.prev := last;
    forall i | 0 <= i <= |u| ensures LinkedAt(h, u, h, i) {
      SplicePoint(h, s, k, list, t, i);
      SplicePoint(h, s, k, list, t, i + 1);
      if i < k {
        assert old(LinkedAt(h, s, h, i));
      } else if k < i < k + |t| {
        assert old(LinkedAt(list, t, list, i - k));
      } else if i > k + |t| {
        assert old(LinkedAt(h, s, h, i - |t|));
      }
    }
    RingAll(h, u, own);
  }

  /** Joins two lists, the first in front; the head of the first is left as it was. */
  method ListSplice<T>(list: Node<T>, head: Node<T>,
                       ghost t: seq<Node<T>>, ghost s: seq<Node<T>>, ghost own: set<Node<T>>)
    requires Ring(list, t, own) && Ring(head, s, own) && Disjoint(head, s, list, t)
    modifies (own - {list})`next, (own - {list})`prev
    ensures Ring(head, t + s, own)
  {
    TestsTell(list, t, own, 0);
    RingAt(head, s, own, 0);
    if !ListEmpty(list) {
      SpliceBetween(list, head, head.next, t, head, s, 0, own);
      assert SpliceAt(s, 0, t) == t + s;
    } else {
      assert t + s == s;
    }
  }

  method ListSpliceTail<T>(list: Node<T>, head: Node<T>,
                           ghost t: seq<Node<T>>, ghost s: seq<Node<T>>, ghost own: set<Node<T>>)
    requires Ring(list, t, own) && Ring(head, s, own) && Disjoint(head, s, list, t)
    modifies (own - {list})`next, (own - {list})`prev
    ensures Ring(head, s + t, own)
  {
    TestsTell(list, t, own, 0);
    RingAt(head, s, own, |s|);
    if !ListEmpty(list) {
      SpliceBetween(list, head.prev, head, t, head, s, |s|, own);
      assert SpliceAt(s, |s|, t) == s + t;
    } else {
      assert s + t == s;
    }
  }

  method ListSpliceInit<T>(list: Node<T>, head: Node<T>,
                           ghost t: seq<Node<T>>, ghost s: seq<Node<T>>, ghost own: set<Node<T>>)
    requires Ring(list, t, own) && Ring(head, s, own) && Disjoint(head, s, list, t)
    modifies own`next, own`prev
    ensures Ring(head, t + s, own) && Ring(list, [], own)
  {
    TestsTell(list, t, own, 0);
    RingFrame(list, t, own);
    RingAt(head, s, own, 0);
    if !ListEmpty(list) {
      SpliceBetween(list, head, head.next, t, head, s, 0, own);
      assert SpliceAt(s, 0, t) == t + s;
      InitListHead(list, head, t + s, own);
    } else {
      assert t + s == s;
    }
  }

  method ListSpliceTailInit<T>(list: Node<T>, head: Node<T>,
                               ghost t: seq<Node<T>>, ghost s: seq<Node<T>>, ghost own: set<Node<T>>)
    requires Ring(list, t, own) && Ring(head, s, own) && Disjoint(head, s, list, t)
    modifies own`next, own`prev
    ensures Ring(head, s + t, own) && Ring(list, [], own)
  {
    TestsTell(list, t, own, 0);
    RingFrame(list, t, own);
    RingAt(head, s, own, |s|);
    if !ListEmpty(list) {
      SpliceBetween(list, head.prev, head, t, head, s, |s|, own);
      assert SpliceAt(s, |s|, t) == s + t;
      InitListHead(list, head, s + t, own);
    } else {
      assert s + t == s;
    }
  }

  /** Cutting a list anywhere, the head and the last entry included, and splicing the
      part in front again gives the list back. */
  method CutAndSplice<T>(list: Node<T>, head: Node<T>, entry: Node<T>,
                         ghost s: seq<Node<T>>, ghost k: nat, ghost own: set<Node<T>>)
    requires Ring(head, s, own) && Ring(list, [], own) && list != head && list !in s
    requires k <= |s| && entry == Point(head, s, head, k)
    modifies own`next, own`prev
    ensures Ring(head, s, own) && Ring(list, [], own)
  {
    RingFrame(head, s, own);
    RingFrame(list, [], own);
    ListCutPosition(list, head, entry, s, k, own);
    ListSpliceInit(list, head, s[..k], s[k..], own);
    assert s[..k] + s[k..] == s;
  }
}
