/** natlog itself: a list for the one file, hash chains for the other, and the loop that
    writes the difference and empties the list. */
module Natlog {
  import opened Seqs
  import opened NatlogModel
  import L = ListHead
  import H = Hlist

  // ----- the hash table -----

  /** Each chain is its bucket of the records. */
  ghost predicate Filed(chains: seq<seq<H.Node<Memory>>>, all: seq<Memory>) {
    |chains| == HASH_SIZE && forall i :: 0 <= i < HASH_SIZE ==> H.Entries(chains[i]) == Chained(all, i)
  }

  lemma FiledMore(chains: seq<seq<H.Node<Memory>>>, all: seq<Memory>, n: H.Node<Memory>)
    requires Filed(chains, all)
    ensures Filed(chains[Bucket(n.entry) := [n] + chains[Bucket(n.entry)]], all + [n.entry])
  {
    assert (all + [n.entry])[..|all|] == all;
  }

  class Table {
    // The array of heads.
    const heads: seq<H.Head<Memory>>
    ghost var chains: seq<seq<H.Node<Memory>>>
    ghost var owns: seq<set<H.Node<Memory>>>
    ghost var nodes: set<H.Node<Memory>>
    // The records in the table, in the order in which they came.
    ghost var all: seq<Memory>

    ghost predicate Sized()
      reads this`chains, this`owns
    {
      |heads| == HASH_SIZE && |chains| == HASH_SIZE && |owns| == HASH_SIZE
    }

    /** The chains share nothing. */
    ghost predicate Separate()
      requires Sized()
      reads this`chains, this`owns, this`nodes
    {
      && NoRepeats(heads)
      && (forall i :: 0 <= i < HASH_SIZE ==> owns[i] <= nodes)
      && forall i, j :: 0 <= i < j < HASH_SIZE ==> owns[i] !! owns[j]
    }

    function HeadAt(i: nat): H.Head<Memory>
      requires i < |heads|
    {
      heads[i]
    }

    ghost function OwnAt(i: nat): set<H.Node<Memory>>
      requires i < |owns|
      reads this`owns
    {
      owns[i]
    }

    ghost predicate Linked(i: nat)
      requires Sized() && i < HASH_SIZE
      reads this`chains, this`owns, HeadAt(i)`first, OwnAt(i)`next, OwnAt(i)`pprev
    {
      H.Chain(heads[i], chains[i], owns[i])
    }

    ghost predicate Shaped()
      reads this`chains, this`owns, this`nodes, heads`first, nodes`next, nodes`pprev
    {
      Sized() && Separate() && forall i :: 0 <= i < HASH_SIZE ==> Linked(i)
    }

    lemma LinkedAt(i: nat)
      requires Shaped() && i < HASH_SIZE
      ensures H.Chain(heads[i], chains[i], owns[i])
    {
      var j := i;
      assert Linked(j);
    }

    ghost predicate Valid()
      reads this`chains, this`owns, this`nodes, this`all, heads`first, nodes`next, nodes`pprev
    {
      Shaped() && Filed(chains, all)
    }

    constructor ()
      ensures Valid() && all == [] && nodes == {} && fresh(heads)
    {
      var hs: seq<H.Head<Memory>> := [];
      while |hs| < HASH_SIZE
        invariant |hs| <= HASH_SIZE && NoRepeats(hs) && fresh(hs)
        invariant forall i :: 0 <= i < |hs| ==> hs[i].first == null
        decreases HASH_SIZE - |hs|
      {
        var h := new H.Head<Memory>();
        hs := hs + [h];
      }
      heads := hs;
      chains, owns := seq(HASH_SIZE, _ => []), seq(HASH_SIZE, _ => {});
      nodes, all := {}, [];
    }

    method GetHead(b: Memory) returns (n: nat)
      ensures n == Bucket(b)
    {
      var bytes, hash, i := b.Bytes(), 0, 0;
      while i < |bytes|
        invariant i <= |bytes| && hash == Hash(bytes[..i])
      {
        assert bytes[..i + 1][..i] == bytes[..i];
        hash := Push(hash, bytes[i]);
        i := i + 1;
      }
      assert bytes[..i] == bytes;
      n := hash % HASH_SIZE;
    }

    /** A walk along the one chain. */
    method GetItem(b: Memory) returns (item: H.Node?<Memory>)
      requires Valid()
      ensures item != null <==> Found(all, b)
      ensures item != null ==> IsInfoEqual(item.entry, b)
    {
      var n := GetHead(b);
      ghost var s, k := chains[n], 0;
      LinkedAt(n);
      ghost var c := Chained(all, Bucket(b));
      H.ChainAt(heads[n], s, owns[n], 0);
      item := heads[n].first;
      while item != null && !IsInfoEqual(item.entry, b)
        invariant k <= |s| && item == H.At(s, k)
        invariant forall j :: 0 <= j < k ==> !IsInfoEqual(c[j], b)
        decreases |s| - k
      {
        H.ChainAt(heads[n], s, owns[n], k);
        item := item.next;
        k := k + 1;
      }
      if item != null {
        assert IsInfoEqual(c[k], b);
      }
    }

    lemma OwnLinked(i: nat, n: H.Node<Memory>)
      requires Sized() && i < HASH_SIZE && Linked(i)
      ensures H.Chain(heads[i], chains[i], owns[i] + {n})
      ensures n in chains[i] ==> n in owns[i]
    {
      H.ChainAll(heads[i], chains[i], owns[i]);
      H.ChainAll(heads[i], chains[i], owns[i] + {n});
    }

    /** Hangs a new node at the head of its bucket; no other bucket is touched. */
    method Hang(n: H.Node<Memory>, i: nat)
      requires Shaped() && i < HASH_SIZE && n !in nodes
      modifies HeadAt(i)`first, n`next, n`pprev, OwnAt(i)`next, OwnAt(i)`pprev, this`chains, this`owns, this`nodes
      ensures Shaped()
      ensures chains == old(chains)[i := [n] + old(chains)[i]] && nodes == old(nodes) + {n}
    {
      LinkedAt(i);
      OwnLinked(i, n);
      H.ChainAt(heads[i], chains[i], owns[i], 0);
      H.HlistAddHead(n, heads[i], chains[i], owns[i] + {n});
      chains, owns := chains[i := [n] + chains[i]], owns[i := owns[i] + {n}];
      nodes := nodes + {n};
      forall j | 0 <= j < HASH_SIZE ensures Linked(j) {
        if j != i {
          assert old(Linked(j));
        }
      }
    }

    method Add(b: Memory)
      requires Valid()
      modifies this`chains, this`owns, this`nodes, this`all, heads`first, nodes`next, nodes`pprev
      ensures Valid() && all == old(all) + [b] && fresh(nodes - old(nodes))
    {
      var n := new H.Node<Memory>(b);
      var i := GetHead(b);
      FiledMore(chains, all, n);
      Hang(n, i);
      all := all + [b];
    }

    /** Deletes a chain from its head on. */
    method FreeBucket(i: nat)
      requires Shaped() && i < HASH_SIZE
      modifies HeadAt(i)`first, OwnAt(i)`next, OwnAt(i)`pprev, this`chains
      ensures Shaped() && chains == old(chains)[i := []]
    {
      LinkedAt(i);
      ghost var s := chains[i];
      H.ChainAt(heads[i], s, owns[i], 0);
      var item := heads[i].first;
      while item != null
        invariant chains == old(chains) && H.Chain(heads[i], s, owns[i]) && item == H.At(s, 0)
        decreases |s|
      {
        H.ChainAt(heads[i], s, owns[i], 0);
        H.ChainAt(heads[i], s, owns[i], 1);
        var next := item.next;
        H.HlistDel(item, heads[i], s, 0, owns[i]);
        s := WithoutAt(s, 0);
        item := next;
      }
      chains := chains[i := []];
      forall j | 0 <= j < HASH_SIZE ensures Linked(j) {
        if j != i {
          assert old(Linked(j));
        }
      }
    }

    /** Every head, one after the other. */
    method FreeAll()
      requires Valid()
      modifies heads`first, nodes`next, nodes`pprev, this`chains, this`all
      ensures Valid() && all == []
      ensures forall i :: 0 <= i < HASH_SIZE ==> heads[i].first == null
    {
      for i := 0 to HASH_SIZE
        invariant Shaped() && forall j :: 0 <= j < i ==> chains[j] == []
      {
        LinkedAt(i);
        H.Hashed(heads[i], chains[i], owns[i], 0);
        if heads[i].first != null {
          FreeBucket(i);
        }
      }
      forall i | 0 <= i < HASH_SIZE ensures heads[i].first == null {
        LinkedAt(i);
      }
      all := [];
    }
  }

  // ----- the program -----

  lemma ListedMore(s: seq<L.Node<Memory>>, n: L.Node<Memory>)
    ensures L.Entries(s + [n]) == L.Entries(s) + [n.entry]
  {
  }

  class Program {
    const head: L.Node<Memory>
    const table: Table
    ghost var entries: seq<L.Node<Memory>>
    ghost var own: set<L.Node<Memory>>

    ghost predicate ListValid()
      reads this`entries, this`own, own`next, own`prev
    {
      L.Ring(head, entries, own)
    }

    ghost predicate Valid()
      reads this`entries, this`own, own`next, own`prev
      reads table`chains, table`owns, table`nodes, table`all, table.heads`first, table.nodes`next, table.nodes`pprev
    {
      ListValid() && table.Valid()
    }

    /** Both structures are empty when the program starts; the head's own record is never
        looked at. */
    constructor ()
      ensures Valid() && entries == [] && table.all == []
      ensures fresh(own) && fresh(table) && fresh(table.heads) && table.nodes == {}
    {
      var h := new L.Node<Memory>(Zeros());
      var t := new Table();
      head, table := h, t;
      entries, own := [], {h};
    }

    method Append(b: Memory)
      requires ListValid()
      modifies this`entries, this`own, own`next, own`prev
      ensures ListValid() && L.Entries(entries) == L.Entries(old(entries)) + [b] && fresh(own - old(own))
    {
      L.RingFrame(head, entries, own);
      L.RingAt(head, entries, own, |entries|);
      var n := new L.Node<Memory>(b);
      L.OwnAny(head, entries, own, own + {n});
      ListedMore(entries, n);
      L.ListAddTail(n, head, entries, own + {n});
      entries, own := entries + [n], own + {n};
    }

    /** The first reader, up to a broken line. */
    method ReadList(f: File) returns (err: int)
      requires ListValid()
      modifies this`entries, this`own, own`next, own`prev
      ensures ListValid() && fresh(own - old(own))
      ensures err == if Readable(f) then 0 else 1
      ensures f.Lines? ==> L.Entries(entries) == L.Entries(old(entries)) + Records(f.lines)
    {
      if f.Missing? {
        return 1;
      }
      ghost var before := L.Entries(entries);
      var i := 0;
      while i < |f.lines|
        invariant i <= |f.lines| && ListValid() && fresh(own - old(own))
        invariant L.Entries(entries) + Records(f.lines[i..]) == before + Records(f.lines)
        invariant forall j :: 0 <= j < i ==> !f.lines[j].Broken?
        decreases |f.lines| - i
      {
        assert f.lines[i..][1..] == f.lines[i + 1..];
        match f.lines[i] {
          case Broken => return 1;
          case Skipped =>
          case Record(info, memory) => Append(Written(memory, info));
        }
        i := i + 1;
      }
      return 0;
    }

    /** The second reader. */
    method ReadHash(f: File) returns (err: int)
      requires table.Valid()
      modifies table`chains, table`owns, table`nodes, table`all, table.heads`first, table.nodes`next, table.nodes`pprev
      ensures table.Valid() && fresh(table.nodes - old(table.nodes))
      ensures err == if Readable(f) then 0 else 1
      ensures f.Lines? ==> table.all == old(table.all) + Records(f.lines)
    {
      if f.Missing? {
        return 1;
      }
      ghost var before := table.all;
      var i := 0;
      while i < |f.lines|
        invariant i <= |f.lines| && table.Valid() && fresh(table.nodes - old(table.nodes))
        invariant table.all + Records(f.lines[i..]) == before + Records(f.lines)
        invariant forall j :: 0 <= j < i ==> !f.lines[j].Broken?
        decreases |f.lines| - i
      {
        assert f.lines[i..][1..] == f.lines[i + 1..];
        match f.lines[i] {
          case Broken => return 1;
          case Skipped =>
          case Record(info, memory) => table.Add(Written(memory, info));
        }
        i := i + 1;
      }
      return 0;
    }

    /** Takes the first entry out of the list. */
    method DelFirst(n: L.Node<Memory>)
      requires ListValid() && entries != [] && n == entries[0]
      modifies this`entries, own`next, own`prev
      ensures ListValid() && entries == old(entries)[1..]
    {
      L.RingAt(head, entries, own, 0);
      L.RingAt(head, entries, own, 1);
      L.ListDel(n, head, entries, 0, own);
      entries := WithoutAt(entries, 0);
    }

    /** The first entry, or the head. */
    method First() returns (n: L.Node<Memory>)
      requires ListValid()
      ensures n == L.Point(head, entries, head, 1)
      ensures n == head <==> entries == []
    {
      L.RingAt(head, entries, own, 0);
      L.RingFrame(head, entries, own);
      n := head.next;
    }

    /** What the safe iteration keeps as the next entry. */
    method Next(n: L.Node<Memory>) returns (next: L.Node<Memory>)
      requires ListValid() && entries != [] && n == entries[0]
      ensures next == L.Point(head, entries, head, 2)
      ensures next == head <==> |entries| == 1
    {
      L.RingAt(head, entries, own, 1);
      L.RingFrame(head, entries, own);
      next := n.next;
    }

    method FreeList()
      requires ListValid()
      modifies this`entries, own`next, own`prev
      ensures ListValid() && entries == []
    {
      var n := First();
      while n != head
        invariant ListValid() && n == L.Point(head, entries, head, 1) && (n == head <==> entries == [])
        decreases |entries|
      {
        var next := Next(n);
        DelFirst(n);
        n := next;
      }
    }

    /** What is written for an entry. */
    method Line(n: L.Node<Memory>) returns (line: seq<Texts>)
      requires table.Valid()
      ensures line == if Found(table.all, n.entry) then [] else [Read(n.entry)]
    {
      var item := table.GetItem(n.entry);
      line := if item == null then [Read(n.entry)] else [];
    }

    lemma ListStep(bs: seq<Memory>, k: nat)
      requires k < |bs| && entries != [] && L.Entries(entries) == bs[k..]
      ensures entries[0].entry == bs[k] && L.Entries(entries[1..]) == bs[k + 1..]
      ensures Output(table.all, bs[..k + 1]) ==
              Output(table.all, bs[..k]) + if Found(table.all, bs[k]) then [] else [Read(bs[k])]
    {
      assert bs[..k + 1][..k] == bs[..k] && bs[k..][1..] == bs[k + 1..];
      assert L.Entries(entries)[0] == entries[0].entry && L.Entries(entries[1..]) == L.Entries(entries)[1..];
    }

    /** One turn of the loop: what is written for the first entry, which goes. */
    method ListOne(n: L.Node<Memory>) returns (next: L.Node<Memory>, line: seq<Texts>)
      requires ListValid() && table.Valid() && entries != [] && n == entries[0]
      modifies this`entries, own`next, own`prev
      ensures ListValid() && table.Valid() && entries == old(entries)[1..]
      ensures next == L.Point(head, entries, head, 1) && (next == head <==> entries == [])
      ensures line == if Found(table.all, n.entry) then [] else [Read(n.entry)]
    {
      next := Next(n);
      line := Line(n);
      DelFirst(n);
    }

    /** The loop that lists what the table does not have, and deletes as it goes. */
    method ListDifference() returns (out: seq<Texts>)
      requires ListValid() && table.Valid()
      modifies this`entries, own`next, own`prev
      ensures ListValid() && table.Valid() && entries == []
      ensures out == Output(table.all, L.Entries(old(entries)))
    {
      ghost var bs, k := L.Entries(entries), 0;
      out := [];
      var n := First();
      while n != head
        invariant ListValid() && table.Valid()
        invariant n == L.Point(head, entries, head, 1) && (n == head <==> entries == [])
        invariant k <= |bs| && L.Entries(entries) == bs[k..] && out == Output(table.all, bs[..k])
        decreases |entries|
      {
        ListStep(bs, k);
        var next, line := ListOne(n);
        n, out, k := next, out + line, k + 1;
      }
      assert bs[..k] == bs;
    }

    predicate Emptied()
      reads head, table.heads
    {
      L.ListEmpty(head) && forall i :: 0 <= i < |table.heads| ==> table.heads[i].first == null
    }

    lemma NothingLeft()
      requires ListValid() && entries == [] && table.Valid() && table.all == []
      ensures Emptied()
    {
      L.TestsTell(head, entries, own, 0);
      forall i | 0 <= i < HASH_SIZE ensures table.heads[i].first == null {
        table.LinkedAt(i);
        assert |H.Entries(table.chains[i])| == |Chained([], i)|;
      }
    }

    /** Empties the list, with or without writing. */
    method Finish(write: bool) returns (out: seq<Texts>)
      requires ListValid() && table.Valid()
      modifies this`entries, own`next, own`prev
      ensures ListValid() && table.Valid() && entries == []
      ensures out == if write then Output(table.all, L.Entries(old(entries))) else []
    {
      if write {
        out := ListDifference();
      } else {
        FreeList();
        out := [];
      }
    }

    /** The rest of the program, when the list is read. */
    method ReadAndList(one: File, writable: bool) returns (err: int, out: seq<Texts>)
      requires ListValid() && table.Valid() && table.all == []
      modifies this`entries, own`next, own`prev, table`chains, table`owns, table`nodes, table`all,
               table.heads`first, table.nodes`next, table.nodes`pprev
      ensures ListValid() && table.Valid() && entries == [] && table.all == []
      ensures err == if Readable(one) && writable then 0 else 1
      ensures out == if err == 0 then Output(Records(one.lines), L.Entries(old(entries))) else []
    {
      err := ReadHash(one);
      assert one.Lines? ==> table.all == Records(one.lines);
      if err == 0 && !writable {
        err := 1;
      }
      out := Finish(err == 0);
      table.FreeAll();
    }

    /** The whole program: nothing is listed if a file cannot be read or the output not
        be opened, and both structures are empty on every way out. */
    method Natlog(one: File, two: File, writable: bool) returns (err: int, out: seq<Texts>)
      requires Valid() && entries == [] && table.all == []
      modifies this`entries, this`own, own`next, own`prev, table`chains, table`owns, table`nodes, table`all,
               table.heads`first, table.nodes`next, table.nodes`pprev
      ensures Valid() && Emptied()
      ensures err == if Readable(two) && Readable(one) && writable then 0 else 1
      ensures out == if err == 0 then Output(Records(one.lines), Records(two.lines)) else []
    {
      err := ReadList(two);
      if err != 0 {
        FreeList();
        out := [];
      } else {
        assert L.Entries([]) + Records(two.lines) == Records(two.lines);
        err, out := ReadAndList(one, writable);
      }
      NothingLeft();
    }
  }
}
