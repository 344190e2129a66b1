/** natlog's records in memory, their hash, and what the program lists. */
module NatlogModel {
  type Byte = b: int | 0 <= b < 256

  const WIDTH := 0x1_0000_0000
  const BKDR := 31
  const HASH_SIZE := 100000

  const SHORT := 8
  const LONG := 20

  /** The seven character arrays of a record, as they lie in memory. */
  datatype Block = Block(protocol: seq<Byte>, privIp: seq<Byte>, privPort: seq<Byte>, pubIp: seq<Byte>,
                         pubPort: seq<Byte>, dstIp: seq<Byte>, dstPort: seq<Byte>)
  {
    predicate Shaped() {
      && |protocol| == SHORT && |privIp| == LONG && |privPort| == SHORT && |pubIp| == LONG
      && |pubPort| == SHORT && |dstIp| == LONG && |dstPort| == SHORT
    }

    function Bytes(): seq<Byte> {
      protocol + privIp + privPort + pubIp + pubPort + dstIp + dstPort
    }
  }

  /** What malloc may return. */
  type Memory = m: Block | m.Shaped() witness Zeros()

  function Zero(n: nat): seq<Byte> { seq(n, _ => 0) }

  function Zeros(): Block {
    Block(Zero(SHORT), Zero(LONG), Zero(SHORT), Zero(LONG), Zero(SHORT), Zero(LONG), Zero(SHORT))
  }

  /** A text without a terminator in it that fits an array with one. */
  predicate Fits(t: seq<Byte>, size: nat) {
    |t| < size && forall i :: 0 <= i < |t| ==> t[i] != 0
  }

  /** A parsed line: seven texts. */
  datatype Texts = Texts(protocol: seq<Byte>, privIp: seq<Byte>, privPort: seq<Byte>, pubIp: seq<Byte>,
                         pubPort: seq<Byte>, dstIp: seq<Byte>, dstPort: seq<Byte>)
  {
    predicate Fit() {
      && Fits(protocol, SHORT) && Fits(privIp, LONG) && Fits(privPort, SHORT) && Fits(pubIp, LONG)
      && Fits(pubPort, SHORT) && Fits(dstIp, LONG) && Fits(dstPort, SHORT)
    }
  }

  type Info = t: Texts | t.Fit() witness Texts([], [], [], [], [], [], [])

  // ----- texts in memory -----

  /** A copy of a text with its terminator; what was behind stays. */
  function Copied(a: seq<Byte>, t: seq<Byte>): (r: seq<Byte>)
    requires Fits(t, |a|)
    ensures |r| == |a|
  {
    t + [0] + a[|t| + 1..]
  }

  /** The text in an array: up to the first terminator. */
  function Text(a: seq<Byte>): seq<Byte> {
    if |a| == 0 || a[0] == 0 then [] else [a[0]] + Text(a[1..])
  }

  lemma {:induction false} TextOfCopy(a: seq<Byte>, t: seq<Byte>)
    requires Fits(t, |a|)
    ensures Text(Copied(a, t)) == t
  {
    var c := Copied(a, t);
    if |t| > 0 {
      assert c[1..] == Copied(a[1..], t[1..]);
      TextOfCopy(a[1..], t[1..]);
      assert t == [t[0]] + t[1..];
    }
  }

  function Written(m: Memory, x: Info): Memory {
    Block(Copied(m.protocol, x.protocol), Copied(m.privIp, x.privIp), Copied(m.privPort, x.privPort),
          Copied(m.pubIp, x.pubIp), Copied(m.pubPort, x.pubPort),
          Copied(m.dstIp, x.dstIp), Copied(m.dstPort, x.dstPort))
  }

  function Read(b: Block): Texts {
    Texts(Text(b.protocol), Text(b.privIp), Text(b.privPort), Text(b.pubIp), Text(b.pubPort),
          Text(b.dstIp), Text(b.dstPort))
  }

  /** What is written is read back, whatever was in the memory. */
  lemma ReadBack(m: Memory, x: Info)
    ensures Read(Written(m, x)) == x
  {
    TextOfCopy(m.protocol, x.protocol);
    TextOfCopy(m.privIp, x.privIp);
    TextOfCopy(m.privPort, x.privPort);
    TextOfCopy(m.pubIp, x.pubIp);
    TextOfCopy(m.pubPort, x.pubPort);
    TextOfCopy(m.dstIp, x.dstIp);
    TextOfCopy(m.dstPort, x.dstPort);
  }

  /** The seven comparisons. */
  predicate IsInfoEqual(a: Block, b: Block) {
    && Text(a.protocol) == Text(b.protocol)
    && Text(a.privIp) == Text(b.privIp)
    && Text(a.privPort) == Text(b.privPort)
    && Text(a.pubIp) == Text(b.pubIp)
    && Text(a.pubPort) == Text(b.pubPort)
    && Text(a.dstIp) == Text(b.dstIp)
    && Text(a.dstPort) == Text(b.dstPort)
  }

  lemma EqualIsEqual(m: Memory, x: Info, n: Memory, y: Info)
    ensures IsInfoEqual(Written(m, x), Written(n, y)) <==> x == y
  {
    ReadBack(m, x);
    ReadBack(n, y);
    assert IsInfoEqual(Written(m, x), Written(n, y)) <==> Read(Written(m, x)) == Read(Written(n, y));
  }

  // ----- the hash -----

  function Push(hash: nat, b: Byte): nat { (hash * BKDR + b) % WIDTH }

  function Hash(s: seq<Byte>): (h: nat)
    ensures h < WIDTH
  {
    if |s| == 0 then 0 else Push(Hash(s[..|s| - 1]), s[|s| - 1])
  }

  /** The bytes as the digits of a number to the base 31. */
  function Digits(s: seq<Byte>): nat {
    if |s| == 0 then 0 else Digits(s[..|s| - 1]) * 31 + s[|s| - 1]
  }

  /** The hash is that number as far as 32 bits go, although it wraps at every byte. */
  lemma {:induction false} HashIsNumber(s: seq<Byte>)
    ensures Hash(s) == Digits(s) % 0x1_0000_0000
  {
    if |s| > 0 {
      HashIsNumber(s[..|s| - 1]);
      WrapLater(Digits(s[..|s| - 1]), s[|s| - 1]);
    }
  }

  lemma WrapLater(n: nat, b: nat)
    ensures (n % 0x1_0000_0000 * 31 + b) % 0x1_0000_0000 == (n * 31 + b) % 0x1_0000_0000
  {
    var q, m := n / 0x1_0000_0000, n % 0x1_0000_0000 * 31 + b;
    assert n * 31 + b == m + q * 31 * 0x1_0000_0000;
    SameRest(m, q * 31);
  }

  lemma SameRest(m: nat, k: nat)
    ensures (m + k * 0x1_0000_0000) % 0x1_0000_0000 == m % 0x1_0000_0000
  {
    var a, b := m + k * 0x1_0000_0000, 0x1_0000_0000;
    assert a / b * b + a % b == a && m / b * b + m % b == m;
    assert (a / b - k - m / b) * b == m % b - a % b;
  }

  /** The bucket is that of all the record's bytes: seven arrays, of 8 and 20 in turn and 8 at
      the end. */
  lemma BucketIs(b: Memory)
    ensures Bucket(b) == Digits(b.Bytes()) % 0x1_0000_0000 % 100000
    ensures b.Bytes() == b.protocol + b.privIp + b.privPort + b.pubIp + b.pubPort + b.dstIp + b.dstPort
    ensures |b.protocol| == 8 && |b.privIp| == 20 && |b.privPort| == 8 && |b.pubIp| == 20
    ensures |b.pubPort| == 8 && |b.dstIp| == 20 && |b.dstPort| == 8
  {
    HashIsNumber(b.Bytes());
  }

  /** The bucket is taken from all the bytes, those behind the terminators too. */
  function Bucket(b: Block): (n: nat)
    ensures n < HASH_SIZE
  {
    Hash(b.Bytes()) % HASH_SIZE
  }

  /** Whether a sum of bytes is odd. */
  function Odd(s: seq<Byte>): bool {
    |s| > 0 && Odd(s[..|s| - 1]) != (s[|s| - 1] % 2 == 1)
  }

  lemma EvenDivisor(n: nat, half: nat)
    requires half > 0
    ensures n % (2 * half) % 2 == n % 2
  {
    var q := n / (2 * half);
    assert n == 2 * (half * q) + n % (2 * half);
  }

  lemma EvenPart(h: nat, b: nat)
    ensures (h * BKDR + b) % 2 == (h + b) % 2
  {
    EvenSum(15 * h, h + b);
  }

  lemma EvenSum(k: nat, n: nat)
    ensures (2 * k + n) % 2 == n % 2
  {
  }

  lemma AddOdd(h: nat, b: nat, odd: bool)
    requires h % 2 == if odd then 1 else 0
    ensures (h + b) % 2 == if odd != (b % 2 == 1) then 1 else 0
  {
  }

  lemma PushOdd(h: nat, b: Byte, odd: bool)
    requires h % 2 == if odd then 1 else 0
    ensures Push(h, b) % 2 == if odd != (b % 2 == 1) then 1 else 0
  {
    EvenDivisor(h * BKDR + b, WIDTH / 2);
    EvenPart(h, b);
    AddOdd(h, b, odd);
  }

  /** The multiplier is odd and the widths are even, so the hash is odd when the sum of the
      bytes is, and so is the bucket. */
  lemma {:induction false} HashOdd(s: seq<Byte>)
    ensures Hash(s) % 2 == if Odd(s) then 1 else 0
  {
    if |s| > 0 {
      HashOdd(s[..|s| - 1]);
      PushOdd(Hash(s[..|s| - 1]), s[|s| - 1], Odd(s[..|s| - 1]));
    }
  }

  lemma OddApart(s: seq<Byte>, t: seq<Byte>)
    requires Odd(s) != Odd(t)
    ensures Hash(s) % HASH_SIZE != Hash(t) % HASH_SIZE
  {
    HashOdd(s);
    HashOdd(t);
    EvenDivisor(Hash(s), HASH_SIZE / 2);
    EvenDivisor(Hash(t), HASH_SIZE / 2);
  }

  lemma {:induction false} OddConcat(s: seq<Byte>, t: seq<Byte>)
    ensures Odd(s + t) == (Odd(s) != Odd(t))
  {
    if |t| == 0 {
      assert s + t == s;
    } else {
      assert (s + t)[..|s + t| - 1] == s + t[..|t| - 1];
      OddConcat(s, t[..|t| - 1]);
    }
  }

  /** A byte changed from even to odd, or back, changes the bucket, wherever it is. */
  lemma ByteMatters(s: seq<Byte>, i: nat, x: Byte)
    requires i < |s| && s[i] % 2 != x % 2
    ensures Hash(s) % HASH_SIZE != Hash(s[i := x]) % HASH_SIZE
  {
    OddAt(s, i, s[i]);
    OddAt(s, i, x);
    assert s[i := s[i]] == s;
    OddApart(s, s[i := x]);
  }

  lemma OddAt(s: seq<Byte>, i: nat, b: Byte)
    requires i < |s|
    ensures Odd(s[i := b]) == ((Odd(s[..i]) != (b % 2 == 1)) != Odd(s[i + 1..]))
  {
    assert s[i := b] == (s[..i] + [b]) + s[i + 1..];
    OddConcat(s[..i] + [b], s[i + 1..]);
    assert (s[..i] + [b])[..i] == s[..i];
  }

  // ----- files -----

  /** What a line of a file is: not of interest, broken, or a record, with what the
      memory for it held before. */
  datatype Line = Skipped | Broken | Record(info: Info, memory: Memory)

  datatype File = Missing | Lines(lines: seq<Line>)

  predicate Readable(f: File) {
    f.Lines? && forall i :: 0 <= i < |f.lines| ==> !f.lines[i].Broken?
  }

  /** The records that stand before the first broken line. */
  function Records(lines: seq<Line>): seq<Memory> {
    if |lines| == 0 || lines[0].Broken? then []
    else (if lines[0].Record? then [Written(lines[0].memory, lines[0].info)] else []) + Records(lines[1..])
  }

  /** The same records as texts. */
  function Infos(lines: seq<Line>): seq<Info> {
    if |lines| == 0 || lines[0].Broken? then []
    else (if lines[0].Record? then [lines[0].info] else []) + Infos(lines[1..])
  }

  predicate Whole(lines: seq<Line>) { forall i :: 0 <= i < |lines| ==> !lines[i].Broken? }

  /** Reading goes line by line. */
  lemma {:induction false} ReadingConcat(a: seq<Line>, b: seq<Line>)
    requires Whole(a)
    ensures Records(a + b) == Records(a) + Records(b)
  {
    if |a| == 0 {
      assert a + b == b;
    } else {
      assert (a + b)[1..] == a[1..] + b;
      ReadingConcat(a[1..], b);
    }
  }

  lemma {:induction false} TextsConcat(a: seq<Line>, b: seq<Line>)
    requires Whole(a)
    ensures Infos(a + b) == Infos(a) + Infos(b)
  {
    if |a| == 0 {
      assert a + b == b;
    } else {
      assert (a + b)[1..] == a[1..] + b;
      TextsConcat(a[1..], b);
    }
  }

  /** And it ends at the first line that is broken. */
  lemma ReadingEnds(a: seq<Line>, b: seq<Line>)
    requires Whole(a)
    ensures Infos(a + ([Broken] + b)) == Infos(a) && Records(a + ([Broken] + b)) == Records(a)
  {
    ReadingConcat(a, [Broken] + b);
    TextsConcat(a, [Broken] + b);
  }

  lemma ReadingOne(x: Info, m: Memory)
    ensures Infos([Record(x, m)]) == [x] && Records([Record(x, m)]) == [Written(m, x)]
    ensures Infos([Skipped]) == [] && Records([Skipped]) == [] && Infos([]) == [] && Records([]) == []
  {
    assert [Record(x, m)][1..] == [] && [Skipped][1..] == [];
  }

  // ----- what is listed -----

  /** A bucket: its records, the last one put in first. */
  function Chained(all: seq<Memory>, n: nat): seq<Memory> {
    if |all| == 0 then []
    else
      var last, rest := all[|all| - 1], Chained(all[..|all| - 1], n);
      if Bucket(last) == n then [last] + rest else rest
  }

  lemma {:induction false} ChainedHas(all: seq<Memory>, n: nat, b: Memory)
    ensures b in Chained(all, n) <==> b in all && Bucket(b) == n
  {
    if |all| > 0 {
      ChainedHas(all[..|all| - 1], n, b);
      assert all == all[..|all| - 1] + [all[|all| - 1]];
    }
  }

  /** The lookup: a scan of the one bucket. */
  predicate Found(all: seq<Memory>, b: Memory) {
    exists i :: 0 <= i < |Chained(all, Bucket(b))| && IsInfoEqual(Chained(all, Bucket(b))[i], b)
  }

  /** The records listed: those that the lookup does not find. */
  function Output(all: seq<Memory>, bs: seq<Memory>): seq<Texts> {
    if |bs| == 0 then []
    else Output(all, bs[..|bs| - 1]) + if Found(all, bs[|bs| - 1]) then [] else [Read(bs[|bs| - 1])]
  }

  /** The records of one file that another does not have, in order and with repeats. */
  function Difference(xs: seq<Info>, ys: seq<Info>): seq<Texts> {
    if |ys| == 0 then []
    else Difference(xs, ys[..|ys| - 1]) + if ys[|ys| - 1] in xs then [] else [ys[|ys| - 1]]
  }

  /** Each record of the second file is listed or not by itself, whatever its place. */
  lemma {:induction false} DifferenceConcat(xs: seq<Info>, a: seq<Info>, b: seq<Info>)
    ensures Difference(xs, a + b) == Difference(xs, a) + Difference(xs, b)
  {
    if |b| == 0 {
      assert a + b == a;
    } else {
      assert (a + b)[..|a + b| - 1] == a + b[..|b| - 1];
      DifferenceConcat(xs, a, b[..|b| - 1]);
    }
  }

  lemma DifferenceOne(xs: seq<Info>, y: Info)
    ensures Difference(xs, [y]) == if y in xs then [] else [y]
  {
    assert [y][..0] == [];
  }

  ghost predicate Stores(b: Memory, x: Info) {
    exists m: Memory :: b == Written(m, x)
  }

  /** These blocks hold these records. */
  ghost predicate Holds(bs: seq<Memory>, xs: seq<Info>) {
    |bs| == |xs| && forall i :: 0 <= i < |bs| ==> Stores(bs[i], xs[i])
  }

  lemma {:induction false} RecordsHold(lines: seq<Line>)
    ensures Holds(Records(lines), Infos(lines))
  {
    if |lines| > 0 && !lines[0].Broken? {
      RecordsHold(lines[1..]);
    }
  }

  lemma BlocksEqual(a: Memory, x: Info, b: Memory, y: Info)
    requires Stores(a, x) && Stores(b, y)
    ensures IsInfoEqual(a, b) <==> x == y
    ensures Read(b) == y
  {
    var m: Memory :| a == Written(m, x);
    var n: Memory :| b == Written(n, y);
    EqualIsEqual(m, x, n, y);
    ReadBack(n, y);
  }

  /** A record of both files lies in the same bucket for both, at least once. */
  predicate Meets(all: seq<Memory>, b: Memory) {
    exists i :: 0 <= i < |all| && IsInfoEqual(all[i], b) && Bucket(all[i]) == Bucket(b)
  }

  lemma FoundMeets(all: seq<Memory>, b: Memory)
    ensures Found(all, b) <==> Meets(all, b)
  {
    var c := Chained(all, Bucket(b));
    if Found(all, b) {
      var i :| 0 <= i < |c| && IsInfoEqual(c[i], b);
      ChainedHas(all, Bucket(b), c[i]);
      var j :| 0 <= j < |all| && all[j] == c[i];
    }
    if Meets(all, b) {
      var i :| 0 <= i < |all| && IsInfoEqual(all[i], b) && Bucket(all[i]) == Bucket(b);
      ChainedHas(all, Bucket(b), all[i]);
      var j :| 0 <= j < |c| && c[j] == all[i];
    }
  }

  /** The lookup is right about a record. */
  predicate Agrees(all: seq<Memory>, xs: seq<Info>, b: Memory, y: Info) {
    y in xs ==> Meets(all, b)
  }

  lemma FoundIsMember(all: seq<Memory>, xs: seq<Info>, b: Memory, y: Info)
    requires Holds(all, xs) && Stores(b, y)
    ensures Found(all, b) ==> y in xs
    ensures Agrees(all, xs, b, y) <==> (y in xs ==> Found(all, b))
  {
    FoundMeets(all, b);
    if Found(all, b) {
      var i :| 0 <= i < |all| && IsInfoEqual(all[i], b) && Bucket(all[i]) == Bucket(b);
      BlocksEqual(all[i], xs[i], b, y);
    }
  }

  /** All records of a file, one after the other. */
  predicate AllAgree(all: seq<Memory>, xs: seq<Info>, bs: seq<Memory>, ys: seq<Info>)
    requires |bs| == |ys|
  {
    |bs| == 0 ||
    (AllAgree(all, xs, bs[..|bs| - 1], ys[..|bs| - 1]) && Agrees(all, xs, bs[|bs| - 1], ys[|bs| - 1]))
  }

  /** Too much may be listed, never too little. */
  lemma {:induction false} NothingMissed(all: seq<Memory>, xs: seq<Info>, bs: seq<Memory>, ys: seq<Info>)
    requires Holds(all, xs) && Holds(bs, ys)
    ensures |Output(all, bs)| >= |Difference(xs, ys)|
    ensures |Output(all, bs)| == |Difference(xs, ys)| ==> AllAgree(all, xs, bs, ys)
  {
    if |bs| > 0 {
      var n := |bs| - 1;
      NothingMissed(all, xs, bs[..n], ys[..n]);
      FoundIsMember(all, xs, bs[n], ys[n]);
    }
  }

  lemma {:induction false} ListedRightly(all: seq<Memory>, xs: seq<Info>, bs: seq<Memory>, ys: seq<Info>)
    requires Holds(all, xs) && Holds(bs, ys) && AllAgree(all, xs, bs, ys)
    ensures Output(all, bs) == Difference(xs, ys)
  {
    if |bs| > 0 {
      var n := |bs| - 1;
      ListedRightly(all, xs, bs[..n], ys[..n]);
      FoundIsMember(all, xs, bs[n], ys[n]);
      var m: Memory :| bs[n] == Written(m, ys[n]);
      ReadBack(m, ys[n]);
    }
  }

  /** The output is the difference of the files exactly when each record that both have
      lies in one bucket for both, which its memory behind the texts decides. */
  lemma OutputIsDifference(one: seq<Line>, two: seq<Line>)
    ensures |Records(one)| == |Infos(one)| && |Records(two)| == |Infos(two)|
    ensures Output(Records(one), Records(two)) == Difference(Infos(one), Infos(two)) <==>
            AllAgree(Records(one), Infos(one), Records(two), Infos(two))
  {
    RecordsHold(one);
    RecordsHold(two);
    NothingMissed(Records(one), Infos(one), Records(two), Infos(two));
    if AllAgree(Records(one), Infos(one), Records(two), Infos(two)) {
      ListedRightly(Records(one), Infos(one), Records(two), Infos(two));
    }
  }

  // ----- zero-filled memory -----

  predicate ZeroFilled(lines: seq<Line>) {
    forall i :: 0 <= i < |lines| && lines[i].Record? ==> lines[i].memory == Zeros()
  }

  lemma {:induction false} ZeroRecords(lines: seq<Line>)
    requires ZeroFilled(lines)
    ensures |Records(lines)| == |Infos(lines)|
    ensures forall i :: 0 <= i < |Records(lines)| ==> Records(lines)[i] == Written(Zeros(), Infos(lines)[i])
  {
    if |lines| > 0 && !lines[0].Broken? {
      ZeroRecords(lines[1..]);
    }
  }

  /** Zero-filled, equal records are equal bytes, so they hash alike. */
  lemma {:induction false} ZeroAgree(one: seq<Line>, bs: seq<Memory>, ys: seq<Info>)
    requires ZeroFilled(one)
    requires |bs| == |ys| && forall i :: 0 <= i < |bs| ==> bs[i] == Written(Zeros(), ys[i])
    ensures AllAgree(Records(one), Infos(one), bs, ys)
  {
    if |bs| > 0 {
      var n := |bs| - 1;
      ZeroAgree(one, bs[..n], ys[..n]);
      ZeroRecords(one);
      if ys[n] in Infos(one) {
        var j :| 0 <= j < |Infos(one)| && Infos(one)[j] == ys[n];
        assert Records(one)[j] == bs[n];
      }
    }
  }

  /** With the memory zero-filled, as the program means to have it, the output is the
      difference. */
  lemma ZeroFilledDifference(one: seq<Line>, two: seq<Line>)
    requires ZeroFilled(one) && ZeroFilled(two)
    ensures Output(Records(one), Records(two)) == Difference(Infos(one), Infos(two))
  {
    ZeroRecords(two);
    ZeroAgree(one, Records(two), Infos(two));
    OutputIsDifference(one, two);
  }

  // ----- memory as malloc returns it -----

  /** A text that leaves bytes of its array unused. */
  predicate Slack(t: seq<Byte>, size: nat) { |t| + 1 < size }

  /** A record with such a text. */
  predicate HasSlack(x: Info) {
    || Slack(x.protocol, SHORT) || Slack(x.privIp, LONG) || Slack(x.privPort, SHORT) || Slack(x.pubIp, LONG)
    || Slack(x.pubPort, SHORT) || Slack(x.dstIp, LONG) || Slack(x.dstPort, SHORT)
  }

  function Marked(n: nat): (a: seq<Byte>)
    requires n > 0
    ensures |a| == n
  {
    Zero(n)[n - 1 := 1]
  }

  /** Memory with one byte set that the record leaves as it is, if there is one. */
  function DirtyFor(x: Info): Memory {
    if Slack(x.protocol, SHORT) then Zeros().(protocol := Marked(SHORT))
    else if Slack(x.privIp, LONG) then Zeros().(privIp := Marked(LONG))
    else if Slack(x.privPort, SHORT) then Zeros().(privPort := Marked(SHORT))
    else if Slack(x.pubIp, LONG) then Zeros().(pubIp := Marked(LONG))
    else if Slack(x.pubPort, SHORT) then Zeros().(pubPort := Marked(SHORT))
    else if Slack(x.dstIp, LONG) then Zeros().(dstIp := Marked(LONG))
    else Zeros().(dstPort := Marked(SHORT))
  }

  /** The same lines, read into other memory. */
  predicate SameTexts(a: seq<Line>, b: seq<Line>) {
    |a| == |b| && forall i :: 0 <= i < |a| ==> SameText(a[i], b[i])
  }

  predicate SameText(a: Line, b: Line) {
    match a
    case Record(x, _) => b.Record? && b.info == x
    case _ => a == b
  }

  lemma {:induction false} SameInfos(a: seq<Line>, b: seq<Line>)
    requires SameTexts(a, b)
    ensures Infos(a) == Infos(b)
  {
    if |a| > 0 {
      assert SameText(a[0], b[0]);
      SameInfos(a[1..], b[1..]);
    }
  }

  function Refilled(lines: seq<Line>, m: Memory): (r: seq<Line>)
    ensures SameTexts(r, lines)
  {
    seq(|lines|, i requires 0 <= i < |lines| => if lines[i].Record? then Record(lines[i].info, m) else lines[i])
  }

  lemma {:induction false} RefilledRecords(lines: seq<Line>, m: Memory)
    ensures |Records(Refilled(lines, m))| == |Infos(lines)|
    ensures forall i :: 0 <= i < |Infos(lines)| ==> Records(Refilled(lines, m))[i] == Written(m, Infos(lines)[i])
  {
    if |lines| > 0 && !lines[0].Broken? {
      assert Refilled(lines, m)[1..] == Refilled(lines[1..], m);
      RefilledRecords(lines[1..], m);
    }
  }

  predicate Shared(one: seq<Line>, two: seq<Line>, x: Info) { x in Infos(one) && x in Infos(two) }

  lemma MarkedCopy(t: seq<Byte>, n: nat)
    requires Fits(t, n) && Slack(t, n)
    ensures Odd(Copied(Marked(n), t)) != Odd(Copied(Zero(n), t))
  {
    var a, b := Copied(Zero(n), t), Copied(Marked(n), t);
    assert b[..n - 1] == a[..n - 1];
  }

  function OddFields(b: Block): bool {
    (((((Odd(b.protocol) != Odd(b.privIp)) != Odd(b.privPort)) != Odd(b.pubIp)) != Odd(b.pubPort)) !=
     Odd(b.dstIp)) != Odd(b.dstPort)
  }

  lemma BytesOdd(b: Block)
    ensures Odd(b.Bytes()) == OddFields(b)
  {
    OddConcat(b.protocol, b.privIp);
    OddConcat(b.protocol + b.privIp, b.privPort);
    OddConcat(b.protocol + b.privIp + b.privPort, b.pubIp);
    OddConcat(b.protocol + b.privIp + b.privPort + b.pubIp, b.pubPort);
    OddConcat(b.protocol + b.privIp + b.privPort + b.pubIp + b.pubPort, b.dstIp);
    OddConcat(b.protocol + b.privIp + b.privPort + b.pubIp + b.pubPort + b.dstIp, b.dstPort);
  }

  /** The byte left as it was changes the bucket. */
  lemma DirtyBucket(x: Info)
    requires HasSlack(x)
    ensures Bucket(Written(Zeros(), x)) != Bucket(Written(DirtyFor(x), x))
  {
    DirtyOdd(x);
    BytesOdd(Written(Zeros(), x));
    BytesOdd(Written(DirtyFor(x), x));
    OddApart(Written(Zeros(), x).Bytes(), Written(DirtyFor(x), x).Bytes());
  }

  lemma DirtyOdd(x: Info)
    requires HasSlack(x)
    ensures OddFields(Written(Zeros(), x)) != OddFields(Written(DirtyFor(x), x))
  {
    if Slack(x.protocol, SHORT) {
      MarkedCopy(x.protocol, SHORT);
    } else if Slack(x.privIp, LONG) {
      MarkedCopy(x.privIp, LONG);
    } else if Slack(x.privPort, SHORT) {
      MarkedCopy(x.privPort, SHORT);
    } else if Slack(x.pubIp, LONG) {
      MarkedCopy(x.pubIp, LONG);
    } else if Slack(x.pubPort, SHORT) {
      MarkedCopy(x.pubPort, SHORT);
    } else if Slack(x.dstIp, LONG) {
      MarkedCopy(x.dstIp, LONG);
    } else {
      MarkedCopy(x.dstPort, SHORT);
    }
  }

  /** A record without such a byte has one form in memory. */
  lemma FullSame(m: Memory, n: Memory, x: Info)
    requires !HasSlack(x)
    ensures Written(m, x) == Written(n, x)
  {
  }

  /** With the first file read into zeros and the second into that memory, no record of
      both meets itself. */
  lemma NeverMeets(one: seq<Line>, x: Info)
    requires HasSlack(x)
    ensures !Meets(Records(Refilled(one, Zeros())), Written(DirtyFor(x), x))
  {
    var all := Records(Refilled(one, Zeros()));
    RefilledRecords(one, Zeros());
    forall i | 0 <= i < |all| && IsInfoEqual(all[i], Written(DirtyFor(x), x))
      ensures Bucket(all[i]) != Bucket(Written(DirtyFor(x), x))
    {
      EqualIsEqual(Zeros(), Infos(one)[i], DirtyFor(x), x);
      DirtyBucket(x);
    }
  }

  lemma {:induction false} AllAgreeAt(all: seq<Memory>, xs: seq<Info>, bs: seq<Memory>, ys: seq<Info>, i: nat)
    requires |bs| == |ys| && i < |bs| && AllAgree(all, xs, bs, ys)
    ensures Agrees(all, xs, bs[i], ys[i])
  {
    if i < |bs| - 1 {
      AllAgreeAt(all, xs, bs[..|bs| - 1], ys[..|bs| - 1], i);
    }
  }

  lemma {:induction false} FullAgree(all: seq<Memory>, xs: seq<Info>, bs: seq<Memory>, ys: seq<Info>)
    requires Holds(all, xs) && Holds(bs, ys)
    requires forall y :: y in ys && y in xs ==> !HasSlack(y)
    ensures AllAgree(all, xs, bs, ys)
  {
    if |bs| > 0 {
      var n := |bs| - 1;
      FullAgree(all, xs, bs[..n], ys[..n]);
      if ys[n] in xs {
        var j :| 0 <= j < |xs| && xs[j] == ys[n];
        var a: Memory :| all[j] == Written(a, xs[j]);
        var b: Memory :| bs[n] == Written(b, ys[n]);
        FullSame(a, b, ys[n]);
        EqualIsEqual(a, xs[j], b, ys[n]);
        assert Meets(all, bs[n]);
      }
    }
  }

  /** Files that share only records without slack are told apart whatever the memory held. */
  lemma FullRight(one: seq<Line>, two: seq<Line>)
    requires forall x: Info :: Shared(one, two, x) ==> !HasSlack(x)
    ensures Output(Records(one), Records(two)) == Difference(Infos(one), Infos(two))
  {
    RecordsHold(one);
    RecordsHold(two);
    forall y | y in Infos(two) && y in Infos(one) ensures !HasSlack(y) {
      assert Shared(one, two, y);
    }
    FullAgree(Records(one), Infos(one), Records(two), Infos(two));
    OutputIsDifference(one, two);
  }

  /** A shared record is listed for some memory. */
  lemma SharedWrong(one: seq<Line>, two: seq<Line>, x: Info)
    requires Shared(one, two, x) && HasSlack(x)
    ensures var a, b := Refilled(one, Zeros()), Refilled(two, DirtyFor(x));
            Output(Records(a), Records(b)) != Difference(Infos(one), Infos(two))
  {
    var a, b := Refilled(one, Zeros()), Refilled(two, DirtyFor(x));
    SameInfos(a, one);
    SameInfos(b, two);
    OutputIsDifference(a, b);
    RefilledRecords(two, DirtyFor(x));
    if AllAgree(Records(a), Infos(a), Records(b), Infos(b)) {
      var i :| 0 <= i < |Infos(two)| && Infos(two)[i] == x;
      AllAgreeAt(Records(a), Infos(a), Records(b), Infos(b), i);
      NeverMeets(one, x);
      assert false;
    }
  }

  /** The output is right for one memory content. */
  ghost predicate RightFor(one: seq<Line>, two: seq<Line>, a: seq<Line>, b: seq<Line>) {
    SameTexts(a, one) && SameTexts(b, two) ==> Output(Records(a), Records(b)) == Difference(Infos(one), Infos(two))
  }

  /** The program does not fill the memory. The output is the difference of the files
      whatever the memory held exactly when no record that they share leaves a byte of an
      array unused. */
  lemma RightForAllMemory(one: seq<Line>, two: seq<Line>)
    ensures (forall a, b :: RightFor(one, two, a, b)) <==> forall x: Info :: Shared(one, two, x) ==> !HasSlack(x)
  {
    if forall x: Info :: Shared(one, two, x) ==> !HasSlack(x) {
      forall a, b | SameTexts(a, one) && SameTexts(b, two) ensures RightFor(one, two, a, b) {
        SameInfos(a, one);
        SameInfos(b, two);
        assert forall x: Info :: Shared(a, b, x) == Shared(one, two, x);
        FullRight(a, b);
      }
    } else {
      var x: Info :| Shared(one, two, x) && HasSlack(x);
      SharedWrong(one, two, x);
      assert !RightFor(one, two, Refilled(one, Zeros()), Refilled(two, DirtyFor(x)));
    }
  }

  /** In particular with one record in each file. */
  lemma SharedButListed(x: Info)
    requires HasSlack(x)
    ensures var one, two := [Record(x, Zeros())], [Record(x, DirtyFor(x))];
            Difference(Infos(one), Infos(two)) == [] && Output(Records(one), Records(two)) == [x]
  {
    var one, two := [Record(x, Zeros())], [Record(x, DirtyFor(x))];
    var a, b := Written(Zeros(), x), Written(DirtyFor(x), x);
    assert one[1..] == [] && two[1..] == [];
    assert Records(one) == [a] && Records(two) == [b] && Infos(one) == [x] && Infos(two) == [x];
    assert Difference([x], [x]) == [] by {
      assert [x][..0] == [];
    }
    DirtyBucket(x);
    FoundMeets([a], b);
    ReadBack(DirtyFor(x), x);
    assert [b][..0] == [];
  }
}
