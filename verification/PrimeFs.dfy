/**
Trial division and directory paging of examples/fuse-prime-fs.cpp, on 64-bit unsigned
arithmetic that wraps.
 */
module PrimeFs {
  import opened Bits

  ghost predicate Prime(n: nat) {
    n >= 2 && forall d :: 2 <= d < n ==> n % d != 0
  }

  ghost predicate NoDivisorBelow(n: nat, i: nat) {
    forall d :: 2 <= d < i ==> n % d != 0
  }

  /** 64-bit multiplication of i by itself. */
  function Square64(i: nat): nat {
    (i * i) % U64
  }

  /** A composite number has a divisor whose square does not exceed it. */
  lemma SmallDivisor(n: nat, i: nat)
    requires n >= 2 && NoDivisorBelow(n, i) && i * i > n
    ensures Prime(n)
  {
    forall d | 2 <= d < n ensures n % d != 0 {
      if n % d == 0 && d >= i {
        var e := n / d;
        DivModIdentity(n, d);
        assert n == d * e;
        CoDivisor(n, d, e, i);
      }
    }
  }

  lemma CoDivisor(n: nat, d: nat, e: nat, i: nat)
    requires n == d * e && 2 <= d < n && d >= i && i * i > n
    ensures 2 <= e < i && n % e == 0
  {
    assert d * 0 == 0 && d * 1 == d;
    assert e < i by {
      if e >= i { MulMonotone(i, i, d, e); }
    }
    assert n == e * d;
    DivModUnique(n, e, d, 0);
  }

  lemma MulMonotone(a: nat, b: nat, c: nat, d: nat)
    requires a <= c && b <= d
    ensures a * b <= c * d
  {
    assert c * d == a * d + (c - a) * d;
    assert a * d == a * b + a * (d - b);
  }

  /** A square root of -7 modulo 2^64. */
  const ROOT: nat := 1852311383259529397

  lemma RootOfMinusSeven()
    ensures 0x1_0000_0000 < ROOT < U64 / 2 && (ROOT * ROOT) % U64 == U64 - 7
  {
    assert ROOT * ROOT == U64 * 185997997632698875 + (U64 - 7);
  }

  /** The largest seven 64-bit numbers are composite, with small divisors. */
  lemma TopIsComposite(n: nat)
    requires U64 - 7 <= n < U64
    ensures n % 2 == 0 || n % 3 == 0 || n % 11 == 0 || n % 13 == 0
  {
  }

  /** No square of a 32-bit number wraps. */
  lemma NoWrap(i: nat)
    requires i <= 0xFFFF_FFFF
    ensures i * i < U64
  {
    MulMonotone(i, i, 0xFFFF_FFFF, 0xFFFF_FFFF);
  }

  /** Loop exit, also through a wrapped square: no divisor was missed. */
  lemma ExitIsPrime(n: nat, i: nat)
    requires 2 <= n < U64 && NoDivisorBelow(n, i) && Square64(i) > n
    ensures Prime(n)
  {
    if i <= 0xFFFF_FFFF {
      NoWrap(i);
      DivModUnique(i * i, U64, 0, i * i);
      SmallDivisor(n, i);
    } else {
      assert NoDivisorBelow(n, 0x1_0000_0000);
      SmallDivisor(n, 0x1_0000_0000);
    }
  }

  /** The loop does not run up to i == n: before that, some 64-bit square exceeds n, or n has a small divisor. */
  lemma EndsEarly(n: nat) returns (j: nat)
    requires 4 <= n < U64 && NoDivisorBelow(n, n)
    ensures 2 <= j < n && Square64(j) > n
  {
    if n <= 0xFFFF_FFFF {
      j := n - 1;
      SquareBelow(n);
      NoWrap(j);
      DivModUnique(j * j, U64, 0, j * j);
    } else if n < 0xFFFF_FFFF * 0xFFFF_FFFF {
      j := 0xFFFF_FFFF;
      assert j * j < U64;
    } else {
      RootOfMinusSeven();
      j := ROOT;
      if n >= U64 - 7 { TopIsComposite(n); }
    }
  }

  lemma SquareBelow(n: nat)
    requires n >= 4
    ensures (n - 1) * (n - 1) > n
  {
    assert (n - 1) * (n - 1) == (n - 3) * (n - 1) + 2 * (n - 1);
    assert (n - 3) * (n - 1) >= n - 1 by { MulMonotone(1, n - 1, n - 3, n - 1); }
  }

  /** The divisor that the loop finds is a proper one. */
  lemma DivisorIsProper(n: nat, i: nat)
    requires 2 <= i <= n < U64 && NoDivisorBelow(n, i) && Square64(i) <= n
    requires forall j :: 2 <= j < i ==> Square64(j) <= n
    ensures i < n
  {
    assert Square64(2) == 4 && Square64(3) == 9;
    if i == n {
      var j := EndsEarly(n);
      assert false;
    }
  }

  /** is_prime_ decides primality for every 64-bit number, although `i * i` may wrap. */
  method IsPrime(n: nat) returns (b: bool)
    requires n < U64
    ensures b <==> Prime(n)
  {
    if n < 2 {
      return false;
    }
    var i := 2;
    while Square64(i) <= n
      invariant 2 <= i <= n && NoDivisorBelow(n, i)
      invariant forall j :: 2 <= j < i ==> Square64(j) <= n
      decreases n - i
    {
      DivisorIsProper(n, i);
      if n % i == 0 {
        return false;
      }
      i := i + 1;
    }
    ExitIsPrime(n, i);
    return true;
  }

  // ---- directory paging ----

  /** 64-bit addition. */
  function Add64(x: nat, k: nat): nat
    requires x < U64 && k < U64
  {
    if x + k < U64 then x + k else x + k - U64
  }

  const ROOT_NODEID: nat := 1
  const NAME_OFFSET: nat := 24

  function NumOf(number: nat, nodeid: nat): nat {
    if nodeid == ROOT_NODEID then number else nodeid
  }

  ghost predicate IsDirectory(number: nat, nodeid: nat) {
    nodeid == ROOT_NODEID || !Prime(NumOf(number, nodeid))
  }

  /** std::to_string */
  function Digits(n: nat): (s: string)
    ensures |s| >= 1
  {
    var d := [('0' as int + n % 10) as char];
    if n < 10 then d else Digits(n / 10) + d
  }

  /** The number that a string of decimal digits spells. */
  function Number(s: string): nat
    requires forall i :: 0 <= i < |s| ==> '0' <= s[i] <= '9'
  {
    if s == [] then 0 else 10 * Number(s[..|s| - 1]) + (s[|s| - 1] as int - '0' as int)
  }

  /** The name of an entry spells its number in decimal, without leading zeros. */
  lemma {:induction false} DigitsSpell(n: nat)
    ensures forall i :: 0 <= i < |Digits(n)| ==> '0' <= Digits(n)[i] <= '9'
    ensures Number(Digits(n)) == n && (n > 0 ==> Digits(n)[0] != '0')
  {
    var s := Digits(n);
    if n >= 10 {
      DigitsSpell(n / 10);
      assert s[..|s| - 1] == Digits(n / 10);
    } else {
      assert s[..0] == [];
    }
  }

  /** FUSE_REC_ALIGN(FUSE_NAME_OFFSET + namelen): records are padded to a multiple of eight bytes. */
  function RecordLength(n: nat): nat {
    (NAME_OFFSET + |Digits(n)| + 7) / 8 * 8
  }

  /** A record holds its name behind the fixed part and is padded to the next multiple of eight bytes. */
  lemma {:induction false} RecordIsPadded(n: nat)
    ensures RecordLength(n) % 8 == 0 && NAME_OFFSET + |Digits(n)| <= RecordLength(n) < NAME_OFFSET + |Digits(n)| + 8
  {
  }

  /** fuse_dirent: the offset is where the next read resumes. */
  datatype Dirent = Dirent(ino: nat, off: nat, directory: bool, name: string)

  ghost function EntryOf(number: nat, n: nat): Dirent {
    Dirent(n, if n == 0 then U64 - 1 else n - 1, IsDirectory(number, n), Digits(n))
  }

  /** One reply: the entries n, n+1, ... below num, as many as fit into the room. */
  ghost function Page(number: nat, num: nat, n: nat, room: int): seq<Dirent>
    decreases num - n
  {
    if n >= num || RecordLength(n) > room then []
    else [EntryOf(number, n)] + Page(number, num, n + 1, room - RecordLength(n))
  }

  /** Each entry of a reply says what it should: consecutive numbers, each with its name in decimal, a
      directory exactly if it is the root's own number or not prime, and the offset at which a read resumes
      with the next number. */
  lemma {:induction false} PageTells(number: nat, num: nat, n: nat, room: int, i: nat)
    requires num < U64 && i < |Page(number, num, n, room)|
    ensures var e := Page(number, num, n, room)[i];
            && e.ino == n + i < num
            && (forall j :: 0 <= j < |e.name| ==> '0' <= e.name[j] <= '9') && Number(e.name) == e.ino
            && (e.directory <==> e.ino == ROOT_NODEID || !Prime(e.ino))
            && e.off < U64 && Add64(e.off, 2) == e.ino + 1
    decreases num - n
  {
    DigitsSpell(n);
    if i > 0 { PageTells(number, num, n + 1, room - RecordLength(n), i - 1); }
  }

  method IsDir(number: nat, nodeid: nat) returns (b: bool)
    requires number < U64 && nodeid < U64
    ensures b <==> IsDirectory(number, nodeid)
    ensures b <==> nodeid == ROOT_NODEID || !Prime(nodeid)
  {
    if nodeid == ROOT_NODEID {
      return true;
    }
    var p := IsPrime(NumOf(number, nodeid));
    return !p;
  }

  datatype Reply = Entries(entries: seq<Dirent>, used: nat) | NotADirectory

  /** Total record length of a reply. */
  function Bytes(es: seq<Dirent>): nat {
    if es == [] then 0 else RecordLength(es[0].ino) + Bytes(es[1..])
  }

  lemma {:induction false} BytesSnoc(es: seq<Dirent>, e: Dirent)
    ensures Bytes(es + [e]) == Bytes(es) + RecordLength(e.ino)
    decreases |es|
  {
    if es == [] {
      assert (es + [e])[1..] == [];
    } else {
      assert (es + [e])[1..] == es[1..] + [e];
      BytesSnoc(es[1..], e);
    }
  }

  lemma ConcatAssociates(a: seq<Dirent>, b: seq<Dirent>, c: seq<Dirent>)
    ensures a + (b + c) == (a + b) + c
  {
  }

  lemma PageUnfolds(number: nat, num: nat, n: nat, room: int, length: nat)
    requires n < num && length == RecordLength(n) <= room
    ensures Page(number, num, n, room) == [EntryOf(number, n)] + Page(number, num, n + 1, room - length)
  {
  }

  lemma NextOffset(i: nat, num: nat)
    requires i < U64 && num < U64 && Add64(i, 2) < num
    ensures Add64(Add64(i, 1), 2) == Add64(i, 2) + 1
    ensures Add64(i, 1) == if Add64(i, 2) == 0 then U64 - 1 else Add64(i, 2) - 1
  {
  }

  /** The reply so far: what is still to come completes the page. */
  ghost predicate Emitted(number: nat, num: nat, n: nat, maxReply: nat, es: seq<Dirent>, used: nat,
                          whole: seq<Dirent>)
  {
    used == Bytes(es) <= maxReply && whole == es + Page(number, num, n, maxReply - used)
  }

  lemma EmitOne(number: nat, num: nat, n: nat, maxReply: nat, es: seq<Dirent>, used: nat, whole: seq<Dirent>)
    requires Emitted(number, num, n, maxReply, es, used, whole) && n < num && used + RecordLength(n) <= maxReply
    ensures Emitted(number, num, n + 1, maxReply, es + [EntryOf(number, n)], used + RecordLength(n), whole)
  {
    var e, length := EntryOf(number, n), RecordLength(n);
    BytesSnoc(es, e);
    PageUnfolds(number, num, n, maxReply - used, length);
    ConcatAssociates(es, [e], Page(number, num, n + 1, maxReply - used - length));
  }

  lemma {:induction false} EmitEnds(number: nat, num: nat, n: nat, maxReply: nat, es: seq<Dirent>, used: nat,
                                    whole: seq<Dirent>)
    requires Emitted(number, num, n, maxReply, es, used, whole) && (n >= num || used + RecordLength(n) > maxReply)
    ensures es == whole && used == Bytes(es) <= maxReply
  {
  }

  /** The loop of do_readdir_ with its emit lambda. */
  method EmitFrom(number: nat, num: nat, offset: nat, maxReply: nat) returns (es: seq<Dirent>, used: nat)
    requires number < U64 && num < U64 && offset < U64
    ensures es == Page(number, num, Add64(offset, 2), maxReply) && used == Bytes(es) <= maxReply
  {
    es := [];
    used := 0;
    var i: nat := offset;
    ghost var whole := Page(number, num, Add64(offset, 2), maxReply);
    assert Emitted(number, num, Add64(offset, 2), maxReply, es, used, whole);
    while Add64(i, 2) < num
      invariant i < U64 && Emitted(number, num, Add64(i, 2), maxReply, es, used, whole)
      decreases num - Add64(i, 2)
    {
      var n := Add64(i, 2);
      if used + RecordLength(n) > maxReply {
        break;
      }
      EmitOne(number, num, n, maxReply, es, used, whole);
      NextOffset(i, num);
      var d := IsDir(number, n);
      es := es + [Dirent(n, Add64(i, 1), d, Digits(n))];
      used := used + RecordLength(n);
      i := Add64(i, 1);
    }
    EmitEnds(number, num, Add64(i, 2), maxReply, es, used, whole);
  }

  /** do_readdir_: the first entry is offset + 2 in 64-bit arithmetic, and the reply stays within its size. */
  method ReadDir(number: nat, nodeid: nat, offset: nat, maxReply: nat) returns (r: Reply)
    requires number < U64 && nodeid < U64 && offset < U64
    ensures r.NotADirectory? <==> nodeid != ROOT_NODEID && Prime(nodeid)
    ensures r.Entries? ==>
              && r.entries == Page(number, if nodeid == ROOT_NODEID then number else nodeid, Add64(offset, 2), maxReply)
              && r.used == Bytes(r.entries) <= maxReply
  {
    var dir := IsDir(number, nodeid);
    if !dir {
      return NotADirectory;
    }
    var es, used := EmitFrom(number, NumOf(number, nodeid), offset, maxReply);
    return Entries(es, used);
  }

  /** The entries a, a+1, ..., b-1. */
  ghost function Listing(number: nat, a: nat, b: nat): (es: seq<Dirent>)
    requires a <= b
    ensures |es| == b - a
    decreases b - a
  {
    if a == b then [] else [EntryOf(number, a)] + Listing(number, a + 1, b)
  }

  lemma {:induction false} ListingConcat(number: nat, a: nat, b: nat, c: nat)
    requires a <= b <= c
    ensures Listing(number, a, c) == Listing(number, a, b) + Listing(number, b, c)
    decreases b - a
  {
    if a < b { ListingConcat(number, a + 1, b, c); }
  }

  /** A page is a stretch of consecutive entries, and it is cut short only for want of room. */
  lemma {:induction false} PageIsListing(number: nat, num: nat, n: nat, room: int)
    requires n <= num
    ensures var p := Page(number, num, n, room);
            && n + |p| <= num && p == Listing(number, n, n + |p|)
            && (p == [] <==> n == num || RecordLength(n) > room)
    decreases num - n
  {
    if n < num && RecordLength(n) <= room { PageIsListing(number, num, n + 1, room - RecordLength(n)); }
  }

  /** Where the next read resumes: two above the offset of the last entry received, in 64-bit arithmetic. */
  function ResumeAt(n: nat, page: seq<Dirent>): nat {
    if page == [] then n
    else
      var off := page[|page| - 1].off;
      if off + 2 < U64 then off + 2 else off + 2 - U64
  }

  /** A client's reads, one after the other, each resuming from the last offset it got. */
  ghost function Reads(number: nat, num: nat, n: nat, sizes: seq<nat>): seq<Dirent>
    decreases |sizes|
  {
    if sizes == [] then []
    else
      var p := Page(number, num, n, sizes[0]);
      p + Reads(number, num, ResumeAt(n, p), sizes[1..])
  }

  lemma {:induction false} ListingLast(number: nat, a: nat, b: nat)
    requires a < b
    ensures Listing(number, a, b)[b - a - 1] == EntryOf(number, b - 1)
    decreases b - a
  {
    if a + 1 < b { ListingLast(number, a + 1, b); }
  }

  lemma {:induction false} ResumesAfterPage(number: nat, num: nat, n: nat, room: int)
    requires n <= num < U64
    ensures ResumeAt(n, Page(number, num, n, room)) == n + |Page(number, num, n, room)|
  {
    PageIsListing(number, num, n, room);
    var p := Page(number, num, n, room);
    if p != [] { ListingLast(number, n, n + |p|); }
  }

  /** Reads of any sizes return consecutive entries, each exactly once, in order. */
  lemma {:induction false} ReadsAreConsecutive(number: nat, num: nat, n: nat, sizes: seq<nat>)
    requires n <= num < U64
    ensures var es := Reads(number, num, n, sizes); n + |es| <= num && es == Listing(number, n, n + |es|)
    decreases |sizes|
  {
    if sizes != [] {
      var p := Page(number, num, n, sizes[0]);
      PageIsListing(number, num, n, sizes[0]);
      ResumesAfterPage(number, num, n, sizes[0]);
      ReadsAreConsecutive(number, num, n + |p|, sizes[1..]);
      ListingConcat(number, n, n + |p|, n + |Reads(number, num, n, sizes)|);
    }
  }

  lemma {:induction false} DigitsGrow(a: nat, b: nat)
    requires a <= b
    ensures |Digits(a)| <= |Digits(b)|
    decreases b
  {
    if a >= 10 { DigitsGrow(a / 10, b / 10); }
  }

  lemma RecordsGrow(a: nat, b: nat)
    requires a <= b
    ensures RecordLength(a) <= RecordLength(b)
  {
    DigitsGrow(a, b);
  }

  /** With room for every record, each read makes progress until the directory is exhausted. */
  lemma {:induction false} EnoughReads(number: nat, num: nat, n: nat, sizes: seq<nat>)
    requires n <= num < U64 && |sizes| >= num - n
    requires num > 0 ==> forall i :: 0 <= i < |sizes| ==> sizes[i] >= RecordLength(num - 1)
    ensures n + |Reads(number, num, n, sizes)| == num
    decreases |sizes|
  {
    if n < num {
      var p := Page(number, num, n, sizes[0]);
      RecordsGrow(n, num - 1);
      PageIsListing(number, num, n, sizes[0]);
      ResumesAfterPage(number, num, n, sizes[0]);
      EnoughReads(number, num, n + |p|, sizes[1..]);
    } else {
      ReadsAreConsecutive(number, num, n, sizes);
    }
  }

  lemma {:induction false} EntriesFit(number: nat, num: nat, n: nat, room: int, i: nat)
    requires i < |Page(number, num, n, room)|
    ensures RecordLength(Page(number, num, n, room)[i].ino) <= room
    decreases num - n
  {
    if i > 0 { EntriesFit(number, num, n + 1, room - RecordLength(n), i - 1); }
  }

  lemma {:induction false} ReadsFit(number: nat, num: nat, n: nat, sizes: seq<nat>, max: nat, i: nat)
    requires i < |Reads(number, num, n, sizes)| && forall j :: 0 <= j < |sizes| ==> sizes[j] <= max
    ensures RecordLength(Reads(number, num, n, sizes)[i].ino) <= max
    decreases |sizes|
  {
    var p := Page(number, num, n, sizes[0]);
    if i < |p| {
      EntriesFit(number, num, n, sizes[0], i);
    } else {
      ReadsFit(number, num, ResumeAt(n, p), sizes[1..], max, i - |p|);
    }
  }

  /**
   Enough reads of one size list every number in [2, num) exactly once, in order, if and only
   if there is none or the reply has room for the longest record, which is the last one.
   */
  lemma {:induction false} PagingIsComplete(number: nat, num: nat, max: nat, times: nat)
    requires num < U64 && times + 2 >= num
    ensures Reads(number, num, 2, seq(times, _ => max)) == Listing(number, 2, if num < 2 then 2 else num)
            <==> num <= 2 || RecordLength(num - 1) <= max
  {
    var sizes := seq(times, _ => max);
    if num <= 2 {
      NothingToRead(number, num, 2, sizes);
    } else if RecordLength(num - 1) <= max {
      EnoughReads(number, num, 2, sizes);
      ReadsAreConsecutive(number, num, 2, sizes);
    } else if Reads(number, num, 2, sizes) == Listing(number, 2, num) {
      ListingLast(number, 2, num);
      ReadsFit(number, num, 2, sizes, max, num - 3);
    }
  }

  lemma {:induction false} NothingToRead(number: nat, num: nat, n: nat, sizes: seq<nat>)
    requires num <= n
    ensures Reads(number, num, n, sizes) == []
    decreases |sizes|
  {
    if sizes != [] { NothingToRead(number, num, n, sizes[1..]); }
  }

  /**
   The loop does not keep to [2, num): for an offset of 2^64 - 2 or more the sum wraps. A reply
   holds an entry below 2 exactly then, when that entry is below num and its record fits.
   */
  lemma {:induction false} LowEntriesExactly(number: nat, num: nat, offset: nat, max: nat)
    requires offset < U64 && num < U64
    ensures (exists e :: e in Page(number, num, Add64(offset, 2), max) && e.ino < 2)
            <==> offset >= U64 - 2 && Add64(offset, 2) < num && RecordLength(Add64(offset, 2)) <= max
  {
    var n := Add64(offset, 2);
    var page := Page(number, num, n, max);
    if n < num && RecordLength(n) <= max {
      assert page[0] == EntryOf(number, n) && page[0] in page;
    }
    forall e | e in page ensures e.ino >= n {
      PageFrom(number, num, n, max, e);
    }
  }

  lemma {:induction false} PageFrom(number: nat, num: nat, n: nat, room: int, e: Dirent)
    requires e in Page(number, num, n, room)
    ensures e.ino >= n
    decreases num - n
  {
    if e != EntryOf(number, n) { PageFrom(number, num, n + 1, room - RecordLength(n), e); }
  }

  /** Two such replies: the root directory read from the last two offsets. */
  lemma {:induction false} WrappedOffsetLists(number: nat)
    requires 1 < number < U64
    ensures Page(number, number, Add64(U64 - 2, 2), 32) == [EntryOf(number, 0)]
    ensures Page(number, number, Add64(U64 - 1, 2), 32) == [EntryOf(number, 1)]
  {
    assert |Digits(0)| == |Digits(1)| == 1;
    assert Page(number, number, 1, 0) == [] && Page(number, number, 2, 0) == [];
  }
}
