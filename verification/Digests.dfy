/**
 UTF-8, and what a cycle feeds to its digest: the type names in sorted order, each
 with its record count and the record texts run together.  The digest itself is
 taken to tell different inputs apart, so it is identified with its input.
 */
module Digests {
  import opened Basics
  import opened Sorting

  // ----- UTF-8 -----

  /** The bytes of a code point, as section 3 of RFC 3629 lays them out. */
  function Utf8Char(c: char): seq<nat> {
    var p := c as int;
    if p < 0x80 then [p]
    else if p < 0x800 then [0xC0 + p / 0x40, 0x80 + p % 0x40]
    else if p < 0x10000 then [0xE0 + p / 0x1000, 0x80 + p / 0x40 % 0x40, 0x80 + p % 0x40]
    else [0xF0 + p / 0x40000, 0x80 + p / 0x1000 % 0x40, 0x80 + p / 0x40 % 0x40, 0x80 + p % 0x40]
  }

  function Utf8(s: string): seq<nat> {
    if s == [] then [] else Utf8(s[..|s| - 1]) + Utf8Char(s[|s| - 1])
  }

  predicate Continues(b: nat) {
    0x80 <= b < 0xC0
  }

  /** A code point starts with a byte that cannot continue one, and goes on with bytes that do. */
  lemma CharBytes(c: char)
    ensures 1 <= |Utf8Char(c)| <= 4 && !Continues(Utf8Char(c)[0])
    ensures forall i :: 1 <= i < |Utf8Char(c)| ==> Continues(Utf8Char(c)[i])
  {
  }

  lemma Digits(p: nat)
    ensures p == p / 0x40 * 0x40 + p % 0x40
    ensures p / 0x40 == p / 0x1000 * 0x40 + p / 0x40 % 0x40
    ensures p / 0x1000 == p / 0x40000 * 0x40 + p / 0x1000 % 0x40
  {
  }

  /** The bytes read back: how long a sequence is, how it starts, and the code point it stands for. */
  lemma CharDecodes(c: char)
    ensures var b, p := Utf8Char(c), c as int;
      && |b| == (if p <= 127 then 1 else if p <= 2047 then 2 else if p <= 65535 then 3 else 4)
      && (forall i :: 1 <= i < |b| ==> 128 <= b[i] < 192)
      && (|b| == 1 ==> b[0] < 128 && p == b[0])
      && (|b| == 2 ==> 192 <= b[0] < 224 && p == (b[0] - 192) * 64 + (b[1] - 128))
      && (|b| == 3 ==> 224 <= b[0] < 240 && p == ((b[0] - 224) * 64 + (b[1] - 128)) * 64 + (b[2] - 128))
      && (|b| == 4 ==>
            240 <= b[0] < 248 && p == (((b[0] - 240) * 64 + (b[1] - 128)) * 64 + (b[2] - 128)) * 64 + (b[3] - 128))
  {
    Digits(c as int);
  }

  lemma CharInjective(x: char, y: char)
    requires Utf8Char(x) == Utf8Char(y)
    ensures x == y
  {
    Digits(x as int);
    Digits(y as int);
    assert |Utf8Char(x)| == |Utf8Char(y)|;
    assert forall i :: 0 <= i < |Utf8Char(x)| ==> Utf8Char(x)[i] == Utf8Char(y)[i];
    assert x as int == y as int;
  }

  lemma ByteFromBack(a: seq<nat>, u: seq<nat>, b: seq<nat>, v: seq<nat>)
    requires a + u == b + v && 0 < |v| < |u|
    ensures u[|u| - |v|] == v[0]
  {
    assert (a + u)[|a| + |u| - |v|] == u[|u| - |v|];
    assert (b + v)[|b|] == v[0];
  }

  /** Where two texts have the same bytes, their last code points are equally long. */
  lemma LastLength(a: seq<nat>, x: char, b: seq<nat>, y: char)
    requires a + Utf8Char(x) == b + Utf8Char(y)
    ensures |Utf8Char(x)| <= |Utf8Char(y)|
  {
    CharBytes(x);
    CharBytes(y);
    if |Utf8Char(x)| > |Utf8Char(y)| { ByteFromBack(a, Utf8Char(x), b, Utf8Char(y)); }
  }

  lemma SameTail(a: seq<nat>, u: seq<nat>, b: seq<nat>, v: seq<nat>)
    requires a + u == b + v && |u| == |v|
    ensures a == b && u == v
  {
    assert a == (a + u)[..|a + u| - |u|] && b == (b + v)[..|b + v| - |v|];
    assert u == (a + u)[|a|..] && v == (b + v)[|b|..];
  }

  /** Different texts have different bytes. */
  lemma {:induction false} Utf8Injective(s: string, t: string)
    requires Utf8(s) == Utf8(t)
    ensures s == t
    decreases |s|
  {
    if s != [] { CharBytes(s[|s| - 1]); }
    if t != [] { CharBytes(t[|t| - 1]); }
    if s != [] && t != [] {
      var s0, x, t0, y := s[..|s| - 1], s[|s| - 1], t[..|t| - 1], t[|t| - 1];
      LastLength(Utf8(s0), x, Utf8(t0), y);
      LastLength(Utf8(t0), y, Utf8(s0), x);
      SameTail(Utf8(s0), Utf8Char(x), Utf8(t0), Utf8Char(y));
      CharInjective(x, y);
      Utf8Injective(s0, t0);
      assert s == s0 + [x] && t == t0 + [y];
    }
  }

  lemma {:induction false} Utf8Concat(a: string, b: string)
    ensures Utf8(a + b) == Utf8(a) + Utf8(b)
  {
    if b == [] {
      assert a + b == a;
    } else {
      assert (a + b)[..|a + b| - 1] == a + b[..|b| - 1];
      Utf8Concat(a, b[..|b| - 1]);
    }
  }

  // ----- sorted names -----

  lemma {:induction false} LeastKey(keys: set<string>)
    requires keys != {}
    ensures exists k :: k in keys && forall x :: x in keys && x != k ==> StringLess(k, x)
    decreases |keys|
  {
    StringOrder();
    var k :| k in keys;
    var rest := keys - {k};
    if rest == {} {
      assert forall x :: x in keys && x != k ==> x in rest;
    } else {
      LeastKey(rest);
      var l :| l in rest && forall x :: x in rest && x != l ==> StringLess(l, x);
      if StringLess(k, l) {
        assert forall x :: x in keys && x != k ==> x in rest;
      } else {
        assert forall x :: x in keys && x != l ==> x == k || x in rest;
      }
    }
  }

  predicate Least(keys: set<string>, k: string) {
    k in keys && forall x :: x in keys && x != k ==> StringLess(k, x)
  }

  lemma OneLeast(keys: set<string>, k: string, l: string)
    requires Least(keys, k) && Least(keys, l)
    ensures k == l
  {
    if k != l {
      StringLessTransitive(k, l, k);
      StringLessIrreflexive(k);
    }
  }

  lemma LeastIsOne(keys: set<string>)
    requires keys != {}
    ensures exists k :: Least(keys, k)
    ensures forall k, l :: Least(keys, k) && Least(keys, l) ==> k == l
  {
    LeastKey(keys);
    var k :| k in keys && forall x :: x in keys && x != k ==> StringLess(k, x);
    assert Least(keys, k);
    forall x, y | Least(keys, x) && Least(keys, y) ensures x == y { OneLeast(keys, x, y); }
  }

  function SortedKeys(keys: set<string>): seq<string>
    decreases |keys|
  {
    if keys == {} then [] else
      LeastIsOne(keys);
      var k :| Least(keys, k);
      [k] + SortedKeys(keys - {k})
  }

  lemma LeastBelow(keys: set<string>, k: string, x: string)
    requires Least(keys, k) && x in keys - {k}
    ensures !StringLess(x, k)
  {
    if StringLess(x, k) {
      StringLessTransitive(k, x, k);
      StringLessIrreflexive(k);
    }
  }

  lemma {:induction false} SortedKeysListed(keys: set<string>)
    ensures Distinct(SortedKeys(keys)) && Sorted(StringLess, SortedKeys(keys))
    ensures forall k :: k in SortedKeys(keys) <==> k in keys
    decreases |keys|
  {
    if keys != {} {
      var s := SortedKeys(keys);
      SortedKeysListed(keys - {s[0]});
      LeastIsOne(keys);
      assert s[1..] == SortedKeys(keys - {s[0]});
      forall i | 1 <= i < |s| ensures s[i] != s[0] && !StringLess(s[i], s[0]) {
        assert s[i] == s[1..][i - 1] && s[1..][i - 1] in s[1..];
        LeastBelow(keys, s[0], s[i]);
      }
      assert forall i :: 1 <= i < |s| ==> s[i] == s[1..][i - 1];
    }
  }

  /** Sorting the names of a map, visited in any order, gives this one list. */
  lemma SortedIsArranged(keys: set<string>, listing: seq<string>)
    requires Listing(keys, listing)
    ensures Arrange(StringLess, listing) == SortedKeys(keys)
  {
    StringOrder();
    SortedKeysListed(keys);
    ArrangeSorts(StringLess, listing);
    SameMembers(listing, SortedKeys(keys));
    SortedUnique(StringLess, Arrange(StringLess, listing), SortedKeys(keys));
  }

  // ----- the input of the digest -----

  type Digest = seq<nat>

  function LittleEndian(n: nat, width: nat): seq<nat> {
    if width == 0 then [] else [n % 256] + LittleEndian(n / 256, width - 1)
  }

  /** The number that bytes stand for, the lowest byte first. */
  function Spelled(bytes: seq<nat>): nat {
    if bytes == [] then 0 else bytes[0] + 256 * Spelled(bytes[1..])
  }

  /** The count is in the bytes, whatever it is, as long as it fits. */
  lemma {:induction false} LittleEndianSpells(n: nat, width: nat)
    requires n < Power(256, width)
    ensures |LittleEndian(n, width)| == width && Spelled(LittleEndian(n, width)) == n
    ensures forall i :: 0 <= i < width ==> LittleEndian(n, width)[i] < 256
  {
    if width > 0 {
      LittleEndianSpells(n / 256, width - 1);
      var b := LittleEndian(n, width);
      assert b[1..] == LittleEndian(n / 256, width - 1);
      assert forall i :: 1 <= i < width ==> b[i] == b[1..][i - 1];
    }
  }

  /** Two counts that fit have the same bytes only if they are the same. */
  lemma LittleEndianInjective(n: nat, m: nat, width: nat)
    requires n < Power(256, width) && m < Power(256, width)
    ensures |LittleEndian(n, width)| == |LittleEndian(m, width)| == width
    ensures LittleEndian(n, width) == LittleEndian(m, width) <==> n == m
  {
    LittleEndianSpells(n, width);
    LittleEndianSpells(m, width);
  }

  /** Eight bytes hold every count below 2^64. */
  lemma EightBytes()
    ensures Power(256, 8) == TWO_64
  {
    assert Power(256, 2) == 256 * 256;
    assert Power(256, 4) == 256 * (256 * Power(256, 2));
    assert Power(256, 6) == 256 * (256 * Power(256, 4));
    assert Power(256, 8) == 256 * (256 * Power(256, 6));
  }

  /** The texts of one type, without anything between them. */
  function Joined(s: seq<Payload>): string {
    if s == [] then "" else Joined(s[..|s| - 1]) + s[|s| - 1].text
  }

  function Section(t: string, s: seq<Payload>): seq<nat> {
    Utf8(t) + LittleEndian(|s|, 8) + Utf8(Joined(s))
  }

  function Fed(c: Content, names: seq<string>): Digest {
    if names == [] then []
    else Fed(c, names[..|names| - 1]) + Section(names[|names| - 1], ListOf(c, names[|names| - 1]))
  }

  lemma FedNext(c: Content, names: seq<string>, i: nat)
    requires i < |names|
    ensures Fed(c, names[..i + 1]) == Fed(c, names[..i]) + Section(names[i], ListOf(c, names[i]))
  {
    assert names[..i + 1][..i] == names[..i];
  }

  function DataHash(c: Content): Digest {
    Fed(c, SortedKeys(c.Keys))
  }

  lemma {:induction false} JoinedSame(a: seq<Payload>, b: seq<Payload>)
    requires SameText(a, b)
    ensures Joined(a) == Joined(b)
  {
    if a != [] {
      JoinedSame(a[..|a| - 1], b[..|b| - 1]);
    }
  }

  lemma {:induction false} FedSame(a: Content, b: Content, names: seq<string>)
    requires SameContent(a, b)
    ensures Fed(a, names) == Fed(b, names)
  {
    if names != [] {
      FedSame(a, b, names[..|names| - 1]);
      JoinedSame(ListOf(a, names[|names| - 1]), ListOf(b, names[|names| - 1]));
    }
  }

  /** Contents that read the same have one digest. */
  lemma SameDigest(a: Content, b: Content)
    requires SameContent(a, b)
    ensures DataHash(a) == DataHash(b)
  {
    FedSame(a, b, SortedKeys(a.Keys));
  }

  /** Equally many records, with texts of the same lengths in bytes. */
  predicate SameLengths(a: seq<Payload>, b: seq<Payload>) {
    |a| == |b| && forall i :: 0 <= i < |a| ==> |Utf8(a[i].text)| == |Utf8(b[i].text)|
  }

  predicate SameShape(a: Content, b: Content) {
    a.Keys == b.Keys && forall t :: t in a ==> SameLengths(a[t], b[t])
  }

  lemma SameLengthsFront(a: seq<Payload>, b: seq<Payload>)
    requires SameLengths(a, b) && a != []
    ensures SameLengths(a[..|a| - 1], b[..|b| - 1]) && |Utf8(a[|a| - 1].text)| == |Utf8(b[|b| - 1].text)|
  {
  }

  lemma {:induction false} JoinedLength(a: seq<Payload>, b: seq<Payload>)
    requires SameLengths(a, b)
    ensures |Utf8(Joined(a))| == |Utf8(Joined(b))|
  {
    if a != [] {
      SameLengthsFront(a, b);
      JoinedLength(a[..|a| - 1], b[..|b| - 1]);
      Utf8Concat(Joined(a[..|a| - 1]), a[|a| - 1].text);
      Utf8Concat(Joined(b[..|b| - 1]), b[|b| - 1].text);
    }
  }

  lemma SameHead(u: seq<nat>, a: seq<nat>, v: seq<nat>, b: seq<nat>)
    requires u + a == v + b && |u| == |v|
    ensures u == v && a == b
  {
    assert u == (u + a)[..|u|] && v == (v + b)[..|v|];
    assert a == (u + a)[|u|..] && b == (v + b)[|v|..];
  }

  lemma PartsRead(u: seq<nat>, n: seq<nat>, a: seq<nat>, v: seq<nat>, m: seq<nat>, b: seq<nat>)
    requires |u| == |v| && |n| == |m|
    ensures u + n + a == v + m + b <==> u == v && n == m && a == b
  {
    if u + n + a == v + m + b {
      SameHead(u + n, a, v + m, b);
      SameHead(u, n, v, m);
    }
  }

  lemma CountsRead(n: nat, m: nat)
    requires n < TWO_64 && m < TWO_64
    ensures |LittleEndian(n, 8)| == |LittleEndian(m, 8)|
    ensures LittleEndian(n, 8) == LittleEndian(m, 8) <==> n == m
  {
    EightBytes();
    LittleEndianInjective(n, m, 8);
  }

  lemma SectionThen(t: string, s: seq<Payload>, x: seq<nat>)
    ensures Section(t, s) + x == Utf8(t) + LittleEndian(|s|, 8) + (Utf8(Joined(s)) + x)
  {
  }

  /** The name and the count of a type can be read off, whatever follows, and then the texts up to the next name. */
  lemma SectionReads(t: string, a: seq<Payload>, x: seq<nat>, u: string, b: seq<Payload>, y: seq<nat>)
    requires |Utf8(t)| == |Utf8(u)| && |a| < TWO_64 && |b| < TWO_64
    ensures Section(t, a) + x == Section(u, b) + y <==>
      t == u && |a| == |b| && Utf8(Joined(a)) + x == Utf8(Joined(b)) + y
  {
    CountsRead(|a|, |b|);
    if Utf8(t) == Utf8(u) { Utf8Injective(t, u); }
    SectionThen(t, a, x);
    SectionThen(u, b, y);
    PartsRead(Utf8(t), LittleEndian(|a|, 8), Utf8(Joined(a)) + x, Utf8(u), LittleEndian(|b|, 8), Utf8(Joined(b)) + y);
  }

  lemma SameTextBack(a: seq<Payload>, b: seq<Payload>)
    requires |a| == |b| > 0 && SameText(a[..|a| - 1], b[..|b| - 1]) && a[|a| - 1].text == b[|b| - 1].text
    ensures SameText(a, b)
  {
    assert forall i :: 0 <= i < |a| - 1 ==> a[..|a| - 1][i] == a[i] && b[..|b| - 1][i] == b[i];
  }

  /** With the lengths known, texts run together can be told apart again. */
  lemma {:induction false} JoinedSplits(a: seq<Payload>, b: seq<Payload>)
    requires SameLengths(a, b) && Utf8(Joined(a)) == Utf8(Joined(b))
    ensures SameText(a, b)
  {
    if a != [] {
      var a0, b0, x, y := a[..|a| - 1], b[..|b| - 1], a[|a| - 1].text, b[|b| - 1].text;
      SameLengthsFront(a, b);
      Utf8Concat(Joined(a0), x);
      Utf8Concat(Joined(b0), y);
      SameTail(Utf8(Joined(a0)), Utf8(x), Utf8(Joined(b0)), Utf8(y));
      JoinedSplits(a0, b0);
      Utf8Injective(x, y);
      SameTextBack(a, b);
    }
  }

  lemma SectionSplits(t: string, a: seq<Payload>, b: seq<Payload>, x: seq<nat>, y: seq<nat>)
    requires SameLengths(a, b) && x + Section(t, a) == y + Section(t, b)
    ensures x == y && SameText(a, b)
  {
    JoinedLength(a, b);
    SameTail(x, Section(t, a), y, Section(t, b));
    SameTail(Utf8(t) + LittleEndian(|a|, 8), Utf8(Joined(a)), Utf8(t) + LittleEndian(|b|, 8), Utf8(Joined(b)));
    JoinedSplits(a, b);
  }

  lemma ShapeAt(a: Content, b: Content, t: string)
    requires SameShape(a, b)
    ensures SameLengths(ListOf(a, t), ListOf(b, t))
  {
  }

  lemma FedLast(c: Content, names: seq<string>)
    requires names != []
    ensures Fed(c, names) == Fed(c, names[..|names| - 1]) + Section(names[|names| - 1], ListOf(c, names[|names| - 1]))
  {
  }

  lemma LastSplits(a: Content, b: Content, names: seq<string>)
    requires SameShape(a, b) && names != [] && Fed(a, names) == Fed(b, names)
    ensures Fed(a, names[..|names| - 1]) == Fed(b, names[..|names| - 1])
    ensures SameText(ListOf(a, names[|names| - 1]), ListOf(b, names[|names| - 1]))
  {
    var front, t := names[..|names| - 1], names[|names| - 1];
    ShapeAt(a, b, t);
    FedLast(a, names);
    FedLast(b, names);
    SectionSplits(t, ListOf(a, t), ListOf(b, t), Fed(a, front), Fed(b, front));
  }

  lemma {:induction false} FedSplits(a: Content, b: Content, names: seq<string>, i: nat)
    requires SameShape(a, b) && Fed(a, names) == Fed(b, names) && i < |names|
    ensures SameText(ListOf(a, names[i]), ListOf(b, names[i]))
  {
    LastSplits(a, b, names);
    if i < |names| - 1 { FedSplits(a, b, names[..|names| - 1], i); }
  }

  lemma {:induction false} SameTextLengths(a: seq<Payload>, b: seq<Payload>)
    requires SameText(a, b)
    ensures SameLengths(a, b)
  {
  }

  /**
   Two states with equal digests read the same exactly when they have the same types
   with equally many records, whose texts are equally long.
   */
  lemma DigestExact(a: Content, b: Content)
    requires DataHash(a) == DataHash(b)
    ensures SameContent(a, b) <==> SameShape(a, b)
  {
    if SameContent(a, b) {
      forall t | t in a ensures SameLengths(a[t], b[t]) { SameTextLengths(a[t], b[t]); }
    }
    if SameShape(a, b) {
      SortedKeysListed(a.Keys);
      forall t | t in a ensures SameText(a[t], b[t]) {
        var i :| 0 <= i < |SortedKeys(a.Keys)| && SortedKeys(a.Keys)[i] == t;
        FedSplits(a, b, SortedKeys(a.Keys), i);
      }
    }
  }

  lemma OneName(t: string)
    ensures SortedKeys({t}) == [t]
  {
    SortedKeysListed({t});
    var s := SortedKeys({t});
    assert t in s;
    assert forall i :: 0 <= i < |s| ==> s[i] in s;
  }

  lemma OneSection(t: string, a: seq<Payload>)
    ensures DataHash(map[t := a]) == Section(t, a)
  {
    var c: Content := map[t := a];
    OneName(t);
    assert c.Keys == {t} && [t][..0] == [];
    assert Fed(c, [t]) == Fed(c, []) + Section(t, a);
  }

  lemma TextsRead(a: seq<Payload>, b: seq<Payload>)
    ensures Utf8(Joined(a)) == Utf8(Joined(b)) <==> Joined(a) == Joined(b)
  {
    if Utf8(Joined(a)) == Utf8(Joined(b)) { Utf8Injective(Joined(a), Joined(b)); }
  }

  lemma NothingAfter(x: seq<nat>)
    ensures x + [] == x
  {
  }

  /** For a single type the digest tells everything but where one record's text ends and the next begins. */
  lemma OneTypeExact(t: string, a: seq<Payload>, u: string, b: seq<Payload>)
    requires |Utf8(t)| == |Utf8(u)| && |a| < TWO_64 && |b| < TWO_64
    ensures DataHash(map[t := a]) == DataHash(map[u := b]) <==> t == u && |a| == |b| && Joined(a) == Joined(b)
  {
    OneSection(t, a);
    OneSection(u, b);
    SectionReads(t, a, [], u, b, []);
    TextsRead(a, b);
    NothingAfter(Section(t, a));
    NothingAfter(Section(u, b));
    NothingAfter(Utf8(Joined(a)));
    NothingAfter(Utf8(Joined(b)));
  }

  lemma Regroup(x: seq<nat>, y: seq<nat>, z: seq<nat>)
    ensures x + (y + z) == x + y + z
  {
  }

  lemma {:induction false} FedConcat(c: Content, x: seq<string>, y: seq<string>)
    ensures Fed(c, x + y) == Fed(c, x) + Fed(c, y)
  {
    if y == [] {
      assert x + y == x;
      NothingAfter(Fed(c, x));
    } else {
      var front, t := y[..|y| - 1], y[|y| - 1];
      assert (x + y)[..|x + y| - 1] == x + front;
      FedConcat(c, x, front);
      FedLast(c, x + y);
      FedLast(c, y);
      Regroup(Fed(c, x), Fed(c, front), Section(t, ListOf(c, t)));
    }
  }

  lemma FedSingle(c: Content, t: string)
    requires t in c
    ensures Fed(c, [t]) == Section(t, c[t])
  {
    assert [t][..0] == [];
    FedLast(c, [t]);
    assert [] + Section(t, c[t]) == Section(t, c[t]);
  }

  lemma KeysCounted(keys: set<string>)
    ensures |SortedKeys(keys)| == |keys|
  {
    SortedKeysListed(keys);
    MemberCount(SortedKeys(keys));
    assert Members(SortedKeys(keys)) == keys;
  }

  /** The input around one section. */
  lemma DigestAround(c: Content, names: seq<string>, i: nat)
    requires i < |names| && names[i] in c
    ensures Fed(c, names) == Fed(c, names[..i]) + (Section(names[i], c[names[i]]) + Fed(c, names[i + 1..]))
  {
    assert names == names[..i] + ([names[i]] + names[i + 1..]);
    FedConcat(c, names[..i], [names[i]] + names[i + 1..]);
    FedConcat(c, [names[i]], names[i + 1..]);
    FedSingle(c, names[i]);
  }

  /** States of the same types whose digest inputs agree up to the i-th type name. */
  predicate SameUpTo(a: Content, b: Content, i: nat) {
    && a.Keys == b.Keys && i <= |SortedKeys(a.Keys)|
    && Fed(a, SortedKeys(a.Keys)[..i]) == Fed(b, SortedKeys(a.Keys)[..i])
  }

  lemma Sizes(before: seq<nat>, u: seq<nat>, v: seq<nat>, w: seq<nat>, x: seq<nat>, y: seq<nat>)
    requires v + x == w + y
    ensures |v| == |w| <==> before + (u + v) == before + (u + w)
  {
    if |v| == |w| { SameHead(v, x, w, y); }
    assert |before + (u + v)| == |before| + |u| + |v| && |before + (u + w)| == |before| + |u| + |w|;
  }

  lemma SectionSizes(t: string, a: seq<Payload>, b: seq<Payload>, before: seq<nat>, x: seq<nat>, y: seq<nat>)
    requires |a| == |b| && Utf8(Joined(a)) + x == Utf8(Joined(b)) + y
    ensures |Utf8(Joined(a))| == |Utf8(Joined(b))| <==> before + Section(t, a) == before + Section(t, b)
  {
    var u, n, v, w := Utf8(t), LittleEndian(|a|, 8), Utf8(Joined(a)), Utf8(Joined(b));
    Sizes(before, u + n, v, w, x, y);
  }

  /**
   States of the same types with one digest have equally many records of each type,
   up to and including the first whose texts, run together, differ in length.
   */
  lemma EqualCounts(a: Content, b: Content, i: nat)
    requires DataHash(a) == DataHash(b) && i < |a| && SameUpTo(a, b, i)
    requires forall t :: t in a && t in b ==> |a[t]| < TWO_64 && |b[t]| < TWO_64
    ensures |SortedKeys(a.Keys)| == |a| && SortedKeys(a.Keys)[i] in a && SortedKeys(a.Keys)[i] in b
    ensures var t := SortedKeys(a.Keys)[i];
      |a[t]| == |b[t]| && (|Utf8(Joined(a[t]))| == |Utf8(Joined(b[t]))| <==> SameUpTo(a, b, i + 1))
  {
    var names := SortedKeys(a.Keys);
    KeysCounted(a.Keys);
    SortedKeysListed(a.Keys);
    var t, x, y := names[i], Fed(a, names[i + 1..]), Fed(b, names[i + 1..]);
    DigestAround(a, names, i);
    DigestAround(b, names, i);
    SameHead(Fed(a, names[..i]), Section(t, a[t]) + x, Fed(b, names[..i]), Section(t, b[t]) + y);
    SectionReads(t, a[t], x, t, b[t], y);
    FedNext(a, names, i);
    FedNext(b, names, i);
    SectionSizes(t, a[t], b[t], Fed(a, names[..i]), x, y);
  }

  /** The digest input of a single type with two records. */
  lemma TwoRecords(t: string, x: Payload, y: Payload)
    ensures DataHash(map[t := [x, y]]) == Utf8(t) + LittleEndian(2, 8) + Utf8(x.text + y.text)
  {
    var c: Content := map[t := [x, y]];
    OneName(t);
    assert c.Keys == {t};
    assert [x, y][..1] == [x] && [x][..0] == [] && [t][..0] == [];
    assert Joined([x]) == x.text;
    assert Joined([x, y]) == x.text + y.text;
    assert Fed(c, [t]) == Fed(c, []) + Section(t, [x, y]);
  }

  function Row(text: string): Payload {
    Payload("T", text, map[], 0)
  }

  lemma SamePair(p: Payload, q: Payload, r: Payload, s: Payload)
    ensures SameText([p, q], [r, s]) <==> p.text == r.text && q.text == s.text
  {
    var a, b := [p, q], [r, s];
    assert a[0] == p && a[1] == q && b[0] == r && b[1] == s;
  }

  lemma SameSingle(t: string, a: seq<Payload>, b: seq<Payload>)
    ensures SameContent(map[t := a], map[t := b]) <==> SameText(a, b)
  {
    var x: Content, y: Content := map[t := a], map[t := b];
    assert x.Keys == {t} == y.Keys && x[t] == a && y[t] == b;
  }

  lemma MovedText(a: string, b: string, c: string)
    ensures (a + b == a && c == b + c) <==> b == ""
  {
    if b == "" { assert a + b == a && b + c == c; } else { assert |a + b| > |a|; }
  }

  lemma SameRun(t: string, p: Payload, q: Payload, r: Payload, s: Payload)
    requires p.text + q.text == r.text + s.text
    ensures DataHash(map[t := [p, q]]) == DataHash(map[t := [r, s]])
  {
    TwoRecords(t, p, q);
    TwoRecords(t, r, s);
  }

  lemma SameRows(t: string, p: Payload, q: Payload, r: Payload, s: Payload)
    ensures SameContent(map[t := [p, q]], map[t := [r, s]]) <==> p.text == r.text && q.text == s.text
  {
    SameSingle(t, [p, q], [r, s]);
    SamePair(p, q, r, s);
  }

  /** Moving text from one record to the next does not show in the digest. */
  lemma DigestCollides(a: string, b: string, c: string)
    ensures DataHash(map["T" := [Row(a + b), Row(c)]]) == DataHash(map["T" := [Row(a), Row(b + c)]])
    ensures SameContent(map["T" := [Row(a + b), Row(c)]], map["T" := [Row(a), Row(b + c)]]) <==> b == ""
  {
    assert a + b + c == a + (b + c);
    SameRun("T", Row(a + b), Row(c), Row(a), Row(b + c));
    SameRows("T", Row(a + b), Row(c), Row(a), Row(b + c));
    MovedText(a, b, c);
  }
}
