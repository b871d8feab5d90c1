/** The one's complement checksum csum (wsm/aodv.c:131-139), as in sections 1 and 2 of RFC 1071. */
module Checksum {
  import opened Prelude

  type Word = w: int | 0 <= w < 0x1_0000

  const WORD_MAX: nat := 0xFFFF
  const ULONG: nat := 0x1_0000_0000

  function Sum(buf: seq<Word>): nat {
    if buf == [] then 0 else buf[0] + Sum(buf[1..])
  }

  /**
   * One's complement sum of 16-bit words: the residue modulo 65535, with 65535 in place of 0 unless all words are 0.
   */
  function OnesSum(s: nat): (r: nat)
    ensures r <= WORD_MAX && (r == 0 <==> s == 0) && r % WORD_MAX == s % WORD_MAX
  {
    if s == 0 then 0 else (s - 1) % WORD_MAX + 1
  }

  /** Two folds of a 32-bit sum, cut to 16 bits. */
  function Folded(s: nat): nat {
    var s1 := s / 0x1_0000 + s % 0x1_0000;
    (s1 + s1 / 0x1_0000) % 0x1_0000
  }

  /** Two folds are enough for any 32-bit sum. */
  lemma FoldsSuffice(s: nat)
    requires s < ULONG
    ensures Folded(s) == OnesSum(s)
  {
    var h, l := s / 0x1_0000, s % 0x1_0000;
    var s1 := h + l;
    assert s == h * WORD_MAX + s1;
    var f := if s1 <= WORD_MAX then s1 else s1 - WORD_MAX;
    assert Folded(s) == f;
    if s > 0 {
      var k := if s1 <= WORD_MAX then h else h + 1;
      assert s - 1 == k * WORD_MAX + (f - 1);
      assert 0 <= f - 1 < WORD_MAX;
      Residue(s - 1, k, f - 1);
    }
  }

  lemma Residue(a: nat, k: nat, r: nat)
    requires a == k * WORD_MAX + r && r < WORD_MAX
    ensures a % WORD_MAX == r
  {
  }

  lemma {:induction false} SumBound(buf: seq<Word>)
    ensures Sum(buf) <= |buf| * WORD_MAX
  {
    if buf != [] { SumBound(buf[1..]); }
  }

  lemma {:induction false} SumAppend(buf: seq<Word>, w: Word)
    ensures Sum(buf + [w]) == Sum(buf) + w
  {
    if buf == [] {
      assert [w][1..] == [];
    } else {
      assert (buf + [w])[1..] == buf[1..] + [w];
      SumAppend(buf[1..], w);
    }
  }

  lemma {:induction false} SumRemove(buf: seq<Word>, k: nat)
    requires k < |buf|
    ensures Sum(buf) == buf[k] + Sum(buf[..k] + buf[k + 1..])
  {
    if k > 0 {
      SumRemove(buf[1..], k - 1);
      assert (buf[..k] + buf[k + 1..])[1..] == buf[1..][..k - 1] + buf[1..][k..];
    } else {
      assert buf[..0] + buf[1..] == buf[1..];
    }
  }

  lemma OneOut(s: seq<Word>, k: nat)
    requires k < |s|
    ensures multiset(s[..k] + s[k + 1..]) == multiset(s) - multiset{s[k]}
  {
    assert s == s[..k] + [s[k]] + s[k + 1..];
  }

  lemma {:induction false} SumPermutation(a: seq<Word>, b: seq<Word>)
    requires multiset(a) == multiset(b)
    ensures Sum(a) == Sum(b)
  {
    if a == [] {
      assert multiset(b) == multiset{};
    } else {
      var k := Partner(a, b);
      SumPermutation(a[1..], b[..k] + b[k + 1..]);
      SumRemove(b, k);
    }
  }

  /** Where b has the first word of a. */
  lemma Partner(a: seq<Word>, b: seq<Word>) returns (k: nat)
    requires multiset(a) == multiset(b) && a != []
    ensures k < |b| && b[k] == a[0] && multiset(a[1..]) == multiset(b[..k] + b[k + 1..])
  {
    k := Position(b, a[0]);
    OneOut(a, 0);
    OneOut(b, k);
    assert a[..0] + a[1..] == a[1..];
  }

  lemma Position(s: seq<Word>, w: Word) returns (k: nat)
    requires w in multiset(s)
    ensures k < |s| && s[k] == w
  {
    k :| 0 <= k < |s| && s[k] == w;
  }

  /** What csum returns for up to 65537 words. */
  function Checksum(buf: seq<Word>): Word { WORD_MAX - OnesSum(Sum(buf)) }

  /** The accumulator is a 32-bit word; for up to 65537 words it cannot overflow. */
  method Csum(buf: seq<Word>) returns (r: Word)
    requires |buf| <= 65537
    ensures r == Checksum(buf)
  {
    var sum := 0;
    var i := 0;
    while i < |buf|
      invariant 0 <= i <= |buf| && sum == Sum(buf[..i])
    {
      SumAppend(buf[..i], buf[i]);
      SumBound(buf[..i + 1]);
      assert buf[..i + 1] == buf[..i] + [buf[i]];
      sum := (sum + buf[i]) % ULONG;
      i := i + 1;
    }
    assert buf[..i] == buf;
    SumBound(buf);
    FoldsSuffice(sum);
    sum := sum / 0x1_0000 + sum % 0x1_0000;
    sum := sum + sum / 0x1_0000;
    r := WORD_MAX - sum % 0x1_0000;
  }

  /** The order of the words does not matter. */
  lemma ChecksumPermutation(a: seq<Word>, b: seq<Word>)
    requires multiset(a) == multiset(b)
    ensures Checksum(a) == Checksum(b)
  {
    SumPermutation(a, b);
  }

  /** A buffer with its checksum appended has checksum 0. */
  lemma ChecksumVerifies(buf: seq<Word>)
    ensures Checksum(buf + [Checksum(buf)]) == 0
  {
    var s := Sum(buf);
    SumAppend(buf, Checksum(buf));
    if s > 0 {
      var q := (s - 1) / WORD_MAX;
      var f := (s - 1) % WORD_MAX;
      assert s + Checksum(buf) - 1 == q * WORD_MAX + WORD_MAX - 1;
      Residue(s + Checksum(buf) - 1, q, WORD_MAX - 1);
    }
  }
}
