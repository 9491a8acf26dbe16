/**
 * CRC-32 as `src/webrtc/frameCodec.ts` computes it: a 256-entry table and one
 * look-up per byte, against the bit-serial definition (section 8 of RFC 1952),
 * and what the checksum detects. Unsigned 32-bit words are naturals; `>>>` is
 * division by a power of two, `&` with a mask of ones is the remainder, and
 * exclusive or is `Xor`.
 */
module Crc32 {

  type Byte = x: int | 0 <= x < 256

  const POLYNOMIAL: nat := 0xedb88320
  const ONES: nat := 0xffffffff

  // ----- Exclusive or on naturals -----

  function Xor(a: nat, b: nat): nat
    decreases a + b
  {
    if a == 0 then b
    else if b == 0 then a
    else 2 * Xor(a / 2, b / 2) + (if a % 2 == b % 2 then 0 else 1)
  }

  function Pow2(n: nat): nat {
    if n == 0 then 1 else 2 * Pow2(n - 1)
  }

  /** `y` moved up by `n` bits. */
  function Up(y: nat, n: nat): nat
    decreases n
  {
    if n == 0 then y else 2 * Up(y, n - 1)
  }

  /** `y` moved down by `n` bits. */
  function Down(y: nat, n: nat): nat
    decreases n
  {
    if n == 0 then y else Down(y / 2, n - 1)
  }

  lemma Powers()
    ensures Pow2(32) == 2 * Pow2(31) == 0x1_0000_0000
  {
    assert Pow2(8) == 0x100;
    assert Pow2(16) == 0x1_0000;
    assert Pow2(24) == 0x100_0000;
  }

  lemma XorBits(a: nat, b: nat)
    ensures Xor(a, b) / 2 == Xor(a / 2, b / 2)
    ensures Xor(a, b) % 2 == if a % 2 == b % 2 then 0 else 1
  {
  }

  lemma SameBits(x: nat, y: nat)
    requires x / 2 == y / 2 && x % 2 == y % 2
    ensures x == y
  {
  }

  lemma {:induction false} XorAssociates(a: nat, b: nat, c: nat)
    ensures Xor(Xor(a, b), c) == Xor(a, Xor(b, c))
    decreases a + b + c
  {
    if a != 0 && b != 0 && c != 0 {
      XorAssociates(a / 2, b / 2, c / 2);
      XorBits(a, b);
      XorBits(b, c);
      XorBits(Xor(a, b), c);
      XorBits(a, Xor(b, c));
      SameBits(Xor(Xor(a, b), c), Xor(a, Xor(b, c)));
    }
  }

  lemma {:induction false} XorSelf(a: nat)
    ensures Xor(a, a) == 0
  {
    if a != 0 { XorSelf(a / 2); }
  }

  lemma XorCancels(a: nat, b: nat, c: nat)
    requires Xor(a, b) == Xor(a, c)
    ensures b == c
  {
    XorAssociates(a, a, b);
    XorAssociates(a, a, c);
    XorSelf(a);
  }

  lemma {:induction false} XorCommutes(a: nat, b: nat)
    ensures Xor(a, b) == Xor(b, a)
    decreases a + b
  {
    if a != 0 && b != 0 { XorCommutes(a / 2, b / 2); }
  }

  lemma {:induction false} XorBound(a: nat, b: nat, n: nat)
    requires a < Pow2(n) && b < Pow2(n)
    ensures Xor(a, b) < Pow2(n)
    decreases n
  {
    if n != 0 { XorBound(a / 2, b / 2, n - 1); }
  }

  /** Low and high parts do not meet: exclusive or is addition. */
  lemma {:induction false} XorJoins(low: nat, high: nat, n: nat)
    requires low < Pow2(n)
    ensures Xor(low, Up(high, n)) == low + Up(high, n)
    decreases n
  {
    if n != 0 {
      XorJoins(low / 2, high, n - 1);
      XorBits(low, Up(high, n));
      SameBits(Xor(low, Up(high, n)), low + Up(high, n));
    }
  }

  lemma {:induction false} UpInner(y: nat, n: nat)
    ensures Up(y, n + 1) == Up(2 * y, n)
  {
    if n != 0 { UpInner(y, n - 1); }
  }

  lemma {:induction false} XorDown(a: nat, b: nat, n: nat)
    ensures Down(Xor(a, b), n) == Xor(Down(a, n), Down(b, n))
    decreases n
  {
    if n != 0 {
      XorBits(a, b);
      XorDown(a / 2, b / 2, n - 1);
    }
  }

  lemma EightBits(y: nat)
    ensures Up(y, 8) == 256 * y && Pow2(8) == 256
    ensures Down(y, 8) == y / 256
  {
  }

  // ----- The bit-serial definition -----

  /** One bit of the reflected polynomial division. */
  function BitStep(c: nat): nat {
    if c % 2 == 1 then Xor(POLYNOMIAL, c / 2) else c / 2
  }

  function Steps(c: nat, n: nat): nat {
    if n == 0 then c else BitStep(Steps(c, n - 1))
  }

  /** The register after `bytes`, eight bit steps per byte. */
  function Feed(c: nat, bytes: seq<Byte>): nat {
    if bytes == [] then c
    else Steps(Xor(Feed(c, bytes[..|bytes| - 1]), bytes[|bytes| - 1]), 8)
  }

  function Checksum(bytes: seq<Byte>): nat {
    Xor(Feed(ONES, bytes), ONES)
  }

  // ----- The table step is eight bit steps -----

  lemma BitStepUp(x: nat, y: nat)
    ensures BitStep(Xor(x, 2 * y)) == Xor(BitStep(x), y)
  {
    var c := Xor(x, 2 * y);
    assert c / 2 == Xor(x / 2, y) && c % 2 == x % 2 by {
      XorBits(x, 2 * y);
      assert 2 * y / 2 == y && 2 * y % 2 == 0;
    }
    if x % 2 == 1 {
      XorAssociates(POLYNOMIAL, x / 2, y);
    }
  }

  /** What lies above the lowest `n` bits passes through `n` steps unchanged. */
  lemma {:induction false} StepsUp(x: nat, y: nat, n: nat)
    ensures Steps(Xor(x, Up(y, n)), n) == Xor(Steps(x, n), y)
    decreases n
  {
    if n != 0 {
      UpInner(y, n - 1);
      StepsUp(x, 2 * y, n - 1);
      BitStepUp(Steps(x, n - 1), y);
    }
  }

  lemma SplitsAtByte(x: nat)
    ensures Xor(x % 256, Up(x / 256, 8)) == x
  {
    EightBits(x / 256);
    XorJoins(x % 256, x / 256, 8);
  }

  /** Looking up the low byte and folding in the rest is eight bit steps. */
  lemma TableStep(c: nat, b: Byte)
    ensures Steps(Xor(c, b), 8) == Xor(Steps(Xor(c, b) % 256, 8), c / 256)
  {
    var x := Xor(c, b);
    SplitsAtByte(x);
    XorDown(c, b, 8);
    EightBits(c);
    EightBits(b);
    EightBits(x);
    StepsUp(x % 256, x / 256, 8);
  }

  // ----- What the checksum detects -----

  lemma {:induction false} DownBelow(y: nat, n: nat)
    ensures Down(y, n) == 0 <==> y < Pow2(n)
    decreases n
  {
    if n != 0 { DownBelow(y / 2, n - 1); }
  }

  /** The polynomial has its top bit set, so an odd register is recognised by the bit it leaves at the top. */
  lemma BitStepTop(c: nat)
    requires c < Pow2(32)
    ensures BitStep(c) < Pow2(32)
    ensures c % 2 == 1 <==> BitStep(c) >= Pow2(31)
  {
    Powers();
    if c % 2 == 1 {
      XorBound(POLYNOMIAL, c / 2, 32);
      XorDown(POLYNOMIAL, c / 2, 31);
      DownBelow(c / 2, 31);
      DownBelow(POLYNOMIAL, 31);
      DownBelow(BitStep(c), 31);
    }
  }

  lemma BitStepInjective(c: nat, d: nat)
    requires c < Pow2(32) && d < Pow2(32) && BitStep(c) == BitStep(d)
    ensures c == d
  {
    BitStepTop(c);
    BitStepTop(d);
    if c % 2 == 1 { XorCancels(POLYNOMIAL, c / 2, d / 2); }
    SameBits(c, d);
  }

  lemma {:induction false} StepsInjective(c: nat, d: nat, n: nat)
    requires c < Pow2(32) && d < Pow2(32)
    ensures Steps(c, n) < Pow2(32) && Steps(d, n) < Pow2(32)
    ensures Steps(c, n) == Steps(d, n) ==> c == d
    decreases n
  {
    if n != 0 {
      StepsInjective(c, d, n - 1);
      BitStepTop(Steps(c, n - 1));
      BitStepTop(Steps(d, n - 1));
      if Steps(c, n) == Steps(d, n) { BitStepInjective(Steps(c, n - 1), Steps(d, n - 1)); }
    }
  }

  lemma ByteBelow(b: Byte)
    ensures b < Pow2(32)
  {
    Powers();
  }

  /** For fixed bytes the register map is injective and keeps 32 bits. */
  lemma {:induction false} FeedInjective(c: nat, d: nat, bytes: seq<Byte>)
    requires c < Pow2(32) && d < Pow2(32)
    ensures Feed(c, bytes) < Pow2(32) && Feed(d, bytes) < Pow2(32)
    ensures Feed(c, bytes) == Feed(d, bytes) ==> c == d
    decreases |bytes|
  {
    if bytes != [] {
      var front, b := bytes[..|bytes| - 1], bytes[|bytes| - 1];
      FeedInjective(c, d, front);
      ByteBelow(b);
      XorBound(Feed(c, front), b, 32);
      XorBound(Feed(d, front), b, 32);
      StepsInjective(Xor(Feed(c, front), b), Xor(Feed(d, front), b), 8);
      if Feed(c, bytes) == Feed(d, bytes) {
        XorCommutes(Feed(c, front), b);
        XorCommutes(Feed(d, front), b);
        XorCancels(b, Feed(c, front), Feed(d, front));
      }
    }
  }

  lemma {:induction false} FeedConcat(c: nat, a: seq<Byte>, b: seq<Byte>)
    ensures Feed(c, a + b) == Feed(Feed(c, a), b)
    decreases |b|
  {
    if b == [] {
      assert a + b == a;
    } else {
      var n := |b| - 1;
      FeedConcat(c, a, b[..n]);
      assert (a + b)[..|a + b| - 1] == a + b[..n];
    }
  }

  /** Bytes as one little-endian word. */
  function Word(bytes: seq<Byte>): nat {
    if bytes == [] then 0 else bytes[0] + 256 * Word(bytes[1..])
  }

  lemma {:induction false} StepsCompose(c: nat, m: nat, n: nat)
    ensures Steps(Steps(c, m), n) == Steps(c, m + n)
    decreases n
  {
    if n != 0 { StepsCompose(c, m, n - 1); }
  }

  lemma FirstThenRest(c: nat, b: Byte, rest: seq<Byte>)
    ensures Feed(c, [b] + rest) == Feed(Steps(Xor(c, b), 8), rest)
  {
    FeedConcat(c, [b], rest);
    assert [b][..0] == [];
  }

  lemma FirstByte(c: nat, b: Byte, rest: nat, n: nat)
    ensures Steps(Xor(Steps(Xor(c, b), 8), rest), n) == Steps(Xor(c, b + 256 * rest), 8 + n)
  {
    StepsUp(Xor(c, b), rest, 8);
    EightBits(rest);
    XorJoins(b, rest, 8);
    XorAssociates(c, b, Up(rest, 8));
    StepsCompose(Xor(c, b + 256 * rest), 8, n);
  }

  /** Feeding bytes is folding their word in at once and then taking all the bit steps. */
  lemma {:induction false} FeedIsOneWord(c: nat, bytes: seq<Byte>)
    ensures Feed(c, bytes) == Steps(Xor(c, Word(bytes)), 8 * |bytes|)
    decreases |bytes|
  {
    if bytes == [] {
      XorCommutes(c, 0);
    } else {
      var b, rest := bytes[0], bytes[1..];
      FirstThenRest(c, b, rest);
      assert bytes == [b] + rest;
      FeedIsOneWord(Steps(Xor(c, b), 8), rest);
      FirstByte(c, b, Word(rest), 8 * |rest|);
    }
  }

  lemma {:induction false} WordInjective(a: seq<Byte>, b: seq<Byte>)
    requires |a| == |b| && Word(a) == Word(b)
    ensures a == b
    decreases |a|
  {
    if a != [] {
      WordInjective(a[1..], b[1..]);
      assert a == [a[0]] + a[1..] && b == [b[0]] + b[1..];
    }
  }

  lemma WordBelow(bytes: seq<Byte>)
    requires |bytes| <= 4
    ensures Word(bytes) < Pow2(32)
  {
    Powers();
    if |bytes| > 0 { assert Word(bytes) == bytes[0] + 256 * Word(bytes[1..]); }
    if |bytes| > 1 { assert Word(bytes[1..]) == bytes[1] + 256 * Word(bytes[2..]); }
    if |bytes| > 2 { assert Word(bytes[2..]) == bytes[2] + 256 * Word(bytes[3..]); }
    if |bytes| > 3 { assert Word(bytes[3..]) == bytes[3] + 256 * Word(bytes[4..]); }
  }

  /** From one register, two different words of up to four bytes lead to different registers. */
  lemma WindowDiffers(c: nat, a: seq<Byte>, b: seq<Byte>)
    requires c < Pow2(32) && |a| == |b| <= 4 && a != b
    ensures Feed(c, a) != Feed(c, b)
  {
    FeedIsOneWord(c, a);
    FeedIsOneWord(c, b);
    WordBelow(a);
    WordBelow(b);
    XorBound(c, Word(a), 32);
    XorBound(c, Word(b), 32);
    StepsInjective(Xor(c, Word(a)), Xor(c, Word(b)), 8 * |a|);
    if Feed(c, a) == Feed(c, b) {
      XorCancels(c, Word(a), Word(b));
      WordInjective(a, b);
    }
  }

  /** Two bodies of equal length that differ, and only inside four consecutive bytes, have different checksums. */
  lemma ChecksumDetects(a: seq<Byte>, b: seq<Byte>, from: nat, to: nat)
    requires |a| == |b| && from <= to <= |a| && to - from <= 4
    requires a[..from] == b[..from] && a[to..] == b[to..] && a != b
    ensures Checksum(a) != Checksum(b)
  {
    var front, tail := a[..from], a[to..];
    assert a == front + (a[from..to] + tail) && b == front + (b[from..to] + tail);
    Powers();
    var c := Feed(ONES, front);
    FeedInjective(ONES, ONES, front);
    WindowDiffers(c, a[from..to], b[from..to]);
    FeedThrice(ONES, front, a[from..to], tail);
    FeedThrice(ONES, front, b[from..to], tail);
    FeedInjective(c, c, a[from..to]);
    FeedInjective(c, c, b[from..to]);
    FeedInjective(Feed(c, a[from..to]), Feed(c, b[from..to]), tail);
    if Checksum(a) == Checksum(b) {
      XorCommutes(Feed(ONES, a), ONES);
      XorCommutes(Feed(ONES, b), ONES);
      XorCancels(ONES, Feed(ONES, a), Feed(ONES, b));
    }
  }

  lemma FeedThrice(c: nat, a: seq<Byte>, b: seq<Byte>, d: seq<Byte>)
    ensures Feed(c, a + (b + d)) == Feed(Feed(Feed(c, a), b), d)
  {
    FeedConcat(c, a, b + d);
    FeedConcat(Feed(c, a), b, d);
  }

  // ----- The running checksum -----

  class Crc {
    var crc: nat
    const table: array<nat>

    ghost predicate Valid()
      reads this, table
    {
      table.Length == 256 && forall i :: 0 <= i < 256 ==> table[i] == Steps(i, 8)
    }

    constructor ()
      ensures Valid() && fresh(table) && crc == ONES
    {
      crc := ONES;
      var t := new nat[256];
      for i := 0 to 256
        invariant forall k :: 0 <= k < i ==> t[k] == Steps(k, 8)
      {
        var c: nat := i;
        for k := 0 to 8
          invariant c == Steps(i, k)
        {
          c := if c % 2 == 1 then Xor(POLYNOMIAL, c / 2) else c / 2;
        }
        t[i] := c;
      }
      table := t;
    }

    /** The loop of `add`: one look-up per byte computes the bit-serial register. */
    method Add(bytes: seq<Byte>)
      requires Valid()
      modifies this`crc
      ensures Valid() && crc == Feed(old(crc), bytes)
    {
      for i := 0 to |bytes|
        invariant crc == Feed(old(crc), bytes[..i])
      {
        TableStep(crc, bytes[i]);
        assert bytes[..i + 1][..i] == bytes[..i];
        crc := Xor(table[Xor(crc, bytes[i]) % 256], crc / 256);
      }
      assert bytes[..|bytes|] == bytes;
    }

    method Value() returns (value: nat)
      ensures value == Xor(crc, ONES)
    {
      value := Xor(crc, ONES);
    }
  }
}
