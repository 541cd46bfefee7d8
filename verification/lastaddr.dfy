/** `lastAddr`: the last address of a prefix, computed bit by bit in a 16-byte buffer. */
module LastAddr {
  import opened Arith
  import opened Bits
  import opened Cidr

  type byte = x: int | 0 <= x < 256

  /** The number a big-endian byte string stands for. */
  function Value(s: seq<byte>): nat {
    if s == [] then 0 else 256 * Value(s[..|s| - 1]) + s[|s| - 1]
  }

  /** The `n` low bytes of `v`, most significant first. */
  function ToBytes(v: nat, n: nat): (s: seq<byte>)
    ensures |s| == n
  {
    if n == 0 then [] else ToBytes(v / 256, n - 1) + [v % 256]
  }

  lemma {:induction false} ToBytesValue(v: nat, n: nat)
    requires v < Pow2(8 * n)
    ensures Value(ToBytes(v, n)) == v
  {
    if n > 0 {
      Pow2Byte(8 * (n - 1));
      ToBytesValue(v / 256, n - 1);
      assert ToBytes(v, n)[..n - 1] == ToBytes(v / 256, n - 1);
    }
  }

  /** The prefix 0:0:0:0:0:FFFF of an IPv4-mapped address (section 2.5.5.2 of RFC 4291). */
  const MAPPED: seq<byte> := [0, 0, 0, 0, 0, 0, 0, 0, 0, 0, 0xff, 0xff]

  /** `Addr.As16` */
  function As16(a: Addr): (s: seq<byte>)
    ensures |s| == 16
  {
    match a.fam
    case V4 => MAPPED + ToBytes(a.val, 4)
    case V6 => ToBytes(a.val, 16)
  }

  /** `AddrFrom16`: always an IPv6 address. */
  function AddrFrom16(s: seq<byte>): Addr
    requires |s| == 16
  {
    Addr(V6, Value(s))
  }

  predicate Is4In6(a: Addr) {
    a.fam.V6? && a.val / 0x1_0000_0000 == 0xffff
  }

  /** `Addr.Unmap` */
  function Unmap(a: Addr): Addr {
    if Is4In6(a) then Addr(V4, a.val % 0x1_0000_0000) else a
  }

  lemma {:induction false} ZeroValue(s: seq<byte>)
    requires forall i :: 0 <= i < |s| ==> s[i] == 0
    ensures Value(s) == 0
  {
    if s != [] { ZeroValue(s[..|s| - 1]); }
  }

  lemma MappedHead()
    ensures Value(MAPPED) == 0xffff
  {
    var head := MAPPED[..11];
    assert MAPPED[..|MAPPED| - 1] == head;
    assert head[..|head| - 1] == MAPPED[..10];
    ZeroValue(MAPPED[..10]);
    assert Value(head) == 0xff;
  }

  /** 0xffff over a 32-bit IPv4 value. */
  const MAPPED_BASE: nat := 0xffff_0000_0000

  lemma MappedValue(v: nat)
    requires v < 0x1_0000_0000
    ensures Value(As16(Addr(V4, v))) == MAPPED_BASE + v
  {
    hide Value, ToBytes, Pow2;
    Pow2At32();
    ToBytesValue(v, 4);
    MappedHead();
    ValueConcat(MAPPED, ToBytes(v, 4));
  }

  lemma {:induction false} ValueConcat(s: seq<byte>, t: seq<byte>)
    ensures Value(s + t) == Value(s) * Pow2(8 * |t|) + Value(t)
  {
    hide Pow2;
    if t == [] {
      assert s + t == s;
      PowUnfold(0);
    } else {
      var t' := t[..|t| - 1];
      var p, q := Pow2(8 * |t'|), Pow2(8 * |t|);
      assert (s + t)[..|s + t| - 1] == s + t';
      ValueConcat(s, t');
      Pow2Byte(8 * |t'|);
      assert q == 256 * p;
      Regroup(Value(s), p);
    }
  }

  lemma Regroup(x: nat, y: nat)
    ensures 256 * (x * y) == x * (256 * y)
  {
  }

  /** The byte at `j` holds bits 8*(n-1-j) and up of the number. */
  lemma {:induction false} BitOfByte(s: seq<byte>, j: nat, k: nat)
    requires j < |s| && k < 8
    ensures Bit(Value(s), 8 * (|s| - 1 - j) + k) == Bit(s[j], k)
  {
    var n := |s| - 1;
    var rest := s[..n];
    if j == n {
      LowByte(Value(rest), s[n], k);
    } else {
      BitOfByte(rest, j, k);
      HighBits(Value(rest), s[n], 8 * (n - 1 - j) + k);
    }
  }

  lemma LowByte(h: nat, b: byte, k: nat)
    requires k < 8
    ensures Bit(256 * h + b, k) == Bit(b, k)
  {
    if k < 4 {
      LowBits(16 * h + b / 16, b % 16, k);
      LowBits(b / 16, b % 16, k);
    } else {
      SkipBits(16 * h + b / 16, b % 16, k - 4);
      SkipBits(b / 16, b % 16, k - 4);
      LowBits(h, b / 16, k - 4);
    }
  }

  lemma LowBits(h: nat, d: nat, k: nat)
    requires d < 16 && k < 4
    ensures Bit(16 * h + d, k) == Bit(d, k)
  {
    var x1, x2, x3 := 8 * h + d / 2, 4 * h + d / 4, 2 * h + d / 8;
    assert (16 * h + d) / 2 == x1 && x1 / 2 == x2 && x2 / 2 == x3;
    assert d / 2 / 2 == d / 4 && d / 4 / 2 == d / 8;
    assert (16 * h + d) % 2 == d % 2 && x1 % 2 == (d / 2) % 2;
    assert x2 % 2 == (d / 4) % 2 && x3 % 2 == (d / 8) % 2;
    assert Bit(x3, 0) == Bit(d / 8, 0);
    assert Bit(x2, 1) == Bit(d / 4, 1);
    assert Bit(x1, 2) == Bit(d / 2, 2) && Bit(x1, 1) == Bit(d / 2, 1);
  }

  lemma SkipBits(h: nat, d: nat, k: nat)
    requires d < 16
    ensures Bit(16 * h + d, k + 4) == Bit(h, k)
  {
    var y := 4 * h + d / 4;
    assert (16 * h + d) / 2 / 2 == y && y / 2 / 2 == h;
    assert Bit(16 * h + d, k + 4) == Bit(y, k + 2);
  }

  lemma HighBits(h: nat, b: byte, k: nat)
    ensures Bit(256 * h + b, k + 8) == Bit(h, k)
  {
    SkipBits(16 * h + b / 16, b % 16, k + 4);
    SkipBits(h, b / 16, k);
  }

  /** Adding 2^k to the byte at `j` adds 2^(8*(n-1-j)+k) to the number. */
  lemma {:induction false} AddToByte(s: seq<byte>, j: nat, k: nat)
    requires j < |s| && s[j] + Pow2(k) < 256
    ensures Value(s[j := s[j] + Pow2(k)]) == Value(s) + Pow2(8 * (|s| - 1 - j) + k)
  {
    hide Pow2;
    var n := |s| - 1;
    var t := s[j := s[j] + Pow2(k)];
    if j == n {
      assert t[..n] == s[..n];
    } else {
      AddToByte(s[..n], j, k);
      assert t[..n] == s[..n][j := s[j] + Pow2(k)];
      Pow2Byte(8 * (n - 1 - j) + k);
      assert 8 * (n - j) + k == 8 * (n - 1 - j) + k + 8;
    }
  }

  /** `bytes16[i/8] |= 1 << (7 - i%8)` sets the bit of weight 2^(127-i) in the whole number. */
  lemma SetBit(s: seq<byte>, i: nat)
    requires |s| == 16 && i < 128
    ensures Or(s[i / 8], Pow2(7 - i % 8)) < 256
    ensures Value(s[i / 8 := Or(s[i / 8], Pow2(7 - i % 8))])
            == if Bit(Value(s), 127 - i) == 1 then Value(s) else Value(s) + Pow2(127 - i)
  {
    var j, k := i / 8, 7 - i % 8;
    assert 8 * (15 - j) + k == 127 - i;
    BitOfByte(s, j, k);
    OrByte(s, j, k);
  }

  lemma OrByte(s: seq<byte>, j: nat, k: nat)
    requires j < |s| && k < 8
    ensures Or(s[j], Pow2(k)) < 256
    ensures Value(s[j := Or(s[j], Pow2(k))])
            == if Bit(s[j], k) == 1 then Value(s) else Value(s) + Pow2(8 * (|s| - 1 - j) + k)
  {
    OrBit(s[j], k);
    if Bit(s[j], k) != 1 {
      Pow2At32();
      AddBitFits(s[j], k, 8);
      AddToByte(s, j, k);
    } else {
      assert s[j := s[j]] == s;
    }
  }

  /** The number read from the buffer is the last address, in 16-byte form. */
  lemma LastValue(p: Prefix)
    requires ValidPrefix(p)
    ensures Unmaps(p, Addr(V6, Fill(Value(As16(Addr(p.fam, p.base))), 0, HostBits(p))))
    ensures ValidAddr(Addr(p.fam, Top(Masked(p)) - 1))
  {
    hide Value, As16, ClearLow, Aligned, Pow2, Fill;
    FillAll(Value(As16(Addr(p.fam, p.base))), HostBits(p));
    BlockFits(Masked(p));
    if p.fam.V4? {
      LastMapped(p);
    } else {
      PlainValue(p.base);
    }
  }

  lemma PlainValue(v: nat)
    requires v < Pow2(128)
    ensures Value(As16(Addr(V6, v))) == v
  {
    ToBytesValue(v, 16);
  }

  lemma LastMapped(p: Prefix)
    requires ValidPrefix(p) && p.fam.V4?
    ensures var h := HostBits(p);
            Unmap(Addr(V6, ClearLow(Value(As16(Addr(V4, p.base))), h) + Pow2(h) - 1)) == Addr(V4, Top(Masked(p)) - 1)
  {
    hide Value, As16, ClearLow, Aligned, Pow2;
    Pow2At32();
    MappedValue(p.base);
    MappedAligned(HostBits(p));
    ClearLowSum(MAPPED_BASE, p.base, HostBits(p));
    BlockFits(Masked(p));
    UnmapMapped(Top(Masked(p)) - 1);
  }

  lemma MappedAligned(k: nat)
    requires k <= 32
    ensures Aligned(MAPPED_BASE, k)
  {
    Pow2At32();
    Pow2Byte(32);
    Pow2Byte(40);
    AlignedPow2(32, k);
    AlignedPow2(48, k);
    AlignedSum(Pow2(32), Pow2(48), k);
  }

  lemma UnmapMapped(v: nat)
    requires v < 0x1_0000_0000
    ensures Unmap(Addr(V6, MAPPED_BASE + v)) == Addr(V4, v)
  {
  }

  predicate Unmaps(p: Prefix, a: Addr)
    requires ValidPrefix(p)
  {
    (if p.fam.V4? then Unmap(a) else a) == Addr(p.fam, Top(Masked(p)) - 1)
  }

  /** One round of the byte loop extends the filled bits by one. */
  lemma LoopStep(s: seq<byte>, i: nat, v: nat, h: nat)
    requires |s| == 16 && i < 128 && 128 - i <= h && Value(s) == Fill(v, 128 - i, h)
    ensures Or(s[i / 8], Pow2(7 - i % 8)) < 256
    ensures Value(s[i / 8 := Or(s[i / 8], Pow2(7 - i % 8))]) == Fill(v, 127 - i, h)
  {
    SetBit(s, i);
    FillStep(v, 127 - i, h);
  }

  /** The byte loop computes base + 2^(W - bits) - 1 for a masked prefix (main.go:879-894). */
  method LastAddr(p: Prefix) returns (last: Addr)
    requires ValidPrefix(p)
    ensures last.fam == p.fam && last.val == Top(Masked(p)) - 1 && ValidAddr(last)
    ensures IsBlock(p) ==> last.val == Top(p) - 1
  {
    hide Value, As16, Fill, Bit, Or, Pow2, ClearLow, Aligned;
    var start := Addr(p.fam, p.base);
    ghost var v, h := Value(As16(start)), HostBits(p);
    var init := As16(start);
    var bytes16 := new byte[16](i requires 0 <= i < 16 => init[i]);
    assert bytes16[..] == init;
    var bits := p.bits;
    if p.fam.V4? {
      bits := bits + 96;
    }
    FillNone(v, h);
    for i := bits to 128
      invariant Value(bytes16[..]) == Fill(v, 128 - i, h)
    {
      ghost var was := bytes16[..];
      LoopStep(was, i, v, h);
      bytes16[i / 8] := Or(bytes16[i / 8], Pow2(7 - i % 8));
      assert bytes16[..] == was[i / 8 := Or(was[i / 8], Pow2(7 - i % 8))];
    }
    LastValue(p);
    MaskedBlock(p);
    last := AddrFrom16(bytes16[..]);
    if p.fam.V4? {
      last := Unmap(last);
    }
  }
}
