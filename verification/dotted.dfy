/** Decimal numbers, dotted IPv4 addresses and IPv4 prefixes as text, and reading them back. */
module Dotted {
  import opened Arith
  import opened Cidr

  datatype Octets = Octets(a: nat, b: nat, c: nat, d: nat)

  /** The four octets read as one 32-bit word. */
  function Word(o: Octets): nat {
    o.a * 0x100_0000 + o.b * 0x1_0000 + o.c * 0x100 + o.d
  }

  function OctetsOf(m: nat): Octets {
    Octets(m / 0x100_0000 % 0x100, m / 0x1_0000 % 0x100, m / 0x100 % 0x100, m % 0x100)
  }

  predicate IsOctets(o: Octets) {
    o.a < 0x100 && o.b < 0x100 && o.c < 0x100 && o.d < 0x100
  }

  lemma OctetsAreWord(m: nat)
    requires m < 0x1_0000_0000
    ensures IsOctets(OctetsOf(m)) && Word(OctetsOf(m)) == m
  {
    assert m / 0x1_0000 == m / 0x100 / 0x100 && m / 0x100_0000 == m / 0x100 / 0x100 / 0x100;
  }

  lemma WordIsOctets(o: Octets)
    requires IsOctets(o)
    ensures Word(o) < 0x1_0000_0000 && OctetsOf(Word(o)) == o
  {
    var w := Word(o);
    var w1 := o.a * 0x1_0000 + o.b * 0x100 + o.c;
    var w2 := o.a * 0x100 + o.b;
    LastByte(w, w1, o.d);
    LastByte(w1, w2, o.c);
    LastByte(w2, o.a, o.b);
    assert w / 0x1_0000 == w / 0x100 / 0x100 && w / 0x100_0000 == w / 0x100 / 0x100 / 0x100;
  }

  lemma LastByte(w: nat, q: nat, r: nat)
    requires w == 0x100 * q + r && r < 0x100
    ensures w / 0x100 == q && w % 0x100 == r
  {
  }

  // ---- decimal numbers ----

  predicate IsDigit(c: char) {
    '0' <= c <= '9'
  }

  function Digit(d: nat): char
    requires d < 10
  {
    '0' + d as char
  }

  function Dec(n: nat): string {
    if n < 10 then [Digit(n)] else Dec(n / 10) + [Digit(n % 10)]
  }

  /** Digits without a leading zero. */
  predicate IsNumeral(s: string) {
    s != "" && (forall i :: 0 <= i < |s| ==> IsDigit(s[i])) && (|s| > 1 ==> s[0] != '0')
  }

  function Value(s: string): nat
    requires forall i :: 0 <= i < |s| ==> IsDigit(s[i])
  {
    if s == "" then 0
    else
      var d := s[|s| - 1];
      assert IsDigit(d);
      10 * Value(s[..|s| - 1]) + (d as int - '0' as int)
  }

  lemma {:induction false} DecReads(n: nat)
    ensures IsNumeral(Dec(n)) && Value(Dec(n)) == n && (n > 0 ==> Dec(n)[0] != '0')
  {
    if n >= 10 {
      DecReads(n / 10);
      var s := Dec(n);
      assert s[..|s| - 1] == Dec(n / 10);
    } else {
      assert Dec(n)[..0] == "";
    }
  }

  lemma TenTimes(q: nat, d: nat)
    requires d < 10
    ensures (10 * q + d) / 10 == q && (10 * q + d) % 10 == d
  {
  }

  lemma {:induction false} NumeralIsDec(s: string)
    requires IsNumeral(s)
    ensures Dec(Value(s)) == s && (s[0] != '0' ==> Value(s) > 0)
  {
    if |s| == 1 {
      assert Value(s[..0]) == 0;
    } else {
      var t, c := s[..|s| - 1], s[|s| - 1];
      assert t[0] == s[0] && IsDigit(c);
      NumeralIsDec(t);
      var d := c as int - '0' as int;
      TenTimes(Value(t), d);
      assert Dec(Value(s)) == t + [Digit(d)];
    }
  }

  // ---- cutting at a character ----

  datatype Halves = Halves(left: string, right: string)

  /** At the first `c`, if there is one. */
  function CutAt(s: string, c: char): (r: Option<Halves>)
    ensures r.Some? ==> s == r.value.left + [c] + r.value.right && c !in r.value.left
    ensures r.None? ==> c !in s
  {
    if s == "" then None
    else if s[0] == c then Some(Halves("", s[1..]))
    else
      match CutAt(s[1..], c)
      case None => None
      case Some(h) => Some(Halves([s[0]] + h.left, h.right))
  }

  lemma {:induction false} CutJoined(left: string, c: char, right: string)
    requires c !in left
    ensures CutAt(left + [c] + right, c) == Some(Halves(left, right))
  {
    var s := left + [c] + right;
    if left == "" {
      assert s[1..] == right;
    } else {
      assert s[1..] == left[1..] + [c] + right;
      CutJoined(left[1..], c, right);
      assert [left[0]] + left[1..] == left;
    }
  }

  // ---- prefixes ----

  /** `Prefix.String` for IPv4. */
  function Print(p: Prefix): string {
    var o := OctetsOf(p.base);
    Dec(o.a) + ['.'] + (Dec(o.b) + ['.'] + (Dec(o.c) + ['.'] + (Dec(o.d) + ['/'] + Dec(p.bits))))
  }

  function ReadNumber(s: string, limit: nat): Option<nat> {
    if IsNumeral(s) && Value(s) <= limit then Some(Value(s)) else None
  }

  /** `netip.ParsePrefix` on IPv4 text: four octets and a length, none with a leading zero. */
  function Parse(s: string): Option<Prefix> {
    var h1 := CutAt(s, '.');
    if h1.None? then None
    else
      var h2 := CutAt(h1.value.right, '.');
      if h2.None? then None
      else
        var h3 := CutAt(h2.value.right, '.');
        if h3.None? then None
        else
          var h4 := CutAt(h3.value.right, '/');
          if h4.None? then None
          else
            Assemble(ReadNumber(h1.value.left, 255), ReadNumber(h2.value.left, 255), ReadNumber(h3.value.left, 255),
                     ReadNumber(h4.value.left, 255), ReadNumber(h4.value.right, 32))
  }

  function Assemble(a: Option<nat>, b: Option<nat>, c: Option<nat>, d: Option<nat>, bits: Option<nat>): Option<Prefix> {
    if a.Some? && b.Some? && c.Some? && d.Some? && bits.Some?
    then Some(Prefix(V4, Word(Octets(a.value, b.value, c.value, d.value)), bits.value)) else None
  }

  predicate IsV4(p: Prefix) {
    p.fam.V4? && ValidPrefix(p)
  }

  lemma DecPlain(n: nat, c: char)
    requires !IsDigit(c)
    ensures c !in Dec(n)
  {
    DecReads(n);
  }

  lemma ReadsDec(n: nat, limit: nat)
    requires n <= limit
    ensures ReadNumber(Dec(n), limit) == Some(n)
  {
    DecReads(n);
  }

  /** Printing and parsing: a text parses to a prefix exactly when it is that prefix printed. */
  lemma PrintParse(p: Prefix)
    requires IsV4(p)
    ensures Parse(Print(p)) == Some(p)
  {
    hide Dec, CutAt, ReadNumber, IsNumeral, Value, Pow2, OctetsOf, Word;
    Pow2At32();
    var o := OctetsOf(p.base);
    OctetsAreWord(p.base);
    DecPlain(o.a, '.');
    DecPlain(o.b, '.');
    DecPlain(o.c, '.');
    DecPlain(o.d, '/');
    var t4 := Dec(o.d) + ['/'] + Dec(p.bits);
    var t3 := Dec(o.c) + ['.'] + t4;
    var t2 := Dec(o.b) + ['.'] + t3;
    CutJoined(Dec(o.a), '.', t2);
    CutJoined(Dec(o.b), '.', t3);
    CutJoined(Dec(o.c), '.', t4);
    CutJoined(Dec(o.d), '/', Dec(p.bits));
    ReadsDec(o.a, 255);
    ReadsDec(o.b, 255);
    ReadsDec(o.c, 255);
    ReadsDec(o.d, 255);
    ReadsDec(p.bits, 32);
  }

  lemma ReadIsDec(s: string, limit: nat)
    ensures ReadNumber(s, limit).Some? ==> ReadNumber(s, limit).value <= limit && Dec(ReadNumber(s, limit).value) == s
  {
    if ReadNumber(s, limit).Some? { NumeralIsDec(s); }
  }

  lemma ParsePrint(s: string)
    requires Parse(s).Some?
    ensures IsV4(Parse(s).value) && Print(Parse(s).value) == s
  {
    hide Dec, CutAt, ReadNumber, IsNumeral, Value, Pow2, OctetsOf, Word;
    Pow2At32();
    var h1 := CutAt(s, '.').value;
    var h2 := CutAt(h1.right, '.').value;
    var h3 := CutAt(h2.right, '.').value;
    var h4 := CutAt(h3.right, '/').value;
    ReadIsDec(h1.left, 255);
    ReadIsDec(h2.left, 255);
    ReadIsDec(h3.left, 255);
    ReadIsDec(h4.left, 255);
    ReadIsDec(h4.right, 32);
    WordIsOctets(Octets(ReadNumber(h1.left, 255).value, ReadNumber(h2.left, 255).value,
                        ReadNumber(h3.left, 255).value, ReadNumber(h4.left, 255).value));
  }
}
