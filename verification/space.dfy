/** `strings.TrimSpace` on UTF-8 text, which is a sequence of bytes here. */
module Space {

  /**
    One white-space character of Unicode: ASCII, U+0085, U+00A0, U+1680, U+2000 to U+200A, U+2028,
    U+2029, U+202F, U+205F, U+3000.
    */
  predicate IsWhite(t: string) {
    || (|t| == 1 && (t[0] == ' ' || 0x09 <= t[0] as int <= 0x0d))
    || (|t| == 2 && t[0] as int == 0xc2 && (t[1] as int == 0x85 || t[1] as int == 0xa0))
    || (|t| == 3 && t[0] as int == 0xe1 && t[1] as int == 0x9a && t[2] as int == 0x80)
    || (|t| == 3 && t[0] as int == 0xe2 && t[1] as int == 0x80 &&
          (0x80 <= t[2] as int <= 0x8a || t[2] as int == 0xa8 || t[2] as int == 0xa9 || t[2] as int == 0xaf))
    || (|t| == 3 && t[0] as int == 0xe2 && t[1] as int == 0x81 && t[2] as int == 0x9f)
    || (|t| == 3 && t[0] as int == 0xe3 && t[1] as int == 0x80 && t[2] as int == 0x80)
  }

  /** The White_Space code points of Unicode. */
  predicate WhitePoint(u: nat) {
    || 0x09 <= u <= 0x0d || u == 0x20 || u == 0x85 || u == 0xa0 || u == 0x1680 || 0x2000 <= u <= 0x200a
    || u == 0x2028 || u == 0x2029 || u == 0x202f || u == 0x205f || u == 0x3000
  }

  /** UTF-8 for code points of up to three bytes, as in section 3 of RFC 3629. */
  function Utf8(u: nat): string
    requires u < 0x1_0000
  {
    if u < 0x80 then [u as char]
    else if u < 0x800 then [(0xc0 + u / 0x40) as char, (0x80 + u % 0x40) as char]
    else [(0xe0 + u / 0x1000) as char, (0x80 + u / 0x40 % 0x40) as char, (0x80 + u % 0x40) as char]
  }

  /** The code point of three bytes or less. */
  function PointOf(t: string): int {
    if |t| == 1 then t[0] as int
    else if |t| == 2 then (t[0] as int - 0xc0) * 0x40 + (t[1] as int - 0x80)
    else if |t| == 3 then (t[0] as int - 0xe0) * 0x1000 + (t[1] as int - 0x80) * 0x40 + (t[2] as int - 0x80)
    else -1
  }

  /** White space is what encodes one of those code points. */
  lemma WhiteExactly(t: string)
    ensures IsWhite(t) <==> exists u: nat :: u < 0x1_0000 && WhitePoint(u) && t == Utf8(u)
  {
    hide Utf8, WhitePoint, PointOf;
    if IsWhite(t) {
      WhiteDecodes(t);
    }
    if u: nat :| u < 0x1_0000 && WhitePoint(u) && t == Utf8(u) {
      WhiteEncodes(u);
    }
  }

  lemma WhiteDecodes(t: string)
    requires IsWhite(t)
    ensures 0 <= PointOf(t) < 0x1_0000 && WhitePoint(PointOf(t)) && t == Utf8(PointOf(t))
  {
    var u := PointOf(t);
    if |t| == 1 {
      assert Utf8(u) == [t[0]] == t;
    } else if |t| == 2 {
      assert Utf8(u) == [t[0], t[1]] == t;
    } else {
      assert Utf8(u) == [t[0], t[1], t[2]] == t;
    }
  }

  lemma WhiteEncodes(u: nat)
    requires u < 0x1_0000 && WhitePoint(u)
    ensures IsWhite(Utf8(u))
  {
    if u < 0x80 {
      assert Utf8(u) == [u as char];
    } else if u < 0x800 {
      assert u / 0x40 == 2;
    } else {
      LongWhite(u);
    }
  }

  lemma LongWhite(u: nat)
    requires 0x800 <= u < 0x1_0000 && WhitePoint(u)
    ensures IsWhite(Utf8(u))
  {
    var t := Utf8(u);
    assert t[0] as int == 0xe0 + u / 0x1000 && t[1] as int == 0x80 + u / 0x40 % 0x40 && t[2] as int == 0x80 + u % 0x40;
  }

  /** The length of the white-space character the text starts with, or 0. */
  function SpaceAt(s: string): (k: nat)
    ensures k <= |s| && k <= 3 && (k > 0 ==> IsWhite(s[..k]))
  {
    if |s| >= 1 && IsWhite(s[..1]) then 1
    else if |s| >= 2 && IsWhite(s[..2]) then 2
    else if |s| >= 3 && IsWhite(s[..3]) then 3
    else 0
  }

  /** The length of the one it ends in, or 0. */
  function SpaceEnd(s: string): (k: nat)
    ensures k <= |s| && k <= 3 && (k > 0 ==> IsWhite(s[|s| - k..]))
  {
    if |s| >= 1 && IsWhite(s[|s| - 1..]) then 1
    else if |s| >= 2 && IsWhite(s[|s| - 2..]) then 2
    else if |s| >= 3 && IsWhite(s[|s| - 3..]) then 3
    else 0
  }

  function TrimLeft(s: string): string
    decreases |s|
  {
    if SpaceAt(s) > 0 then TrimLeft(s[SpaceAt(s)..]) else s
  }

  function TrimRight(s: string): string
    decreases |s|
  {
    if SpaceEnd(s) > 0 then TrimRight(s[..|s| - SpaceEnd(s)]) else s
  }

  function TrimSpace(s: string): string {
    TrimRight(TrimLeft(s))
  }

  // ---- white space as a text ----

  /** White-space characters and nothing else. */
  predicate Spaces(s: string)
    decreases |s|
  {
    s == "" || (SpaceAt(s) > 0 && Spaces(s[SpaceAt(s)..]))
  }

  lemma FrontOf(a: string, b: string, k: nat)
    requires k <= |a|
    ensures (a + b)[..k] == a[..k]
  {
  }

  lemma SpaceAtMore(a: string, b: string)
    requires SpaceAt(a) > 0
    ensures SpaceAt(a + b) == SpaceAt(a)
  {
    hide IsWhite;
    FrontOf(a, b, 1);
    if |a| >= 2 { FrontOf(a, b, 2); }
    if |a| >= 3 { FrontOf(a, b, 3); }
  }

  /** The last three bytes of `t`, or what there is, end `s` as well. */
  predicate EndsAs(s: string, t: string) {
    && |t| <= |s|
    && (|t| >= 1 ==> s[|s| - 1] == t[|t| - 1])
    && (|t| >= 2 ==> s[|s| - 2] == t[|t| - 2])
    && (|t| >= 3 ==> s[|s| - 3] == t[|t| - 3])
  }

  lemma LastBytes(s: string)
    ensures |s| >= 1 ==> s[|s| - 1..] == [s[|s| - 1]]
    ensures |s| >= 2 ==> s[|s| - 2..] == [s[|s| - 2], s[|s| - 1]]
    ensures |s| >= 3 ==> s[|s| - 3..] == [s[|s| - 3], s[|s| - 2], s[|s| - 1]]
  {
  }

  lemma SpaceEndFrom(s: string, t: string)
    requires SpaceEnd(t) > 0 && EndsAs(s, t)
    ensures SpaceEnd(s) == SpaceEnd(t)
  {
    hide IsWhite;
    LastBytes(s);
    LastBytes(t);
  }

  lemma JoinEndsAs(a: string, b: string)
    ensures EndsAs(a + b, b)
  {
  }

  lemma SpaceEndMore(a: string, b: string)
    requires SpaceEnd(b) > 0
    ensures SpaceEnd(a + b) == SpaceEnd(b)
  {
    hide IsWhite, SpaceEnd, EndsAs;
    JoinEndsAs(a, b);
    SpaceEndFrom(a + b, b);
  }

  /** The last byte of a longer white-space character, or its last two, are none. */
  lemma WhiteTails(t: string)
    requires IsWhite(t)
    ensures 1 <= |t| <= 3
    ensures |t| > 1 ==> !IsWhite([t[|t| - 1]])
    ensures |t| > 2 ==> !IsWhite([t[|t| - 2], t[|t| - 1]])
  {
  }

  /** No character is the end of another. */
  lemma WhiteEnd(t: string)
    requires IsWhite(t)
    ensures SpaceEnd(t) == |t|
  {
    hide IsWhite;
    WhiteTails(t);
    if |t| > 1 { assert t[|t| - 1..] == [t[|t| - 1]]; }
    if |t| > 2 { assert t[|t| - 2..] == [t[|t| - 2], t[|t| - 1]]; }
    assert t[0..] == t;
  }

  lemma SpacesPrepend(first: string, rest: string)
    requires first != "" && SpaceAt(first) == |first| && Spaces(rest)
    ensures Spaces(first + rest)
  {
    hide SpaceAt, IsWhite;
    SpaceAtMore(first, rest);
    assert (first + rest)[|first|..] == rest;
  }

  lemma SpacesSplit(s: string)
    requires Spaces(s) && s != ""
    ensures SpaceAt(s) > 0 && Spaces(s[SpaceAt(s)..])
    ensures var first := s[..SpaceAt(s)]; SpaceAt(first) == |first| && SpaceEnd(first) == |first|
  {
    hide IsWhite, SpaceEnd, SpaceAt;
    FirstAlone(s);
    WhiteEnd(s[..SpaceAt(s)]);
  }

  /** White space read from the front is white space read from the back. */
  lemma {:induction false} SpacesEnd(s: string)
    requires Spaces(s) && s != ""
    ensures SpaceEnd(s) > 0 && Spaces(s[..|s| - SpaceEnd(s)])
    decreases |s|
  {
    hide IsWhite, SpaceAt, SpaceEnd, Spaces;
    SpacesSplit(s);
    var first, rest := s[..SpaceAt(s)], s[SpaceAt(s)..];
    assert s == first + rest;
    if rest == "" {
      assert s == first && s[..0] == "";
      EmptySpaces();
    } else {
      SpacesEnd(rest);
      SpaceEndMore(first, rest);
      var left := rest[..|rest| - SpaceEnd(rest)];
      assert s[..|s| - SpaceEnd(s)] == first + left;
      SpacesPrepend(first, left);
    }
  }

  lemma EmptySpaces()
    ensures Spaces("")
  {
  }

  lemma FirstAlone(s: string)
    requires SpaceAt(s) > 0
    ensures SpaceAt(s[..SpaceAt(s)]) == SpaceAt(s)
  {
    hide IsWhite;
    var k := SpaceAt(s);
    var t := s[..k];
    assert t[..1] == s[..1] && t[..k] == t;
    if k >= 2 { assert t[..2] == s[..2]; }
  }

  lemma {:induction false} TrimLeftSpaces(w: string, s: string)
    requires Spaces(w)
    ensures TrimLeft(w + s) == TrimLeft(s)
    decreases |w|
  {
    hide IsWhite;
    if w == "" {
      assert w + s == s;
    } else {
      var k := SpaceAt(w);
      SpaceAtMore(w, s);
      assert (w + s)[k..] == w[k..] + s;
      TrimLeftSpaces(w[k..], s);
    }
  }

  lemma {:induction false} TrimRightSpaces(s: string, w: string)
    requires Spaces(w)
    ensures TrimRight(s + w) == TrimRight(s)
    decreases |w|
  {
    hide IsWhite, TrimRight, SpaceEnd, SpaceAt, Spaces;
    if w == "" {
      assert s + w == s;
    } else {
      SpacesEnd(w);
      SpaceEndMore(s, w);
      var k := SpaceEnd(w);
      assert (s + w)[..|s + w| - k] == s + w[..|w| - k];
      TrimRightSpaces(s, w[..|w| - k]);
      TrimRightStep(s + w);
    }
  }

  lemma TrimRightStep(s: string)
    requires SpaceEnd(s) > 0
    ensures TrimRight(s) == TrimRight(s[..|s| - SpaceEnd(s)])
  {
    hide SpaceEnd;
  }

  /** The first byte of white space, and a byte none of it has. */
  lemma {:induction false} SpacesPlain(w: string)
    requires Spaces(w)
    ensures '#' !in w
    ensures w != "" ==> w[0] as int < 0x21 || 0xc2 <= w[0] as int <= 0xe3
    decreases |w|
  {
    if w != "" {
      var k := SpaceAt(w);
      SpacesPlain(w[k..]);
      assert w == w[..k] + w[k..];
    }
  }

  /** Text that starts and ends in a visible ASCII character. */
  predicate Visible(s: string) {
    s != "" && 0x21 <= s[0] as int < 0x80 && 0x21 <= s[|s| - 1] as int < 0x80
  }

  /** White space around a text is trimmed, and nothing else. */
  lemma TrimVisible(before: string, s: string, after: string)
    requires Spaces(before) && Spaces(after) && (s == "" || Visible(s))
    ensures TrimSpace(before + s + after) == s
  {
    hide IsWhite, Spaces, SpaceAt, SpaceEnd;
    assert before + s + after == before + (s + after);
    TrimLeftSpaces(before, s + after);
    if s == "" {
      assert s + after == after == after + "";
      TrimLeftSpaces(after, "");
      Nothing();
    } else {
      VisibleStays(s, after);
      TrimRightSpaces(s, after);
    }
  }

  lemma Nothing()
    ensures TrimLeft("") == "" && TrimRight("") == ""
  {
  }

  lemma VisibleStays(s: string, more: string)
    requires Visible(s)
    ensures TrimLeft(s + more) == s + more && TrimRight(s) == s
  {
    var t := s + more;
    assert t[0] == s[0];
    assert SpaceAt(t) == 0;
    assert SpaceEnd(s) == 0;
  }
}
