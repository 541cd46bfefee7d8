/** Substring search and lines. */
module Text {

  predicate OccursAt(s: string, pat: string, i: int) {
    0 <= i && i + |pat| <= |s| && s[i..i + |pat|] == pat
  }

  /** `strings.Index`: where `pat` first occurs, or -1. */
  function Index(s: string, pat: string): (r: int)
    ensures r == -1 || OccursAt(s, pat, r)
    ensures r == -1 ==> forall i :: !OccursAt(s, pat, i)
    ensures forall i :: i < r ==> !OccursAt(s, pat, i)
  {
    IndexFrom(s, pat, 0)
  }

  function IndexFrom(s: string, pat: string, i: nat): (r: int)
    requires i <= |s| + 1 && forall j :: j < i ==> !OccursAt(s, pat, j)
    ensures r == -1 || OccursAt(s, pat, r)
    ensures r == -1 ==> forall j :: !OccursAt(s, pat, j)
    ensures forall j :: j < r ==> !OccursAt(s, pat, j)
    decreases |s| + 1 - i
  {
    if i > |s| then -1
    else if OccursAt(s, pat, i) then i
    else IndexFrom(s, pat, i + 1)
  }

  lemma IndexIs(s: string, pat: string, i: int)
    requires OccursAt(s, pat, i) && forall j :: j < i ==> !OccursAt(s, pat, j)
    ensures Index(s, pat) == i
  {
  }

  lemma OccursLeft(a: string, b: string, pat: string, i: int)
    requires i + |pat| <= |a|
    ensures OccursAt(a + b, pat, i) <==> OccursAt(a, pat, i)
  {
    if 0 <= i { assert (a + b)[i..i + |pat|] == a[i..i + |pat|]; }
  }

  lemma OccursRight(a: string, b: string, pat: string, i: int)
    requires |a| <= i
    ensures OccursAt(a + b, pat, i) <==> OccursAt(b, pat, i - |a|)
  {
    if i + |pat| <= |a| + |b| { assert (a + b)[i..i + |pat|] == b[i - |a|..i - |a| + |pat|]; }
  }

  /** Occurrences in a slice are the occurrences of the whole that lie in it. */
  lemma OccursSlice(s: string, lo: nat, hi: nat, pat: string, i: int)
    requires lo <= hi <= |s|
    ensures OccursAt(s[lo..hi], pat, i) <==> 0 <= i && lo + i + |pat| <= hi && OccursAt(s, pat, lo + i)
  {
    if 0 <= i && lo + i + |pat| <= hi {
      var x, y := s[lo..hi][i..i + |pat|], s[lo + i..lo + i + |pat|];
      assert |x| == |y| && forall k :: 0 <= k < |x| ==> x[k] == y[k];
      assert x == y;
    }
  }

  /** An occurrence puts the characters of the pattern into the text. */
  lemma OccursChar(s: string, pat: string, i: int, k: int)
    requires OccursAt(s, pat, i) && 0 <= k < |pat|
    ensures s[i + k] == pat[k]
  {
    assert s[i..i + |pat|][k] == pat[k];
  }

  /** `strings.Split(s, "\n")` */
  function Lines(s: string): (ls: seq<string>)
    ensures |ls| >= 1
  {
    if s == "" then [""]
    else
      var rest := Lines(s[1..]);
      if s[0] == '\n' then [""] + rest else [[s[0]] + rest[0]] + rest[1..]
  }

  lemma LinesCons(c: char, t: string)
    ensures Lines([c] + t) == if c == '\n' then [""] + Lines(t) else [[c] + Lines(t)[0]] + Lines(t)[1..]
  {
    assert ([c] + t)[1..] == t;
  }

  /** Lines of two texts joined by a newline are the lines of one followed by the lines of the other. */
  lemma {:induction false} LinesConcat(a: string, b: string)
    ensures Lines(a + "\n" + b) == Lines(a) + Lines(b)
  {
    if a == "" {
      assert a + "\n" + b == ['\n'] + b;
      LinesCons('\n', b);
    } else {
      var c, rest := a[0], a[1..];
      LinesConcat(rest, b);
      LinesCons(c, rest);
      LinesCons(c, rest + "\n" + b);
      assert a == [c] + rest && a + "\n" + b == [c] + (rest + "\n" + b);
      ConsConcat(c, Lines(rest), Lines(b));
    }
  }

  function LastLine(s: string): string {
    var ls := Lines(s);
    ls[|ls| - 1]
  }

  function FirstLine(s: string): string {
    Lines(s)[0]
  }

  function JoinLines(x: seq<string>, y: seq<string>): (r: seq<string>)
    requires x != [] && y != []
    ensures r != []
  {
    x[..|x| - 1] + [x[|x| - 1] + y[0]] + y[1..]
  }

  lemma ConsJoined(c: char, x: seq<string>, y: seq<string>)
    requires x != [] && y != []
    ensures [""] + JoinLines(x, y) == JoinLines([""] + x, y)
    ensures [[c] + JoinLines(x, y)[0]] + JoinLines(x, y)[1..] == JoinLines([[c] + x[0]] + x[1..], y)
  {
    assert [c] + (x[0] + y[0]) == [c] + x[0] + y[0];
  }

  /** In a text put together of two, the last line of one and the first of the other are one line. */
  lemma {:induction false} LinesJoined(a: string, b: string)
    ensures Lines(a + b) == JoinLines(Lines(a), Lines(b))
  {
    hide JoinLines, Lines;
    if a == "" {
      assert a + b == b;
      LinesOfLine("");
      JoinNothing(Lines(b));
    } else {
      var c, rest := a[0], a[1..];
      LinesJoined(rest, b);
      LinesCons(c, rest);
      LinesCons(c, rest + b);
      assert a == [c] + rest && a + b == [c] + (rest + b);
      ConsJoined(c, Lines(rest), Lines(b));
    }
  }

  lemma JoinNothing(y: seq<string>)
    requires y != []
    ensures JoinLines([""], y) == y
  {
    assert "" + y[0] == y[0];
  }

  lemma ConsConcat(c: char, x: seq<string>, y: seq<string>)
    requires x != []
    ensures [""] + (x + y) == ([""] + x) + y
    ensures [[c] + (x + y)[0]] + (x + y)[1..] == ([[c] + x[0]] + x[1..]) + y
  {
  }

  lemma {:induction false} LinesOfLine(s: string)
    requires '\n' !in s
    ensures Lines(s) == [s]
  {
    if s != "" {
      LinesOfLine(s[1..]);
      assert [s[0]] + s[1..] == s;
    }
  }

  /** `strings.Join(ls, "\n")` */
  function Join(ls: seq<string>): string {
    if ls == [] then "" else if |ls| == 1 then ls[0] else ls[0] + "\n" + Join(ls[1..])
  }

  lemma {:induction false} LinesOfJoin(ls: seq<string>)
    requires ls != [] && forall i :: 0 <= i < |ls| ==> '\n' !in ls[i]
    ensures Lines(Join(ls)) == ls
  {
    LinesOfLine(ls[0]);
    if |ls| > 1 {
      LinesOfJoin(ls[1..]);
      LinesConcat(ls[0], Join(ls[1..]));
      assert [ls[0]] + ls[1..] == ls;
    }
  }
}
