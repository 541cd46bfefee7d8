/** `renderNetworks`, and what FRR reads back from the file the rendered blocks are spliced into. */
module Render {
  import opened Cidr
  import opened Text
  import opened Splice
  import opened Rollback
  import Nft

  /** How the operator's names and the address printer shape the file. `show` is `Prefix.String`. */
  datatype Env = Env(read: Reader, show: Prefix -> string, routeMap: string, prefix: string, setV4: string, setV6: string)

  function NetworkLine(env: Env, p: Prefix): string {
    "  network " + env.show(p) + " route-map " + env.routeMap
  }

  function NetworkLines(env: Env, ps: seq<Prefix>): seq<string> {
    seq(|ps|, i requires 0 <= i < |ps| => NetworkLine(env, ps[i]))
  }

  function Rendered(env: Env, ps: seq<Prefix>): string {
    Join(NetworkLines(env, ps))
  }

  function Marks(env: Env): Markers {
    MarkersFor(env.prefix)
  }

  predicate NoneOf(s: string, a: char, b: char) {
    a !in s && b !in s
  }

  /** FRR reads no `network` statement from a line that holds the marker. */
  ghost predicate Silent(env: Env, marker: string) {
    forall line, i :: OccursAt(line, marker, i) ==> env.read(line) == None
  }

  /**
    Marker prefix without spaces or newlines, names and printed prefixes on one line and without the
    `!` that starts comments, two nft sets, and FRR reading a rendered line as the prefix it shows
    and nothing from an empty line or from one that holds a marker.
    */
  ghost predicate GoodEnv(env: Env) {
    && NoneOf(env.prefix, ' ', '\n') && NoneOf(env.routeMap, '!', '\n') && env.setV4 != env.setV6
    && (forall p :: IsBlock(p) ==> NoneOf(env.show(p), '!', '\n'))
    && (forall p :: IsBlock(p) ==> env.read(NetworkLine(env, p)) == Some(p))
    && env.read("") == None
    && var m := Marks(env); Silent(env, m.beginV4) && Silent(env, m.endV4) && Silent(env, m.beginV6) && Silent(env, m.endV6)
  }

  // ---- the renderer ----

  function TrimNewlines(s: string): string {
    if s != "" && s[|s| - 1] == '\n' then TrimNewlines(s[..|s| - 1]) else s
  }

  function Terminate(ls: seq<string>): string {
    if ls == [] then "" else Terminate(ls[..|ls| - 1]) + ls[|ls| - 1] + "\n"
  }

  lemma {:induction false} TerminateIsJoin(ls: seq<string>)
    requires ls != []
    ensures Terminate(ls) == Join(ls) + "\n"
  {
    if |ls| == 1 {
      assert ls[..0] == [];
    } else {
      TerminateIsJoin(ls[..|ls| - 1]);
      JoinSnoc(ls[..|ls| - 1], ls[|ls| - 1]);
      assert ls == ls[..|ls| - 1] + [ls[|ls| - 1]];
    }
  }

  lemma {:induction false} JoinSnoc(ls: seq<string>, l: string)
    requires ls != []
    ensures Join(ls + [l]) == Join(ls) + "\n" + l
  {
    if |ls| == 1 {
      assert (ls + [l])[1..] == [l];
    } else {
      JoinSnoc(ls[1..], l);
      assert (ls + [l])[1..] == ls[1..] + [l];
    }
  }

  /** main.go:958-969. The block is the network lines joined by newlines, without newlines at its end. */
  method RenderNetworks(env: Env, ps: seq<Prefix>) returns (body: string)
    ensures body == TrimNewlines(Rendered(env, ps))
    ensures (ps == [] || env.routeMap == "" || env.routeMap[|env.routeMap| - 1] != '\n') ==> body == Rendered(env, ps)
  {
    if |ps| == 0 {
      return "";
    }
    var sb := "";
    for i := 0 to |ps|
      invariant sb == Terminate(NetworkLines(env, ps[..i]))
    {
      var ls := NetworkLines(env, ps[..i + 1]);
      assert ls[..i] == NetworkLines(env, ps[..i]) && ls[i] == NetworkLine(env, ps[i]);
      sb := sb + NetworkLine(env, ps[i]) + "\n";
    }
    assert ps[..|ps|] == ps;
    TerminateIsJoin(NetworkLines(env, ps));
    LastChar(env, ps);
    assert sb == Rendered(env, ps) + "\n";
    TrimOne(Rendered(env, ps));
    body := TrimNewlines(sb);
  }

  lemma TrimOne(s: string)
    ensures TrimNewlines(s + "\n") == TrimNewlines(s)
  {
    assert (s + "\n")[..|s|] == s;
  }

  lemma LastChar(env: Env, ps: seq<Prefix>)
    requires ps != []
    ensures var s := Rendered(env, ps);
            |s| > 0 && s[|s| - 1] == if env.routeMap == "" then ' ' else env.routeMap[|env.routeMap| - 1]
  {
    var ls := NetworkLines(env, ps);
    var l := ls[|ps| - 1];
    assert l[|l| - 1] == if env.routeMap == "" then ' ' else env.routeMap[|env.routeMap| - 1];
    if |ps| > 1 {
      JoinSnoc(ls[..|ps| - 1], l);
      assert ls == ls[..|ps| - 1] + [l];
    }
  }

  // ---- what FRR reads back ----

  lemma {:induction false} JoinChars(ls: seq<string>, c: char)
    requires c != '\n' && forall i :: 0 <= i < |ls| ==> c !in ls[i]
    ensures c !in Join(ls)
  {
    if |ls| > 1 { JoinChars(ls[1..], c); }
  }

  lemma LinesPlain(env: Env, ps: seq<Prefix>)
    requires GoodEnv(env) && AllBlocks(ps)
    ensures forall i :: 0 <= i < |ps| ==> NoneOf(NetworkLines(env, ps)[i], '!', '\n')
  {
    forall i | 0 <= i < |ps| ensures NoneOf(NetworkLines(env, ps)[i], '!', '\n') {
      var l, s := NetworkLine(env, ps[i]), env.show(ps[i]);
      assert l == "  network " + s + " route-map " + env.routeMap;
      assert NoneOf(s, '!', '\n');
    }
  }

  lemma CleanOfBang(body: string, q: string)
    requires '!' !in body && |q| > 2 && q[2] == '!'
    ensures Clean(body, q)
  {
    forall i ensures !OccursAt(body, q, i) {
      if OccursAt(body, q, i) { OccursChar(body, q, i, 2); }
    }
  }

  /** A rendered block holds no marker line and does not start with an empty one. */
  lemma RenderedPlain(env: Env, ps: seq<Prefix>)
    requires GoodEnv(env) && AllBlocks(ps)
    ensures PlainBody(Rendered(env, ps), Marks(env))
  {
    var ls, body, m := NetworkLines(env, ps), Rendered(env, ps), Marks(env);
    LinesPlain(env, ps);
    JoinChars(ls, '!');
    CleanOfBang(body, m.beginV4);
    CleanOfBang(body, m.endV4);
    CleanOfBang(body, m.beginV6);
    CleanOfBang(body, m.endV6);
    if ps != [] { assert ls[0][0] == ' '; }
  }
}
