/** The nftables transaction `applyNft` sends, and what it does to interval sets without auto-merge. */
module Nft {
  import opened Cidr
  import opened Canonical

  datatype Command =
    | Flush(name: string)
    | Add(name: string, elements: seq<Prefix>)

  /** A named set of one address type. */
  datatype IntervalSet = IntervalSet(fam: Family, elements: set<Prefix>)

  type Ruleset = map<string, IntervalSet>

  predicate ValidRuleset(st: Ruleset) {
    forall n :: n in st ==> forall p :: p in st[n].elements ==> IsBlock(p)
  }

  function Elements(ps: seq<Prefix>): set<Prefix> {
    set p | p in ps
  }

  predicate AllOf(fam: Family, ps: seq<Prefix>) {
    forall i :: 0 <= i < |ps| ==> ps[i].fam == fam
  }

  predicate PairwiseDisjoint(ps: seq<Prefix>)
    requires AllBlocks(ps)
  {
    forall i, j :: 0 <= i < j < |ps| ==> Disjoint(ps[i], ps[j])
  }

  predicate Free(elements: set<Prefix>, p: Prefix)
    requires IsBlock(p) && forall q :: q in elements ==> IsBlock(q)
  {
    forall q :: q in elements ==> Disjoint(q, p)
  }

  /** Elements are added one at a time; a wrong address type or an overlap is an error. */
  function AddAll(s: IntervalSet, ps: seq<Prefix>): Option<IntervalSet>
    requires AllBlocks(ps) && forall q :: q in s.elements ==> IsBlock(q)
    decreases |ps|
  {
    if ps == [] then Some(s)
    else if ps[0].fam != s.fam || !Free(s.elements, ps[0]) then None
    else AddAll(s.(elements := s.elements + {ps[0]}), ps[1..])
  }

  predicate WellFormed(script: seq<Command>) {
    forall i :: 0 <= i < |script| ==> script[i].Add? ==> AllBlocks(script[i].elements)
  }

  /** The commands in order; `None` when one of them fails. */
  function Exec(script: seq<Command>, st: Ruleset): Option<Ruleset>
    requires WellFormed(script) && ValidRuleset(st)
    decreases |script|
  {
    if script == [] then Some(st)
    else
      var c := script[0];
      if c.name !in st then None
      else
        match c
        case Flush(n) => Exec(script[1..], st[n := st[n].(elements := {})])
        case Add(n, ps) =>
          AddedStayBlocks(st[n], ps);
          match AddAll(st[n], ps)
          case None => None
          case Some(s) => Exec(script[1..], st[n := s])
  }

  /** One `nft -f` call is one transaction: a failing command leaves the rules as they were. */
  function Commit(script: seq<Command>, st: Ruleset): Ruleset
    requires WellFormed(script) && ValidRuleset(st)
  {
    match Exec(script, st)
    case Some(st') => st'
    case None => st
  }

  lemma {:induction false} AddedStayBlocks(s: IntervalSet, ps: seq<Prefix>)
    requires AllBlocks(ps) && forall q :: q in s.elements ==> IsBlock(q)
    ensures AddAll(s, ps).Some? ==> forall q :: q in AddAll(s, ps).value.elements ==> IsBlock(q)
    decreases |ps|
  {
    if ps != [] && ps[0].fam == s.fam && Free(s.elements, ps[0]) {
      AddedStayBlocks(s.(elements := s.elements + {ps[0]}), ps[1..]);
    }
  }

  /** Every element has the type of the set and overlaps neither the others nor what is there. */
  predicate Fits(s: IntervalSet, ps: seq<Prefix>)
    requires AllBlocks(ps) && forall q :: q in s.elements ==> IsBlock(q)
  {
    && AllOf(s.fam, ps) && PairwiseDisjoint(ps)
    && forall i :: 0 <= i < |ps| ==> Free(s.elements, ps[i])
  }

  lemma FitsSplit(s: IntervalSet, ps: seq<Prefix>)
    requires AllBlocks(ps) && ps != [] && forall q :: q in s.elements ==> IsBlock(q)
    requires Fits(s, ps)
    ensures ps[0].fam == s.fam && Free(s.elements, ps[0])
    ensures Fits(s.(elements := s.elements + {ps[0]}), ps[1..])
  {
    var s', t := s.(elements := s.elements + {ps[0]}), ps[1..];
    forall i | 0 <= i < |t| ensures t[i].fam == s.fam && Free(s'.elements, t[i]) {
      assert t[i] == ps[i + 1] && Free(s.elements, ps[i + 1]);
    }
    forall i, j | 0 <= i < j < |t| ensures Disjoint(t[i], t[j]) {
      assert t[i] == ps[i + 1] && t[j] == ps[j + 1];
    }
  }

  lemma FitsJoin(s: IntervalSet, ps: seq<Prefix>)
    requires AllBlocks(ps) && ps != [] && forall q :: q in s.elements ==> IsBlock(q)
    requires ps[0].fam == s.fam && Free(s.elements, ps[0])
    requires Fits(s.(elements := s.elements + {ps[0]}), ps[1..])
    ensures Fits(s, ps)
  {
    var s', t := s.(elements := s.elements + {ps[0]}), ps[1..];
    forall i | 0 <= i < |ps| ensures ps[i].fam == s.fam && Free(s.elements, ps[i]) {
      if i > 0 { assert ps[i] == t[i - 1] && Free(s'.elements, t[i - 1]); }
    }
    forall i, j | 0 <= i < j < |ps| ensures Disjoint(ps[i], ps[j]) {
      assert ps[j] == t[j - 1] && Free(s'.elements, t[j - 1]);
      if i > 0 { assert ps[i] == t[i - 1]; }
    }
  }

  /** A list is accepted exactly when it fits. */
  lemma {:induction false} AddAllExactly(s: IntervalSet, ps: seq<Prefix>)
    requires AllBlocks(ps) && forall q :: q in s.elements ==> IsBlock(q)
    ensures AddAll(s, ps) == if Fits(s, ps) then Some(s.(elements := s.elements + Elements(ps))) else None
    decreases |ps|
  {
    if ps == [] {
      assert s.elements + Elements(ps) == s.elements;
    } else {
      if Fits(s, ps) { FitsSplit(s, ps); }
      if ps[0].fam == s.fam && Free(s.elements, ps[0]) {
        var s', t := s.(elements := s.elements + {ps[0]}), ps[1..];
        if Fits(s', t) { FitsJoin(s, ps); }
        AddAllExactly(s', t);
        assert s'.elements + Elements(t) == s.elements + Elements(ps);
      }
    }
  }

  /** When a whole-set replacement is accepted. */
  predicate Accepts(st: Ruleset, name: string, ps: seq<Prefix>)
    requires AllBlocks(ps)
  {
    name in st && AllOf(st[name].fam, ps) && PairwiseDisjoint(ps)
  }

  function Replaced(st: Ruleset, name: string, ps: seq<Prefix>): Ruleset
    requires name in st
  {
    st[name := st[name].(elements := Elements(ps))]
  }

  /** Flushing a set and, if there is something to add, adding to it replaces its contents whatever they were. */
  lemma FlushAdd(st: Ruleset, name: string, ps: seq<Prefix>, rest: seq<Command>)
    requires ValidRuleset(st) && AllBlocks(ps) && WellFormed(rest)
    ensures WellFormed(Refill(name, ps) + rest)
    ensures Accepts(st, name, ps) ==>
              ValidRuleset(Replaced(st, name, ps))
              && Exec(Refill(name, ps) + rest, st) == Exec(rest, Replaced(st, name, ps))
    ensures !Accepts(st, name, ps) ==> Exec(Refill(name, ps) + rest, st) == None
  {
    var script := Refill(name, ps) + rest;
    if name in st {
      var empty := st[name].(elements := {});
      var st1 := st[name := empty];
      AddAllExactly(empty, ps);
      assert {} + Elements(ps) == Elements(ps);
      if ps == [] {
        assert script[1..] == rest;
        assert Elements(ps) == {};
      } else {
        assert script[1..] == [Add(name, ps)] + rest;
        assert script[1..][1..] == rest;
        assert st1[name := empty.(elements := Elements(ps))] == Replaced(st, name, ps);
      }
    }
  }

  /** Flush, then one add unless the list is empty: `{ }` would not parse. */
  function Refill(name: string, ps: seq<Prefix>): seq<Command> {
    [Flush(name)] + if ps == [] then [] else [Add(name, ps)]
  }

  lemma SortedIsDisjoint(ps: seq<Prefix>)
    requires AllBlocks(ps) && SortedDisjoint(ps)
    ensures PairwiseDisjoint(ps)
  {
    forall i, j | 0 <= i < j < |ps| ensures Disjoint(ps[i], ps[j]) {
      assert Before(ps[i], ps[j]);
    }
  }

  /**
    The replacement the operator asked for: both sets exist and each list has the address type of
    its set, and then each holds exactly its list. If both sets have one name the second list wins.
    */
  function Replacement(st: Ruleset, setV4: string, setV6: string, v4: seq<Prefix>, v6: seq<Prefix>): Option<Ruleset> {
    if setV4 in st && AllOf(st[setV4].fam, v4) && setV6 in st && AllOf(st[setV6].fam, v6)
    then Some(st[setV4 := IntervalSet(st[setV4].fam, Elements(v4))][setV6 := IntervalSet(st[setV6].fam, Elements(v6))])
    else None
  }

  lemma ScriptEffect(st: Ruleset, setV4: string, setV6: string, v4: seq<Prefix>, v6: seq<Prefix>)
    requires ValidRuleset(st) && AllBlocks(v4) && AllBlocks(v6)
    ensures var script := Refill(setV4, v4) + (Refill(setV6, v6) + []);
            WellFormed(script) && Exec(script, st) ==
            if Accepts(st, setV4, v4) && setV6 in st && AllOf(st[setV6].fam, v6) && PairwiseDisjoint(v6)
            then Some(Replaced(Replaced(st, setV4, v4), setV6, v6)) else None
  {
    FlushAdd(st, setV6, v6, []);
    FlushAdd(st, setV4, v4, Refill(setV6, v6) + []);
    if Accepts(st, setV4, v4) {
      FlushAdd(Replaced(st, setV4, v4), setV6, v6, []);
    }
  }

  /** main.go:693-702. From any rules at all, the script is the replacement of the two lists or fails with it. */
  method BuildScript(setV4: string, setV6: string, v4: seq<Prefix>, v6: seq<Prefix>) returns (script: seq<Command>)
    requires IsCanonical(v4) && IsCanonical(v6)
    ensures WellFormed(script)
    ensures forall st: Ruleset :: ValidRuleset(st) ==> Exec(script, st) == Replacement(st, setV4, setV6, v4, v6)
  {
    script := [Flush(setV4)];
    if |v4| > 0 {
      script := script + [Add(setV4, v4)];
    }
    script := script + [Flush(setV6)];
    if |v6| > 0 {
      script := script + [Add(setV6, v6)];
    }
    assert script == Refill(setV4, v4) + (Refill(setV6, v6) + []);
    SortedIsDisjoint(v4);
    SortedIsDisjoint(v6);
    ScriptEffect(map[], setV4, setV6, v4, v6);
    forall st: Ruleset | ValidRuleset(st) ensures Exec(script, st) == Replacement(st, setV4, setV6, v4, v6) {
      ScriptEffect(st, setV4, setV6, v4, v6);
    }
  }

  /** A replacement leaves sets of blocks. */
  lemma ReplacementValid(st: Ruleset, setV4: string, setV6: string, v4: seq<Prefix>, v6: seq<Prefix>)
    requires ValidRuleset(st) && AllBlocks(v4) && AllBlocks(v6)
    ensures var r := Replacement(st, setV4, setV6, v4, v6); r.Some? ==> ValidRuleset(r.value)
  {
  }

  /** A script that performs a replacement changes nothing when it is run again. */
  lemma CommitTwice(script: seq<Command>, st: Ruleset, setV4: string, setV6: string, v4: seq<Prefix>, v6: seq<Prefix>)
    requires WellFormed(script) && AllBlocks(v4) && AllBlocks(v6) && ValidRuleset(st)
    requires forall s: Ruleset :: ValidRuleset(s) ==> Exec(script, s) == Replacement(s, setV4, setV6, v4, v6)
    ensures ValidRuleset(Commit(script, st))
    ensures Commit(script, Commit(script, st)) == Commit(script, st)
  {
    assert Exec(script, st) == Replacement(st, setV4, setV6, v4, v6);
    var st' := Commit(script, st);
    if Exec(script, st).Some? {
      forall n, p | n in st' && p in st'[n].elements ensures IsBlock(p) {
      }
      assert Exec(script, st') == Replacement(st', setV4, setV6, v4, v6);
    }
  }
}
