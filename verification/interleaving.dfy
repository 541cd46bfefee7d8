/**
  Two runs at once on one frr.conf. The lock is one for each country (main.go:179-181), so that the
  runs of two countries can interleave between reading the file and writing it.
  */
module Interleaving {
  import opened Cidr
  import opened Text
  import opened Splice
  import opened Rollback
  import opened Render
  import opened Readback
  import opened Deployment
  import opened Shared

  /** The file with or without the update of country `who`, and of the other. */
  function FileWith(c: string, w: Wish, who: nat, own: bool, other: bool): string
    requires Sized(w) && who < 2
  {
    var x := if own then Update(c, w, who) else c;
    if other then Update(x, w, 1 - who) else x
  }

  lemma FileWithFits(c: string, w: Wish, who: nat, own: bool, other: bool)
    requires Sized(w) && Fits(c, w) && who < 2
    ensures Fits(FileWith(c, w, who, own, other), w)
    ensures FileWith(c, w, who, own, other) == FileWith(c, w, 1 - who, other, own)
    ensures Update(FileWith(c, w, who, own, other), w, who) == FileWith(c, w, who, true, other)
  {
    hide Fits, Update;
    UpdateFits(c, w, who);
    UpdateFits(c, w, 1 - who);
    if own {
      UpdateFits(Update(c, w, who), w, 1 - who);
      UpdatesCommute(Update(c, w, who), w);
    }
    UpdatesCommute(c, w);
    assert (who == 0 && 1 - who == 1) || (who == 1 && 1 - who == 0);
  }

  /** A country's update is in the text if it was written into it, or if there was nothing to do. */
  lemma Held(c: string, w: Wish, who: nat, own: bool, other: bool)
    requires Sized(w) && Fits(c, w) && who < 2
    ensures var t := FileWith(c, w, who, own, other); Update(t, w, who) == t <==> own || Update(c, w, who) == c
  {
    hide Fits, Update;
    FileWithFits(c, w, who, own, other);
    if own {
      assert FileWith(c, w, who, true, other) == FileWith(c, w, who, own, other);
    } else if other {
      HeldUntouched(c, w, who);
      assert FileWith(c, w, who, own, other) == Update(c, w, 1 - who);
    } else {
      assert FileWith(c, w, who, own, other) == c;
    }
  }

  /** The other country's update does not change whether this one has something to do. */
  lemma HeldUntouched(c: string, w: Wish, who: nat)
    requires Sized(w) && Fits(c, w) && who < 2
    ensures Update(Update(c, w, 1 - who), w, who) == Update(c, w, 1 - who) <==> Update(c, w, who) == c
  {
    hide *;
    UpdateFits(c, w, 1 - who);
    NothingToDo(c, w, who);
    NothingToDo(Update(c, w, 1 - who), w, who);
    UpdateBlocks(c, w, 1 - who, 2 * who);
    UpdateBlocks(c, w, 1 - who, 2 * who + 1);
    assert 2 * who / 2 == who && (2 * who + 1) / 2 == who;
  }

  /**
    One run on the shared file: how many of its moves it has made, what it read and what it backed
    up, and for each move how many the other run had made by then.
    */
  datatype Process = Process(pc: nat, cfg: string, backup: string, at: seq<nat>)

  datatype World = World(file: string, runs: seq<Process>)

  const READ := 0
  const BACKUP := 1
  const WRITE := 2
  const RESTORE := 3

  /** A run reads (main.go:648), backs up (rollback.go:95), writes (100) and, if its reload fails, restores (118). */
  function Ends(undo: bool): nat {
    if undo then 4 else 3
  }

  function Start(c: string): World {
    World(c, [Process(0, "", "", []), Process(0, "", "", [])])
  }

  function Move(w: Wish, undo: seq<bool>, s: World, who: nat): World
    requires Sized(w) && |undo| == |s.runs| == 2 && who < 2
  {
    var p, other := s.runs[who], s.runs[1 - who].pc;
    if p.pc >= Ends(undo[who]) then s
    else
      var p' := p.(pc := p.pc + 1, at := p.at + [other]);
      if p.pc == READ then s.(runs := s.runs[who := p'.(cfg := s.file)])
      else if p.pc == BACKUP then s.(runs := s.runs[who := p'.(backup := s.file)])
      else if p.pc == WRITE then World(Update(p.cfg, w, who), s.runs[who := p'])
      else World(p.backup, s.runs[who := p'])
  }

  /** Any interleaving. */
  function Play(w: Wish, undo: seq<bool>, s: World, acts: seq<nat>): (r: World)
    requires Sized(w) && |undo| == |s.runs| == 2 && forall k :: 0 <= k < |acts| ==> acts[k] < 2
    ensures |r.runs| == 2
    decreases |acts|
  {
    if acts == [] then s else Play(w, undo, Move(w, undo, s, acts[0]), acts[1..])
  }

  /** The run that moved last. */
  predicate MovedLast(s: World, who: nat)
    requires |s.runs| == 2 && who < 2
  {
    var p := s.runs[who];
    p.pc >= 1 && |p.at| == p.pc && p.at[p.pc - 1] == s.runs[1 - who].pc
  }

  predicate WroteLast(s: World, who: nat)
    requires |s.runs| == 2 && who < 2
  {
    s.runs[who].pc > WRITE && (s.runs[1 - who].pc <= WRITE || MovedLast(s, who))
  }

  /** Whether the other run's update was there when this one made its `k`th move, before having written itself. */
  predicate SawOther(p: Process, k: nat) {
    k < |p.at| && p.at[k] == WRITE + 1
  }

  /** What a run last wrote: its update of what it read, or what it backed up. */
  function Made(c: string, w: Wish, p: Process, who: nat): string
    requires Sized(w) && who < 2
  {
    if p.pc == WRITE + 1 then FileWith(c, w, who, true, SawOther(p, READ)) else FileWith(c, w, who, false, SawOther(p, BACKUP))
  }

  predicate Consistent(c: string, w: Wish, undo: seq<bool>, s: World, who: nat)
    requires Sized(w) && |undo| == |s.runs| == 2 && who < 2
  {
    var p, o := s.runs[who], s.runs[1 - who];
    && p.pc <= Ends(undo[who]) && |p.at| == p.pc && (forall k :: 0 <= k < p.pc ==> p.at[k] <= o.pc)
    && (p.pc > READ ==> p.cfg == FileWith(c, w, who, false, SawOther(p, READ)))
    && (p.pc > BACKUP ==> p.backup == FileWith(c, w, who, false, SawOther(p, BACKUP)))
    && (WroteLast(s, who) ==> s.file == Made(c, w, p, who))
  }

  predicate Interleaved(c: string, w: Wish, undo: seq<bool>, s: World) {
    && Sized(w) && |undo| == |s.runs| == 2
    && Consistent(c, w, undo, s, 0) && Consistent(c, w, undo, s, 1)
    && (s.runs[0].pc + s.runs[1].pc > 0 ==> (MovedLast(s, 0) <==> !MovedLast(s, 1)))
    && (s.runs[0].pc <= WRITE && s.runs[1].pc <= WRITE ==> s.file == c)
  }

  /**
    What a run that has not written yet finds in the file: the other's update if that has been
    written and not undone.
    */
  lemma Finds(c: string, w: Wish, undo: seq<bool>, s: World, who: nat)
    requires Sized(w) && Fits(c, w) && Interleaved(c, w, undo, s) && who < 2 && s.runs[who].pc <= WRITE
    ensures s.file == FileWith(c, w, who, false, s.runs[1 - who].pc == WRITE + 1)
  {
    hide Fits, Update;
    var o := s.runs[1 - who];
    FileWithFits(c, w, who, false, o.pc == WRITE + 1);
    if o.pc > WRITE { assert WroteLast(s, 1 - who); }
  }

  /** What the moves of one run mean for the other. */
  lemma OtherConsistent(c: string, w: Wish, undo: seq<bool>, s: World, who: nat)
    requires Sized(w) && Fits(c, w) && Interleaved(c, w, undo, s) && who < 2
    ensures Consistent(c, w, undo, Move(w, undo, s, who), 1 - who)
  {
    hide Fits, Update, FileWith, Made;
  }

  lemma ReaderConsistent(c: string, w: Wish, undo: seq<bool>, s: World, who: nat)
    requires Sized(w) && Fits(c, w) && Interleaved(c, w, undo, s) && who < 2 && s.runs[who].pc < WRITE
    ensures Consistent(c, w, undo, Move(w, undo, s, who), who)
  {
    hide Fits, Update, FileWith, Made;
    Finds(c, w, undo, s, who);
  }

  lemma WriterConsistent(c: string, w: Wish, undo: seq<bool>, s: World, who: nat)
    requires Sized(w) && Fits(c, w) && Interleaved(c, w, undo, s) && who < 2 && s.runs[who].pc == WRITE
    ensures Consistent(c, w, undo, Move(w, undo, s, who), who)
  {
    hide Fits, Update, FileWith, WroteLast;
    FileWithFits(c, w, who, false, SawOther(s.runs[who], READ));
  }

  lemma RestorerConsistent(c: string, w: Wish, undo: seq<bool>, s: World, who: nat)
    requires Sized(w) && Fits(c, w) && Interleaved(c, w, undo, s) && who < 2 && s.runs[who].pc > WRITE
    ensures Consistent(c, w, undo, Move(w, undo, s, who), who)
  {
    hide Fits, Update, FileWith;
  }

  lemma MoveConsistent(c: string, w: Wish, undo: seq<bool>, s: World, who: nat)
    requires Sized(w) && Fits(c, w) && Interleaved(c, w, undo, s) && who < 2
    ensures Interleaved(c, w, undo, Move(w, undo, s, who))
  {
    OtherConsistent(c, w, undo, s, who);
    if s.runs[who].pc < WRITE {
      ReaderConsistent(c, w, undo, s, who);
    } else if s.runs[who].pc == WRITE {
      WriterConsistent(c, w, undo, s, who);
    } else {
      RestorerConsistent(c, w, undo, s, who);
    }
    LastMoves(c, w, undo, s, who);
    assert (who == 0 && 1 - who == 1) || (who == 1 && 1 - who == 0);
    hide *;
    FromParts(c, w, undo, Move(w, undo, s, who), who);
  }

  lemma FromParts(c: string, w: Wish, undo: seq<bool>, s: World, who: nat)
    requires Sized(w) && |undo| == |s.runs| == 2 && who < 2
    requires Consistent(c, w, undo, s, who) && Consistent(c, w, undo, s, 1 - who)
    requires s.runs[0].pc + s.runs[1].pc > 0 ==> (MovedLast(s, 0) <==> !MovedLast(s, 1))
    requires s.runs[0].pc <= WRITE && s.runs[1].pc <= WRITE ==> s.file == c
    ensures Interleaved(c, w, undo, s)
  {
    hide Consistent, MovedLast;
  }

  lemma LastMoves(c: string, w: Wish, undo: seq<bool>, s: World, who: nat)
    requires Sized(w) && Interleaved(c, w, undo, s) && who < 2
    ensures var n := Move(w, undo, s, who);
            && |n.runs| == 2
            && (n.runs[0].pc + n.runs[1].pc > 0 ==> (MovedLast(n, 0) <==> !MovedLast(n, 1)))
            && (n.runs[0].pc <= WRITE && n.runs[1].pc <= WRITE ==> n.file == c)
  {
    hide Update, FileWith, Made;
  }

  lemma {:induction false} PlayConsistent(c: string, w: Wish, undo: seq<bool>, s: World, acts: seq<nat>)
    requires Sized(w) && Fits(c, w) && Interleaved(c, w, undo, s) && forall k :: 0 <= k < |acts| ==> acts[k] < 2
    ensures Interleaved(c, w, undo, Play(w, undo, s, acts))
    decreases |acts|
  {
    hide Fits, Consistent, Move;
    if acts != [] {
      MoveConsistent(c, w, undo, s, acts[0]);
      PlayConsistent(c, w, undo, Move(w, undo, s, acts[0]), acts[1..]);
    }
  }

  /** Both runs are over. */
  predicate Over(undo: seq<bool>, s: World)
    requires |undo| == |s.runs| == 2
  {
    s.runs[0].pc == Ends(undo[0]) && s.runs[1].pc == Ends(undo[1])
  }

  /** The move that fixed what a run last wrote: its read, or its backup if it had to restore that. */
  function Source(undo: bool): nat {
    if undo then BACKUP else READ
  }

  /**
    Two runs of different countries, interleaved in any way, either of whose reloads may fail. When
    both are over the text around the blocks stands, and the file has the update of a country that
    had something to do exactly when: its run wrote last and did not restore, or the other run wrote
    last, from a text it took up between this run's write and its restore, if any. So an update is
    lost exactly when the other run took up its text before and wrote after, and one that was rolled
    back returns exactly when the other run carried it through.
    */
  lemma TwoRuns(c: string, w: Wish, undo: seq<bool>, acts: seq<nat>, who: nat)
    requires Sized(w) && Fits(c, w) && |undo| == 2 && (forall k :: 0 <= k < |acts| ==> acts[k] < 2) && who < 2
    requires Over(undo, Play(w, undo, Start(c), acts))
    ensures var s := Play(w, undo, Start(c), acts);
            && Fits(s.file, w) && (exists own, other :: s.file == FileWith(c, w, who, own, other))
            && (MovedLast(s, who) <==> !MovedLast(s, 1 - who))
            && (Update(c, w, who) != c ==>
                  (Update(s.file, w, who) == s.file <==>
                     if MovedLast(s, who) then !undo[who] else SawOther(s.runs[1 - who], Source(undo[1 - who]))))
  {
    hide Fits, Update, FileWith, Move;
    var s := Play(w, undo, Start(c), acts);
    PlayConsistent(c, w, undo, Start(c), acts);
    assert (who == 0 && 1 - who == 1) || (who == 1 && 1 - who == 0);
    var last := if MovedLast(s, who) then who else 1 - who;
    var saw := SawOther(s.runs[last], Source(undo[last]));
    assert s.file == FileWith(c, w, last, !undo[last], saw);
    FileWithFits(c, w, last, !undo[last], saw);
    if last == who { Held(c, w, who, !undo[who], saw); } else { Held(c, w, who, saw, !undo[last]); }
  }

  /** An update can be lost: both runs read, and the second writes over what the first wrote. */
  lemma UpdateLost(c: string, w: Wish) returns (acts: seq<nat>)
    requires Sized(w) && Fits(c, w)
    ensures forall k :: 0 <= k < |acts| ==> acts[k] < 2
    ensures var s := Play(w, [false, false], Start(c), acts); Over([false, false], s) && s.file == Update(c, w, 1)
  {
    hide Fits, Update;
    acts := [0, 1, 0, 1, 0, 1];
    var undo := [false, false];
    PlayCons(w, undo, Start(c), 0, [1, 0, 1, 0, 1]);
    var s := Move(w, undo, Start(c), 0);
    PlayCons(w, undo, s, 1, [0, 1, 0, 1]);
    s := Move(w, undo, s, 1);
    PlayCons(w, undo, s, 0, [1, 0, 1]);
    s := Move(w, undo, s, 0);
    PlayCons(w, undo, s, 1, [0, 1]);
    s := Move(w, undo, s, 1);
    PlayCons(w, undo, s, 0, [1]);
    s := Move(w, undo, s, 0);
    PlayCons(w, undo, s, 1, []);
  }

  /**
    And one that was rolled back can return: the second run reads it before the first restores, and
    writes it again.
    */
  lemma UpdateReturns(c: string, w: Wish) returns (acts: seq<nat>)
    requires Sized(w) && Fits(c, w)
    ensures forall k :: 0 <= k < |acts| ==> acts[k] < 2
    ensures var s := Play(w, [true, false], Start(c), acts);
            Over([true, false], s) && s.file == Update(Update(c, w, 0), w, 1)
  {
    hide Fits, Update;
    acts := [0, 0, 0, 1, 0, 1, 1];
    var undo := [true, false];
    PlayCons(w, undo, Start(c), 0, [0, 0, 1, 0, 1, 1]);
    var s := Move(w, undo, Start(c), 0);
    PlayCons(w, undo, s, 0, [0, 1, 0, 1, 1]);
    s := Move(w, undo, s, 0);
    PlayCons(w, undo, s, 0, [1, 0, 1, 1]);
    s := Move(w, undo, s, 0);
    PlayCons(w, undo, s, 1, [0, 1, 1]);
    s := Move(w, undo, s, 1);
    PlayCons(w, undo, s, 0, [1, 1]);
    s := Move(w, undo, s, 0);
    PlayCons(w, undo, s, 1, [1]);
    s := Move(w, undo, s, 1);
    PlayCons(w, undo, s, 1, []);
  }

  lemma PlayCons(w: Wish, undo: seq<bool>, s: World, who: nat, rest: seq<nat>)
    requires Sized(w) && |undo| == |s.runs| == 2 && who < 2 && forall k :: 0 <= k < |rest| ==> rest[k] < 2
    ensures Play(w, undo, s, [who] + rest) == Play(w, undo, Move(w, undo, s, who), rest)
  {
    hide Move;
    assert ([who] + rest)[1..] == rest;
  }

  // ---- in a deployment ----

  ghost function OtherEnv(): Env {
    SampleEnv().(prefix := "UZ-FEED", setV4 := "uz_v4", setV6 := "uz_v6")
  }

  lemma OtherGood()
    ensures GoodEnv(OtherEnv()) && Unlike(SampleEnv().prefix, OtherEnv().prefix)
  {
    hide ReadBack, IsBlock, NetworkLine, Show;
    var env, other := SampleEnv(), OtherEnv();
    SampleGood();
    forall p | IsBlock(p) ensures NoneOf(other.show(p), '!', '\n') && other.read(NetworkLine(other, p)) == Some(p) {
      SameLine(env, other, p);
    }
    var m := Marks(other);
    SampleSilent(m.beginV4);
    SampleSilent(m.endV4);
    SampleSilent(m.beginV6);
    SampleSilent(m.endV6);
    assert "RU-FEED"[0] != "UZ-FEED"[0];
  }

  lemma SameLine(e: Env, f: Env, p: Prefix)
    requires e.show == f.show && e.routeMap == f.routeMap
    ensures NetworkLine(e, p) == NetworkLine(f, p)
  {
  }

  lemma FirstEmpty(ms: seq<string>)
    requires Distinct(ms) && |ms| > 1
    ensures Placed(MarkersOnly(ms), ms) && TheBlock(MarkersOnly(ms), ms, 0) == ""
  {
    hide Solo, Unlike, Index, Placed, Distinct;
    MarkersPlaced(ms);
    MarkersFound(ms, 0);
    MarkersFound(ms, 1);
    MarkersStart(ms, 1);
    assert ms[..1] == [ms[0]] && ms[..1][..0] == [];
    assert MarkersOnly(ms[..1]) == ms[0] + "\n";
    assert MarkersOnly(ms)[|ms[0]|] == '\n';
  }

  /**
    Any two countries on a fresh file can run so that both are over and report success, and the
    networks of the first are not there.
    */
  lemma LostOnFresh(e: Env, v4: seq<Prefix>, v6: seq<Prefix>, f: Env, u4: seq<Prefix>, u6: seq<Prefix>)
    returns (cfg: string, acts: seq<nat>)
    requires GoodEnv(e) && GoodEnv(f) && Unlike(e.prefix, f.prefix)
    requires AllBlocks(v4) && AllBlocks(v6) && AllBlocks(u4) && AllBlocks(u6) && v4 != []
    ensures Placed(cfg, LinesOf(e.prefix, f.prefix)) && forall k :: 0 <= k < |acts| ==> acts[k] < 2
    ensures var w := WishOf(e, v4, v6, f, u4, u6); var s := Play(w, [false, false], Start(cfg), acts);
            Over([false, false], s) && NextFile(e, s.file, v4, v6) != Spliced(s.file)
  {
    hide Rendered, IsBlock, Distinct, Placed, Update, Play, NextFile, Unlike, Plain, Silent, TheBlock;
    CountriesDistinct(e.prefix, f.prefix);
    var ms, w := LinesOf(e.prefix, f.prefix), WishOf(e, v4, v6, f, u4, u6);
    cfg := MarkersOnly(ms);
    FirstEmpty(ms);
    TwoCountries(e, v4, v6, f, u4, u6, cfg);
    acts := UpdateLost(cfg, w);
    UpdateFits(cfg, w, 1);
    TwoCountries(e, v4, v6, f, u4, u6, Update(cfg, w, 1));
    NothingToDo(cfg, w, 0);
    HeldUntouched(cfg, w, 0);
    LastChar(e, v4);
  }

  /** There are two countries, a file and a run on which that happens. */
  lemma LostInDeployment() returns (e: Env, f: Env, ps: seq<Prefix>, qs: seq<Prefix>, cfg: string, acts: seq<nat>)
    ensures GoodEnv(e) && GoodEnv(f) && AllBlocks(ps) && AllBlocks(qs) && Placed(cfg, LinesOf(e.prefix, f.prefix))
    ensures forall k :: 0 <= k < |acts| ==> acts[k] < 2
    ensures var w := WishOf(e, ps, [], f, qs, []); var s := Play(w, [false, false], Start(cfg), acts);
            Over([false, false], s) && NextFile(e, s.file, ps, []) != Spliced(s.file)
  {
    hide *;
    e, f, ps, qs := SampleEnv(), OtherEnv(), [HostRoute(1)], [HostRoute(2)];
    SampleGood();
    OtherGood();
    OneRoute(1);
    OneRoute(2);
    cfg, acts := LostOnFresh(e, ps, [], f, qs, []);
  }

  lemma OneRoute(n: nat)
    requires n < 0x100
    ensures AllBlocks([HostRoute(n)]) && AllBlocks([])
  {
    SampleBlocks(n);
  }
}
