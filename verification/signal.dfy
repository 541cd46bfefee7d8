/**
  What a signal does to the refresh loop and to FRR. The signal (in oneshot mode, the time budget of
  main.go:368) ends the context of the cycle under way: a call not yet made starts nothing, and a
  call under way is killed or just makes it.
  */
module Signal {
  import opened Cidr
  import opened Splice
  import opened Rollback
  import opened Render
  import opened Readback
  import opened Cycle
  import opened Refresh
  import opened Deployment

  // ---- runs in which reloads fail by the signal alone ----

  /** A reload that fails does so because the context ended: before the call, or while it was under way. */
  predicate FailsBySignal(call: Call, cancelled: bool, f: ReloadFault) {
    f.Reloaded? || (cancelled && (f.NotStarted? ==> call == Under(true)))
  }

  /** Usual settings, an old file that can be written back, and no reload failing on its own. Anything else may fail. */
  predicate BySignal(s: State, a: Act) {
    match a
    case Lock(_, _, input) => input.updateNft && input.reload && input.faults.restore.Written?
    case Answer(g, ReloadSays(f)) => g < |s.procs| && s.procs[g].Working? && FailsBySignal(s.procs[g].call, s.cancelled, f)
    case Answer(g, RollbackSays(f)) => g < |s.procs| && s.procs[g].Working? && FailsBySignal(s.procs[g].call, s.cancelled, f)
    case _ => true
  }

  predicate AllBySignal(env: Env, s: State, acts: seq<Act>)
    decreases |acts|
  {
    acts == [] || (BySignal(s, acts[0])
                   && match Move(env, s, acts[0]) case Some(s') => AllBySignal(env, s', acts[1..]) case None => true)
  }

  // ---- a torn reload ----

  /** The cycle gets to the reload, and the reload fails and leaves FRR on something else than the old text. */
  predicate Torn(env: Env, s: Host, t: Turn) {
    && Swaps(env, s, t.lists, t.input) && WriteOk(t.input.faults) && t.input.faults.reload.ReloadFails?
    && var next := NextFile(env, s.live.value, t.lists.value.v4, t.lists.value.v6);
       TextAfter(s.live, next.text, t.input.faults.reload) != s.live
  }

  /** The old file, the new sets, and FRR as the torn reload left it. */
  function AfterTorn(env: Env, s: Host, t: Turn): Host
    requires Torn(env, s, t)
  {
    var l := t.lists.value;
    var next := NextFile(env, s.live.value, l.v4, l.v6);
    var left := ReloadStep(env.read, s.(live := Some(next.text)), t.input.faults.reload).running;
    s.(temp := None, nft := NftAfter(env, s.nft, l, t.input), running := left)
  }

  /** A reload that failed was followed by one that could not start. */
  predicate NotRetried(env: Env, s: Host, t: Turn) {
    && t.input.reload && t.input.faults.restore.Written?
    && (Swaps(env, s, t.lists, t.input) && WriteOk(t.input.faults) && !t.input.faults.reload.Reloaded? ==>
          t.input.faults.rollbackReload.NotStarted?)
  }

  /** Such a cycle, run to its end from a start in sync, ends in sync unless its reload was torn. */
  lemma TornOrInSync(env: Env, s: Host, t: Turn)
    requires InSync(s) && NotRetried(env, s, t) && t.stop == |Steps(env, s, t.lists, t.input).steps|
    ensures Torn(env, s, t) ==> Reached(env, s, t) == AfterTorn(env, s, t) && !InSync(Reached(env, s, t))
    ensures !Torn(env, s, t) ==> InSync(Reached(env, s, t))
    ensures Torn(env, s, t) ==> Steps(env, s, t.lists, t.input).result == Swapped(RollbackReloadFailed)
  {
    hide NftAfter, NftOk, NextFile, ApplySteps, Steps, Reached, ReloadStep;
    if Swaps(env, s, t.lists, t.input) {
      SwapEnd(env, s, t);
      var l := t.lists.value;
      var next := NextFile(env, s.live.value, l.v4, l.v6);
      UndoneEnd(env.read, s.(nft := NftAfter(env, s.nft, l, t.input)), next.text, t.input.faults);
      SameReload(env.read, s.(live := Some(next.text)),
                 s.(live := Some(next.text), nft := NftAfter(env, s.nft, l, t.input)), t.input.faults.reload);
    } else {
      NoSwap(env, s, t.lists, t.input);
      OneStep(env, s, t);
    }
  }

  lemma OneStep(env: Env, s: Host, t: Turn)
    requires |Steps(env, s, t.lists, t.input).steps| == t.stop == 1
    ensures Reached(env, s, t) == Steps(env, s, t.lists, t.input).steps[0]
  {
    hide Steps;
  }

  lemma SameReload(read: Reader, x: Host, y: Host, f: ReloadFault)
    requires x.live == y.live && x.running == y.running
    ensures ReloadStep(read, x, f).running == ReloadStep(read, y, f).running
  {
    hide Networks;
  }

  /** Where a swap ends whose failed reload is undone by a write alone. */
  lemma UndoneEnd(read: Reader, m: Host, contents: string, f: Faults)
    requires InSync(m) && f.restore.Written? && (WriteOk(f) && !f.reload.Reloaded? ==> f.rollbackReload.NotStarted?)
    ensures var t := ApplySteps(read, m, contents, false, f);
            if WriteOk(f) && f.reload.ReloadFails? && TextAfter(m.live, contents, f.reload) != m.live then
              && t.outcome == RollbackReloadFailed && !InSync(Last(t.steps))
              && Last(t.steps) == m.(temp := None, running := ReloadStep(read, m.(live := Some(contents)), f.reload).running)
            else InSync(Last(t.steps))
  {
    hide Networks, Advertised, FileNetworks;
    if WriteOk(f) {
      SameReload(read, m.(live := Some(contents)), Last(WriteSteps(m, contents, f.write)), f.reload);
    }
  }

  lemma SwapEnd(env: Env, s: Host, t: Turn)
    requires Swaps(env, s, t.lists, t.input) && t.stop == |Steps(env, s, t.lists, t.input).steps| && t.input.reload
    ensures s.live.Some?
    ensures var l := t.lists.value; var next := NextFile(env, s.live.value, l.v4, l.v6);
            && next.Spliced?
            && var a := ApplySteps(env.read, s.(nft := NftAfter(env, s.nft, l, t.input)), next.text, false, t.input.faults);
               Reached(env, s, t) == Last(a.steps) && Steps(env, s, t.lists, t.input).result == Swapped(a.outcome)
  {
    hide NftAfter, NftOk, NextFile, ApplySteps;
  }

  /** A cycle whose first call starts nothing. */
  predicate Powerless(t: Turn) {
    t.lists.None? || t.input.dryRun || (t.input.updateNft && t.input.nft == NftFails(false))
  }

  lemma PowerlessIdle(env: Env, s: Host, t: Turn)
    requires Powerless(t)
    ensures Reached(env, s, t) == s && !Torn(env, s, t)
  {
    hide NextFile, Nft.Replacement;
  }

  // ---- the invariant ----

  predicate TornAt(env: Env, init: Host, ts: seq<Turn>, k: nat) {
    k < |ts| && Torn(env, Run(env, init, ts[..k]), ts[k])
  }

  ghost predicate SomeTorn(env: Env, init: Host, ts: seq<Turn>) {
    exists k: nat :: TornAt(env, init, ts, k)
  }

  /** After finished cycles: in sync unless one was torn, and then the host is as that one left it. */
  ghost predicate Settled(env: Env, init: Host, s: State, base: Host) {
    && (!SomeTorn(env, init, s.finished) ==> InSync(base))
    && forall k: nat :: TornAt(env, init, s.finished, k) ==>
         s.cancelled && s.cut && !InSync(base) && LeftBy(env, Run(env, init, s.finished[..k]), s.finished[k], base)
  }

  /** A torn cycle reported that the rollback reload failed, and this is the host it left. */
  predicate LeftBy(env: Env, s: Host, t: Turn, end: Host)
    requires Torn(env, s, t)
  {
    Steps(env, s, t.lists, t.input).result == Swapped(RollbackReloadFailed) && end == AfterTorn(env, s, t)
  }

  /** What is known of the calls of the cycle under way. */
  predicate CallsBySignal(env: Env, s: State, w: Proc)
    requires w.Working?
  {
    var t, f, q := w.turn, w.turn.input.faults, NextCall(env, w.start, w.turn);
    && t.input.updateNft && t.input.reload && f.restore.Written?
    && (f.reload.Reloaded? || (s.cancelled && (f.reload.ReloadFails? ==> s.cut)))
    && (w.call == Under(true) ==> s.cancelled)
    && (w.call == Under(false) ==> q != Some(ToRollback) && (q == Some(ToReload) && s.cancelled ==> s.cut))
    && (t.stop > TO_RESTORE || (t.stop == TO_RESTORE && w.call.Answered?) ==> NotRetried(env, w.start, t))
  }

  /** Once a reload was torn, no later cycle gets anywhere: its first call starts nothing. */
  predicate Stalled(w: Proc)
    requires w.Working?
  {
    if w.turn.stop == 0 && !w.call.Answered? then w.call != Under(false) else Powerless(w.turn)
  }

  ghost predicate SignalInv(env: Env, init: Host, s: State) {
    && Settled(env, init, s, Run(env, init, s.finished))
    && (s.holder.Some? ==> s.holder.value < |s.procs| && s.procs[s.holder.value].Working?
                           && CallsBySignal(env, s, s.procs[s.holder.value])
                           && (SomeTorn(env, init, s.finished) ==> Stalled(s.procs[s.holder.value])))
  }

  // ---- every move keeps it ----

  lemma CancelKeeps(env: Env, init: Host, s: State)
    requires Exclusive(s) && SignalInv(env, init, s)
    ensures SignalInv(env, init, Move(env, s, Cancel).value)
  {
    hide Torn, NextCall, NotRetried, Run, LeftBy, InSync;
    var s' := Move(env, s, Cancel).value;
    assert forall k: nat :: TornAt(env, init, s'.finished, k) <==> TornAt(env, init, s.finished, k);
  }

  lemma LockKeeps(env: Env, init: Host, s: State, a: Act)
    requires a.Lock? && Exclusive(s) && SignalInv(env, init, s) && Move(env, s, a).Some? && BySignal(s, a)
    ensures SignalInv(env, init, Move(env, s, a).value)
  {
    hide Torn, TornAt, NextCall, Run, LeftBy, InSync, Settled, SomeTorn, NotRetried;
    SettledElsewhere(env, init, s, Move(env, s, a).value);
  }

  /** Whether the finished cycles are settled is a matter of those cycles and the signal. */
  lemma SettledElsewhere(env: Env, init: Host, s: State, s': State)
    requires s'.finished == s.finished && s'.cancelled == s.cancelled && s'.cut == s.cut
    requires Settled(env, init, s, Run(env, init, s.finished))
    ensures Settled(env, init, s', Run(env, init, s'.finished))
  {
    hide Run, TornAt, LeftBy;
  }

  lemma CancelledWhenTorn(env: Env, init: Host, s: State, base: Host)
    requires Settled(env, init, s, base) && SomeTorn(env, init, s.finished)
    ensures s.cancelled
  {
    hide Run, TornAt, LeftBy;
  }

  lemma BeginKeeps(env: Env, init: Host, s: State, g: nat)
    requires Exclusive(s) && SignalInv(env, init, s) && Move(env, s, Begin(g)).Some?
    ensures SignalInv(env, init, Move(env, s, Begin(g)).value)
  {
    hide Torn, TornAt, Run, LeftBy, InSync, Settled, SomeTorn, Swaps;
    var s' := Move(env, s, Begin(g)).value;
    SettledElsewhere(env, init, s, s');
    if SomeTorn(env, init, s.finished) { CancelledWhenTorn(env, init, s, Run(env, init, s.finished)); }
  }

  lemma AnswerKeeps(env: Env, init: Host, s: State, g: nat, r: Reply)
    requires Exclusive(s) && SignalInv(env, init, s) && Move(env, s, Answer(g, r)).Some? && BySignal(s, Answer(g, r))
    ensures SignalInv(env, init, Move(env, s, Answer(g, r)).value)
  {
    hide Torn, TornAt, Run, LeftBy, InSync, Settled, SomeTorn, Swaps, StepCount;
    SettledElsewhere(env, init, s, Move(env, s, Answer(g, r)).value);
  }

  lemma StepKeeps(env: Env, init: Host, s: State, g: nat, junk: Host)
    requires Exclusive(s) && SignalInv(env, init, s) && Move(env, s, Step(g, junk)).Some?
    ensures SignalInv(env, init, Move(env, s, Step(g, junk)).value)
  {
    hide Torn, TornAt, Run, LeftBy, InSync, Settled, SomeTorn, Swaps, StepCount, Reached;
    SettledElsewhere(env, init, s, Move(env, s, Step(g, junk)).value);
  }

  lemma UndoneSteps(env: Env, s: Host, t: Turn)
    requires Swaps(env, s, t.lists, t.input) && t.input.reload && WriteOk(t.input.faults)
    requires !t.input.faults.reload.Reloaded? && t.input.faults.restore.Written?
    ensures |Steps(env, s, t.lists, t.input).steps| == TO_RESTORE + 1
  {
    hide NftAfter, NftOk, NextFile, Networks, ReloadStep;
  }

  lemma TornSnoc(env: Env, init: Host, ts: seq<Turn>, t: Turn, k: nat)
    ensures TornAt(env, init, ts + [t], k) <==>
              TornAt(env, init, ts, k) || (k == |ts| && Torn(env, Run(env, init, ts), t))
    ensures k < |ts| ==> (ts + [t])[..k] == ts[..k] && (ts + [t])[k] == ts[k]
    ensures (ts + [t])[..|ts|] == ts
  {
    hide Torn, Run;
    assert (ts + [t])[..|ts|] == ts;
    if k < |ts| { assert (ts + [t])[..k] == ts[..k]; }
  }

  /** One more finished cycle. */
  lemma SettledSnoc(env: Env, init: Host, s: State, s': State, t: Turn, end: Host)
    requires s'.finished == s.finished + [t] && s'.cancelled == s.cancelled && s'.cut == s.cut
    requires Settled(env, init, s, Run(env, init, s.finished))
    requires var base := Run(env, init, s.finished);
             if SomeTorn(env, init, s.finished) then end == base && !Torn(env, base, t)
             else if Torn(env, base, t) then s.cancelled && s.cut && !InSync(end) && LeftBy(env, base, t, end)
             else InSync(end)
    ensures Settled(env, init, s', end)
    ensures SomeTorn(env, init, s'.finished) <==>
            SomeTorn(env, init, s.finished) || Torn(env, Run(env, init, s.finished), t)
  {
    hide Torn, TornAt, Run, LeftBy, InSync;
    var ts, base := s.finished, Run(env, init, s.finished);
    SomeTornSnoc(env, init, ts, t);
    forall k: nat | TornAt(env, init, s'.finished, k)
      ensures s'.cancelled && s'.cut && !InSync(end) && TornLeft(env, init, s'.finished, k, end)
    {
      TornSnoc(env, init, ts, t, k);
      if TornAt(env, init, ts, k) {
        assert TornLeft(env, init, ts, k, base);
        TornLeftStays(env, init, ts, t, k, base);
      } else {
        TornLeftLast(env, init, ts, t, end);
      }
    }
    SettledFrom(env, init, s', end);
  }

  /** The torn cycle `k` left this host. */
  predicate TornLeft(env: Env, init: Host, ts: seq<Turn>, k: nat, end: Host) {
    TornAt(env, init, ts, k) && LeftBy(env, Run(env, init, ts[..k]), ts[k], end)
  }

  lemma SomeTornSnoc(env: Env, init: Host, ts: seq<Turn>, t: Turn)
    ensures SomeTorn(env, init, ts + [t]) <==> SomeTorn(env, init, ts) || Torn(env, Run(env, init, ts), t)
  {
    hide Torn, TornAt, Run;
    if k: nat :| TornAt(env, init, ts, k) { TornSnoc(env, init, ts, t, k); }
    TornSnoc(env, init, ts, t, |ts|);
    if k: nat :| TornAt(env, init, ts + [t], k) { TornSnoc(env, init, ts, t, k); }
  }

  lemma TornLeftStays(env: Env, init: Host, ts: seq<Turn>, t: Turn, k: nat, end: Host)
    requires TornLeft(env, init, ts, k, end)
    ensures TornLeft(env, init, ts + [t], k, end)
  {
    hide Torn, Run, LeftBy;
    TornSnoc(env, init, ts, t, k);
  }

  lemma TornLeftLast(env: Env, init: Host, ts: seq<Turn>, t: Turn, end: Host)
    requires Torn(env, Run(env, init, ts), t) && LeftBy(env, Run(env, init, ts), t, end)
    ensures TornLeft(env, init, ts + [t], |ts|, end)
  {
    hide Torn, Run, LeftBy;
    TornSnoc(env, init, ts, t, |ts|);
    assert (ts + [t])[|ts|] == t;
  }

  lemma SettledFrom(env: Env, init: Host, s: State, base: Host)
    requires !SomeTorn(env, init, s.finished) ==> InSync(base)
    requires forall k: nat :: TornAt(env, init, s.finished, k) ==>
               s.cancelled && s.cut && !InSync(base) && TornLeft(env, init, s.finished, k, base)
    ensures Settled(env, init, s, base)
  {
    hide Torn, Run, LeftBy, InSync, SomeTorn;
  }

  lemma UnlockKeeps(env: Env, init: Host, s: State, g: nat)
    requires Inv(env, init, s) && SignalInv(env, init, s) && Move(env, s, Unlock(g)).Some?
    ensures SignalInv(env, init, Move(env, s, Unlock(g)).value)
  {
    hide Torn, TornAt, Run, AfterTorn, InSync, Steps, Reached, Counted, AllEnded, Swaps, Powerless;
    var s', w := Move(env, s, Unlock(g)).value, s.procs[g];
    var base, t := Run(env, init, s.finished), w.turn;
    RunSnoc(env, init, s.finished, t);
    if SomeTorn(env, init, s.finished) {
      PowerlessIdle(env, base, t);
    } else {
      var failed := WriteOk(t.input.faults) && !t.input.faults.reload.Reloaded?;
      if t.stop <= TO_RESTORE && Swaps(env, base, t.lists, t.input) && failed {
        UndoneSteps(env, base, t);
      }
      TornOrInSync(env, base, t);
      if Torn(env, base, t) { TornCut(env, base, t); }
    }
    SettledSnoc(env, init, s, s', t, Reached(env, base, t));
  }

  lemma TornCut(env: Env, s: Host, t: Turn)
    requires Torn(env, s, t)
    ensures t.input.faults.reload.ReloadFails?
  {
    hide Swaps, NextFile;
  }

  lemma MoveKeepsSignal(env: Env, init: Host, s: State, a: Act)
    requires Inv(env, init, s) && SignalInv(env, init, s) && Move(env, s, a).Some? && BySignal(s, a)
    ensures SignalInv(env, init, Move(env, s, a).value)
  {
    hide Torn, TornAt, Run, LeftBy, InSync, Settled, SomeTorn, Steps, Reached, Counted, Serial, NextCall, CallsBySignal;
    hide Stalled;
    match a {
      case Cancel => CancelKeeps(env, init, s);
      case Lock(_, _, _) => LockKeeps(env, init, s, a);
      case Begin(g) => BeginKeeps(env, init, s, g);
      case Answer(g, r) => AnswerKeeps(env, init, s, g, r);
      case Step(g, junk) => StepKeeps(env, init, s, g, junk);
      case Unlock(g) => UnlockKeeps(env, init, s, g);
      case _ => ElsewhereKeeps(env, init, s, Move(env, s, a).value);
    }
  }

  lemma ElsewhereKeeps(env: Env, init: Host, s: State, s': State)
    requires SignalInv(env, init, s)
    requires s'.finished == s.finished && s'.cancelled == s.cancelled && s'.cut == s.cut && s'.holder == s.holder
    requires s.holder.Some? && s.holder.value < |s.procs| ==>
               s.holder.value < |s'.procs| && s'.procs[s.holder.value] == s.procs[s.holder.value]
    ensures SignalInv(env, init, s')
  {
    hide Torn, TornAt, Run, LeftBy, InSync, Settled, SomeTorn, NextCall, NotRetried, Stalled;
    SettledElsewhere(env, init, s, s');
  }

  lemma {:induction false} MovesKeepSignal(env: Env, init: Host, s: State, acts: seq<Act>)
    requires Inv(env, init, s) && SignalInv(env, init, s) && Refresh.Moves(env, s, acts).Some? && AllBySignal(env, s, acts)
    ensures Inv(env, init, Refresh.Moves(env, s, acts).value) && SignalInv(env, init, Refresh.Moves(env, s, acts).value)
    decreases |acts|
  {
    hide Move, Inv, SignalInv, BySignal;
    if acts != [] {
      MoveKeeps(env, init, s, acts[0]);
      MoveKeepsSignal(env, init, s, acts[0]);
      MovesKeepSignal(env, init, Move(env, s, acts[0]).value, acts[1..]);
    }
  }

  /**
    The drain and a signal. However ticks, cycles and the signal interleave, and whatever else
    fails: if reloads fail by the signal alone, then whenever no cycle is running, and so when the
    loop has returned, FRR is out of step exactly when the signal found a reload under way and that
    reload left something else than the old text. The host is then as that cycle left it, the old
    file live and the failure reported; no cycle after it changed anything.
    */
  lemma SignalExactly(env: Env, oneshot: bool, init: Host, acts: seq<Act>)
    requires InSync(init) && Refresh.Moves(env, Refresh.Init(oneshot, init), acts).Some?
    requires AllBySignal(env, Refresh.Init(oneshot, init), acts)
    ensures var s := Refresh.Moves(env, Refresh.Init(oneshot, init), acts).value;
            && (s.loop.Returned? ==> s.holder.None?)
            && (s.holder.None? ==> (InSync(s.host) <==> !SomeTorn(env, init, s.finished)))
            && (s.holder.None? ==> forall k: nat :: TornAt(env, init, s.finished, k) ==>
                  s.cut && LeftBy(env, Run(env, init, s.finished[..k]), s.finished[k], s.host))
  {
    hide Move, Exclusive, Counted, Torn, TornAt, Run, LeftBy, InSync, NextCall, Steps, Reached;
    var s := Refresh.Moves(env, Refresh.Init(oneshot, init), acts).value;
    InitInv(env, oneshot, init);
    InitSignal(env, oneshot, init);
    MovesKeepSignal(env, init, Refresh.Init(oneshot, init), acts);
    Conservation(env, oneshot, init, acts);
  }

  lemma InitSignal(env: Env, oneshot: bool, init: Host)
    requires InSync(init)
    ensures SignalInv(env, init, Refresh.Init(oneshot, init))
  {
  }

  // ---- both ends are reached ----

  ghost predicate Goes(env: Env, s: State, acts: seq<Act>, s': State) {
    Refresh.Moves(env, s, acts) == Some(s') && AllBySignal(env, s, acts)
  }

  lemma {:induction false} Then(env: Env, s: State, acts: seq<Act>, mid: State, a: Act, end: State)
    requires Goes(env, s, acts, mid) && BySignal(mid, a) && Move(env, mid, a) == Some(end)
    ensures Goes(env, s, acts + [a], end)
    decreases |acts|
  {
    hide Move, BySignal;
    if acts == [] {
      assert acts + [a] == [a] && [a][1..] == [];
      assert Refresh.Moves(env, end, []) == Some(end) && AllBySignal(env, end, []);
    } else {
      assert (acts + [a])[1..] == acts[1..] + [a];
      Then(env, Move(env, s, acts[0]).value, acts[1..], mid, a, end);
    }
  }

  /** The one goroutine of a fresh loop, somewhere in its cycle. */
  function At(env: Env, h: Host, t: Turn, call: Call, cancelled: bool, cut: bool): State {
    State(Selecting, [Working(h, t, call)], Some(0), 0, cancelled, cut, 0, Reached(env, h, t), [])
  }

  lemma AtStep(env: Env, h: Host, t: Turn, call: Call, cancelled: bool, cut: bool)
    requires t.stop < |Steps(env, h, t.lists, t.input).steps|
    requires call.Answered? || (call.Idle? && NextCall(env, h, t).None?)
    ensures Move(env, At(env, h, t, call, cancelled, cut), Step(0, h))
            == Some(At(env, h, t.(stop := t.stop + 1), Idle, cancelled, cut))
  {
    hide Steps, NextCall, Reached;
    var w, w' := Working(h, t, call), Working(h, t.(stop := t.stop + 1), Idle);
    assert [w][0 := w'] == [w'];
  }

  lemma AtCall(env: Env, h: Host, t: Turn, r: Reply, cancelled: bool, cut: bool, before: bool)
    requires NextCall(env, h, t).Some? && Fits(NextCall(env, h, t).value, r) && (before ==> Unstarted(r))
    ensures Move(env, At(env, h, t, Idle, cancelled, cut), Begin(0)) ==
            Some(At(env, h, t, Under(cancelled), cancelled, cut))
    ensures Move(env, At(env, h, t, Under(before), cancelled, cut), Answer(0, r))
            == Some(At(env, h, t.(input := Put(t.input, r)), Answered, cancelled, cut))
  {
    hide Steps, NextCall, Reached, Put, Fits, Unstarted;
    AnswerAhead(env, h, t, r);
    var w, w', w'' := Working(h, t, Idle), Working(h, t, Under(cancelled)), Working(h, t, Under(before));
    var answered := Working(h, t.(input := Put(t.input, r)), Answered);
    assert [w][0 := w'] == [w'] && [w''][0 := answered] == [answered];
  }

  lemma ThenStep(env: Env, s: State, acts: seq<Act>, h: Host, t: Turn, cancelled: bool,
                 cut: bool) returns (more: seq<Act>)
    requires Goes(env, s, acts, At(env, h, t, Idle, cancelled, cut))
    requires t.stop < |Steps(env, h, t.lists, t.input).steps| && NextCall(env, h, t).None?
    ensures Goes(env, s, more, At(env, h, t.(stop := t.stop + 1), Idle, cancelled, cut))
  {
    hide Goes, Steps, NextCall, Reached;
    more := acts + [Step(0, h)];
    AtStep(env, h, t, Idle, cancelled, cut);
    Then(env, s, acts, At(env, h, t, Idle, cancelled, cut), Step(0, h),
         At(env, h, t.(stop := t.stop + 1), Idle, cancelled, cut));
  }

  lemma ThenCall(env: Env, s: State, acts: seq<Act>, h: Host, t: Turn, r: Reply, cancelled: bool, cut: bool)
    returns (more: seq<Act>)
    requires Goes(env, s, acts, At(env, h, t, Idle, cancelled, cut))
    requires NextCall(env, h, t).Some? && Fits(NextCall(env, h, t).value, r) && (cancelled ==> Unstarted(r))
    requires r.ReloadSays? || r.RollbackSays? ==> FailsBySignal(Under(cancelled), cancelled, r.fault)
    ensures Goes(env, s, more, At(env, h, Turn(t.lists, Put(t.input, r), t.stop + 1), Idle, cancelled, cut))
  {
    hide Goes, Steps, NextCall, Reached, Put, Fits, Unstarted, FailsBySignal;
    var t' := t.(input := Put(t.input, r));
    AnswerAhead(env, h, t, r);
    AtCall(env, h, t, r, cancelled, cut, cancelled);
    AtStep(env, h, t', Answered, cancelled, cut);
    var under := At(env, h, t, Under(cancelled), cancelled, cut);
    var answered := At(env, h, t', Answered, cancelled, cut);
    Then(env, s, acts, At(env, h, t, Idle, cancelled, cut), Begin(0), under);
    Then(env, s, acts + [Begin(0)], under, Answer(0, r), answered);
    more := acts + [Begin(0)] + [Answer(0, r)] + [Step(0, h)];
    Then(env, s, acts + [Begin(0)] + [Answer(0, r)], answered, Step(0, h),
         At(env, h, t'.(stop := t.stop + 1), Idle, cancelled, cut));
  }

  /** The signal comes while the reload is under way. */
  lemma ThenCut(env: Env, s: State, acts: seq<Act>, h: Host, t: Turn, f: ReloadFault) returns (more: seq<Act>)
    requires Goes(env, s, acts, At(env, h, t, Idle, false, false))
    requires NextCall(env, h, t) == Some(ToReload) && f.ReloadFails?
    ensures Goes(env, s, more, At(env, h, Turn(t.lists, Put(t.input, ReloadSays(f)), t.stop + 1), Idle, true, true))
  {
    hide Goes, Steps, NextCall, Reached, Put;
    var r := ReloadSays(f);
    var t' := t.(input := Put(t.input, r));
    AnswerAhead(env, h, t, r);
    AtCall(env, h, t, r, false, false, false);
    AtCall(env, h, t, r, true, true, false);
    AtStep(env, h, t', Answered, true, true);
    var under, cut := At(env, h, t, Under(false), false, false), At(env, h, t, Under(false), true, true);
    more := acts + [Begin(0)];
    Then(env, s, acts, At(env, h, t, Idle, false, false), Begin(0), under);
    Then(env, s, more, under, Cancel, cut);
    more := more + [Cancel];
    Then(env, s, more, cut, Answer(0, r), At(env, h, t', Answered, true, true));
    more := more + [Answer(0, r)];
    Then(env, s, more, At(env, h, t', Answered, true, true), Step(0, h), At(env, h, t'.(stop := t.stop + 1), Idle, true, true));
    more := more + [Step(0, h)];
  }

  /** The loop after its one cycle, which was told to stop. */
  function After(env: Env, h: Host, t: Turn, cut: bool): State {
    State(Returned, [Done(true)], None, 0, true, cut, 0, Reached(env, h, t), [t])
  }

  lemma ThenReturn(env: Env, s: State, acts: seq<Act>, h: Host, t: Turn, cut: bool) returns (more: seq<Act>)
    requires Goes(env, s, acts, At(env, h, t, Idle, true, cut)) && t.stop == |Steps(env, h, t.lists, t.input).steps|
    ensures Goes(env, s, more, After(env, h, t, cut))
  {
    hide Goes, Steps, NextCall, Reached;
    var here := At(env, h, t, Idle, true, cut);
    var free := State(Selecting, [Unlocked], None, 0, true, cut, 0, Reached(env, h, t), [t]);
    var left := free.(procs := [Done(true)]);
    var end := After(env, h, t, cut);
    assert here.procs[0 := Unlocked] == [Unlocked] && free.procs[0 := Done(true)] == [Done(true)] && [] + [t] == [t];
    Then(env, s, acts, here, Unlock(0), free);
    more := acts + [Unlock(0)];
    Then(env, s, more, free, Leave(0), left);
    more := more + [Leave(0)];
    Then(env, s, more, left, SeeCancel, left.(loop := Draining));
    more := more + [SeeCancel];
    Then(env, s, more, left.(loop := Draining), Return, end);
    more := more + [Return];
  }

  /** Which calls stand before which steps of a swap. */
  lemma CallsOfSwap(env: Env, h: Host, t: Turn)
    requires Swaps(env, h, t.lists, t.input) && t.input.updateNft && t.input.reload && WriteOk(t.input.faults)
    ensures var q := NextCall(env, h, t); var n := |Steps(env, h, t.lists, t.input).steps|;
            && (t.stop == 0 ==> q == Some(ToNft)) && (t.stop == 1 ==> q == Some(ToCheck))
            && (t.stop == 2 || t.stop == 3 ==> q.None?) && (t.stop == TO_RENAME ==> q == Some(ToReload)) && n > TO_RENAME
            && (!t.input.faults.reload.Reloaded? && t.input.faults.restore.Written? ==>
                  && n == TO_RESTORE + 1 && (TO_RENAME < t.stop < TO_RESTORE ==> q.None?)
                  && (t.stop == TO_RESTORE ==> q == Some(ToRollback)))
  {
    hide NftAfter, NftOk, NextFile, Networks, ReloadStep;
  }

  /** What the signal leaves of a cycle in which nothing else fails. */
  function Signalled(i: Input, f: ReloadFault): Input {
    Put(Put(Unasked(i), ReloadSays(f)), RollbackSays(NotStarted))
  }

  lemma SameSwaps(env: Env, h: Host, l: Lists, i: Input, f: Faults)
    requires Swaps(env, h, Some(l), i) && i.updateNft
    ensures i.nft == NftRuns && Swaps(env, h, Some(l), i.(faults := f))
  {
    hide NextFile, Nft.Replacement;
  }

  /** A fresh loop whose cycle has written the new file and is about to reload. */
  lemma ToTheReload(env: Env, h: Host, l: Lists, i: Input) returns (acts: seq<Act>)
    requires Swaps(env, h, Some(l), i) && i.updateNft && i.reload && WriteOk(i.faults) && i.faults.restore.Written?
    ensures Goes(env, Refresh.Init(false, h), acts, At(env, h, Turn(Some(l), Unasked(i), TO_RENAME), Idle, false, false))
  {
    hide Goes, Steps, NextCall, Reached, Swaps;
    var j, ls, init := Unasked(i), Some(l), Refresh.Init(false, h);
    SameSwaps(env, h, l, i, j.faults);
    acts := [Lock(0, ls, i)];
    Locked(env, h, ls, i);
    CallsOfSwap(env, h, Turn(ls, j, 0));
    acts := ThenCall(env, init, acts, h, Turn(ls, j, 0), NftSays(NftRuns), false, false);
    CallsOfSwap(env, h, Turn(ls, j, 1));
    acts := ThenCall(env, init, acts, h, Turn(ls, j, 1), CheckSays(true), false, false);
    CallsOfSwap(env, h, Turn(ls, j, 2));
    acts := ThenStep(env, init, acts, h, Turn(ls, j, 2), false, false);
    CallsOfSwap(env, h, Turn(ls, j, 3));
    acts := ThenStep(env, init, acts, h, Turn(ls, j, 3), false, false);
  }

  lemma Locked(env: Env, h: Host, ls: Option<Lists>, i: Input)
    requires i.updateNft && i.reload && i.faults.restore.Written?
    ensures Goes(env, Refresh.Init(false, h), [Lock(0, ls, i)], At(env, h, Turn(ls, Unasked(i), 0), Idle, false, false))
  {
    hide Steps;
    var init, end := Refresh.Init(false, h), At(env, h, Turn(ls, Unasked(i), 0), Idle, false, false);
    assert init.procs[0 := end.procs[0]] == end.procs;
    assert Move(env, init, Lock(0, ls, i)) == Some(end);
    Then(env, init, [], init, Lock(0, ls, i), end);
    assert [] + [Lock(0, ls, i)] == [Lock(0, ls, i)];
  }

  /** From a reload that failed on, the cycle writes the old file back, cannot reload it, and the loop returns. */
  lemma ThenUndone(env: Env, s: State, acts: seq<Act>, h: Host, l: Lists, i: Input, f: ReloadFault, cut: bool)
    returns (more: seq<Act>)
    requires Swaps(env, h, Some(l), i) && i.updateNft && i.reload && WriteOk(i.faults) && i.faults.restore.Written?
    requires !f.Reloaded?
    requires Goes(env, s, acts, At(env, h, Turn(Some(l), Put(Unasked(i), ReloadSays(f)), TO_RENAME + 1), Idle, true, cut))
    ensures Goes(env, s, more, After(env, h, Turn(Some(l), Signalled(i, f), TO_RESTORE + 1), cut))
  {
    hide Goes, Steps, NextCall, Reached, Swaps;
    var j, ls := Put(Unasked(i), ReloadSays(f)), Some(l);
    SameSwaps(env, h, l, i, j.faults);
    SameSwaps(env, h, l, i, Signalled(i, f).faults);
    CallsOfSwap(env, h, Turn(ls, j, 5));
    more := ThenStep(env, s, acts, h, Turn(ls, j, 5), true, cut);
    CallsOfSwap(env, h, Turn(ls, j, 6));
    more := ThenStep(env, s, more, h, Turn(ls, j, 6), true, cut);
    CallsOfSwap(env, h, Turn(ls, j, 7));
    more := ThenStep(env, s, more, h, Turn(ls, j, 7), true, cut);
    CallsOfSwap(env, h, Turn(ls, j, 8));
    more := ThenCall(env, s, more, h, Turn(ls, j, 8), RollbackSays(NotStarted), true, cut);
    CallsOfSwap(env, h, Turn(ls, Signalled(i, f), 9));
    more := ThenReturn(env, s, more, h, Turn(ls, Signalled(i, f), 9), cut);
  }

  /**
    From any router and any cycle that gets to the reload there is a run in which the signal finds
    the reload under way, which leaves FRR with whatever it may, and the loop drains and returns.
    */
  lemma CutInReload(env: Env, h: Host, l: Lists, i: Input, left: Left) returns (acts: seq<Act>)
    requires Swaps(env, h, Some(l), i) && i.updateNft && i.reload && WriteOk(i.faults) && i.faults.restore.Written?
    ensures Goes(env, Refresh.Init(false, h), acts,
                 After(env, h, Turn(Some(l), Signalled(i, ReloadFails(left)), TO_RESTORE + 1), true))
  {
    hide Goes, Steps, NextCall, Reached, Swaps, Put;
    var j, init, f := Unasked(i), Refresh.Init(false, h), ReloadFails(left);
    acts := ToTheReload(env, h, l, i);
    SameSwaps(env, h, l, i, j.faults);
    CallsOfSwap(env, h, Turn(Some(l), j, TO_RENAME));
    acts := ThenCut(env, init, acts, h, Turn(Some(l), j, TO_RENAME), f);
    acts := ThenUndone(env, init, acts, h, l, i, f, true);
  }

  /** And one in which the signal comes just before the reload, so that neither reload starts. */
  lemma CutBeforeReload(env: Env, h: Host, l: Lists, i: Input) returns (acts: seq<Act>)
    requires Swaps(env, h, Some(l), i) && i.updateNft && i.reload && WriteOk(i.faults) && i.faults.restore.Written?
    ensures Goes(env, Refresh.Init(false, h), acts,
                 After(env, h, Turn(Some(l), Signalled(i, NotStarted), TO_RESTORE + 1), false))
  {
    hide Goes, Steps, NextCall, Reached, Swaps, Put;
    var j, init := Unasked(i), Refresh.Init(false, h);
    var before := ToTheReload(env, h, l, i);
    SameSwaps(env, h, l, i, j.faults);
    var t := Turn(Some(l), j, TO_RENAME);
    CallsOfSwap(env, h, t);
    Then(env, init, before, At(env, h, t, Idle, false, false), Cancel, At(env, h, t, Idle, true, false));
    acts := ThenCall(env, init, before + [Cancel], h, t, ReloadSays(NotStarted), true, false);
    acts := ThenUndone(env, init, acts, h, l, i, NotStarted, false);
  }

  /** Where the two end. */
  lemma SignalledEnd(env: Env, h: Host, l: Lists, i: Input, f: ReloadFault)
    requires InSync(h) && Swaps(env, h, Some(l), i) && i.updateNft && i.reload && WriteOk(i.faults) && i.faults.restore.Written?
    requires !f.Reloaded?
    ensures var next := NextFile(env, h.live.value, l.v4, l.v6); var t := Turn(Some(l), Signalled(i, f), TO_RESTORE + 1);
            && next.Spliced? && Reached(env, h, t).live == h.live
            && Steps(env, h, t.lists, t.input).result == Swapped(RollbackReloadFailed)
            && (InSync(Reached(env, h, t)) <==> TextAfter(h.live, next.text, f) == h.live)
  {
    hide Steps, NextFile, NftAfter, Swaps, ApplySteps, Reached;
    var t := Turn(Some(l), Signalled(i, f), TO_RESTORE + 1);
    SameSwaps(env, h, l, i, t.input.faults);
    CallsOfSwap(env, h, t);
    SwapEnd(env, h, t);
    var next := NextFile(env, h.live.value, l.v4, l.v6);
    RestoredEnd(env.read, h.(nft := NftAfter(env, h.nft, l, t.input)), next.text, t.input.faults);
    UndoneEnd(env.read, h.(nft := NftAfter(env, h.nft, l, t.input)), next.text, t.input.faults);
  }

  lemma RestoredEnd(read: Reader, m: Host, contents: string, f: Faults)
    requires InSync(m) && WriteOk(f) && f.restore.Written? && !f.reload.Reloaded? && f.rollbackReload.NotStarted?
    ensures var t := ApplySteps(read, m, contents, false, f);
            t.outcome == RollbackReloadFailed && Last(t.steps).live == m.live
  {
    hide Networks, Advertised, FileNetworks;
  }

  /**
    The drain does not keep a signal from racing a reload. On the sample router the signal finds the
    reload under way: the loop drains and returns, the old file is live, and FRR does not run it.
    */
  lemma DrainCanTear() returns (env: Env, init: Host, acts: seq<Act>)
    ensures Deployed(env, init) && InSync(init) && AllBySignal(env, Refresh.Init(false, init), acts)
    ensures Refresh.Moves(env, Refresh.Init(false, init), acts).Some?
    ensures var s := Refresh.Moves(env, Refresh.Init(false, init), acts).value;
            s.loop.Returned? && |s.finished| == 1 && s.cut && s.host.live == init.live && !InSync(s.host)
  {
    hide GoodEnv, Deployed, Networks, HostRoute, GlobalUnicast, Swaps, SampleHost, OwnMarkers, TwoSets, Reached, InSync;
    hide NextFile, Steps, Signalled;
    env, init := SampleEnv(), SampleHost(SampleEnv());
    SampleSwaps();
    acts := CutInReload(env, init, SampleLists(1), Smooth(), Part({}));
    SignalledEnd(env, init, SampleLists(1), Smooth(), ReloadFails(Part({})));
    SampleLive();
  }

  /** When it comes just before the reload, an incident is reported as well, but FRR runs the live file. */
  lemma EarlySignalHarmless() returns (env: Env, init: Host, acts: seq<Act>)
    ensures Deployed(env, init) && InSync(init) && AllBySignal(env, Refresh.Init(false, init), acts)
    ensures Refresh.Moves(env, Refresh.Init(false, init), acts).Some?
    ensures var s := Refresh.Moves(env, Refresh.Init(false, init), acts).value;
            && s.loop.Returned? && |s.finished| == 1 && s.cancelled && InSync(s.host)
            && ReportsIncident(env, init, s.finished[0]) && s.finished[0].input.faults.write.Written?
  {
    hide GoodEnv, Deployed, Networks, HostRoute, GlobalUnicast, Swaps, SampleHost, OwnMarkers, TwoSets, Reached, InSync;
    hide NextFile, Steps;
    env, init := SampleEnv(), SampleHost(SampleEnv());
    SampleSwaps();
    acts := CutBeforeReload(env, init, SampleLists(1), Smooth());
    SignalledEnd(env, init, SampleLists(1), Smooth(), NotStarted);
    SampleLive();
  }

  lemma SampleSwaps()
    ensures var env := SampleEnv(); var s := SampleHost(env);
            Deployed(env, s) && InSync(s) && Swaps(env, s, Some(SampleLists(1)), Smooth())
  {
    hide GoodEnv, Deployed, Networks, HostRoute, GlobalUnicast, Swaps, SampleHost, OwnMarkers, TwoSets, InSync;
    SampleGood();
    SampleStart(SampleEnv());
    SampleLive();
    DistinctRoutes(0, 1);
    NewSwaps(SampleEnv(), SampleHost(SampleEnv()), 1);
  }

  lemma SampleLive()
    ensures SampleHost(SampleEnv()).live.Some? && WriteOk(Smooth().faults)
  {
    hide SampleParts, Whole;
  }
}
