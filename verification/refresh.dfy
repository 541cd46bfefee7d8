/**
  `refreshLoop`: a select loop that starts a goroutine at once and on every tick, a mutex taken
  with TryLock, and a wait group drained after cancellation. Any goroutine may move at any moment.
  A cycle does what `Cycle.Steps` says one step at a time, as long as nobody else changes the
  host under it; if somebody does, its next step may leave anything.
  */
module Refresh {
  import opened Cidr
  import opened Splice
  import opened Rollback
  import opened Render
  import opened Readback
  import opened Cycle

  /**
    The calls of a cycle that get its context: each starts a process, and the process is killed when
    the context ends.
    */
  datatype Asked = ToNft | ToCheck | ToReload | ToRollback

  datatype Reply =
    | NftSays(call: NftCall)
    | CheckSays(ok: bool)
    | ReloadSays(fault: ReloadFault)
    | RollbackSays(fault: ReloadFault)

  /** No such call, one under way and whether the context had ended before it, or one that has returned. */
  datatype Call = Idle | Under(cancelled: bool) | Answered

  /** A goroutine running `runOnce`, or in oneshot mode the loop itself running it. */
  datatype Proc =
    | Waiting
    | Working(start: Host, turn: Turn, call: Call)
    | Unlocked
    | Refused
    | Done(ran: bool)

  datatype Loop = Inline | Selecting | Draining | Returned

  /**
    `holder` is who holds the mutex and `skipped` the overlap counter. `finished` records the
    cycles that ran to their end, in the order they did, and `cut` whether the signal found a
    reload under way.
    */
  datatype State = State(
    loop: Loop, procs: seq<Proc>, holder: Option<nat>, ticks: nat, cancelled: bool, cut: bool, skipped: nat,
    host: Host, finished: seq<Turn>)

  datatype Act =
    | Tick
    | Cancel
    | SeeCancel
    | Return
    | Lock(g: nat, lists: Option<Lists>, input: Input)
    | Skip(g: nat)
    | Begin(g: nat)
    | Answer(g: nat, reply: Reply)
    | Step(g: nat, junk: Host)
    | Unlock(g: nat)
    | Leave(g: nat)

  /** refresh.go:55-75: both modes start with one `runOnce`. */
  function Init(oneshot: bool, host: Host): State {
    State(if oneshot then Inline else Selecting, [Waiting], None, 0, false, false, 0, host, [])
  }

  function StepCount(env: Env, w: Proc): (n: nat)
    requires w.Working?
    ensures n >= 1
  {
    |Steps(env, w.start, w.turn.lists, w.turn.input).steps|
  }

  /** The call with the context that stands before the next step of the cycle, if there is one. */
  function NextCall(env: Env, start: Host, t: Turn): Option<Asked> {
    var f := t.input.faults;
    var swaps := Swaps(env, start, t.lists, t.input) && t.input.reload && f.stagingOk;
    if t.stop == 0 then
      if t.lists.Some? && !t.input.dryRun && t.input.updateNft then Some(ToNft) else None
    else if t.stop == 1 then
      if swaps then Some(ToCheck) else None
    else if t.stop == TO_RENAME then
      if swaps && WriteOk(f) then Some(ToReload) else None
    else if t.stop == TO_RESTORE then
      if swaps && WriteOk(f) && !f.reload.Reloaded? && f.restore.Written? then Some(ToRollback) else None
    else None
  }

  predicate Fits(q: Asked, a: Reply) {
    match q
    case ToNft => a.NftSays?
    case ToCheck => a.CheckSays?
    case ToReload => a.ReloadSays?
    case ToRollback => a.RollbackSays?
  }

  /** A call that gets an ended context starts nothing. */
  predicate Unstarted(a: Reply) {
    match a
    case NftSays(c) => c == NftFails(false)
    case CheckSays(ok) => !ok
    case ReloadSays(f) => f.NotStarted?
    case RollbackSays(f) => f.NotStarted?
  }

  /** The outcome of a call becomes known. */
  function Put(i: Input, a: Reply): Input {
    match a
    case NftSays(c) => i.(nft := c)
    case CheckSays(ok) => i.(faults := i.faults.(syntaxOk := ok))
    case ReloadSays(f) => i.(faults := i.faults.(reload := f))
    case RollbackSays(f) => i.(faults := i.faults.(rollbackReload := f))
  }

  /** An input whose calls with the context have not been made. */
  function Unasked(i: Input): Input {
    i.(nft := NftRuns, faults := i.faults.(syntaxOk := true, reload := Reloaded, rollbackReload := Reloaded))
  }

  /** Somebody's reload is under way and started before any signal. */
  predicate InReload(env: Env, s: State) {
    && s.holder.Some? && s.holder.value < |s.procs| && s.procs[s.holder.value].Working?
    && var w := s.procs[s.holder.value];
       w.call == Under(false) && NextCall(env, w.start, w.turn) == Some(ToReload)
  }

  /** The wait group counts the goroutines that have not left. Oneshot runs inline, without it. */
  predicate Drained(s: State) {
    forall g :: 0 <= g < |s.procs| ==> s.procs[g].Done?
  }

  /** What a call may return: nothing was started if the context had ended before it. */
  predicate CanSay(env: Env, w: Proc, a: Reply)
    requires w.Working?
  {
    && NextCall(env, w.start, w.turn).Some? && Fits(NextCall(env, w.start, w.turn).value, a)
    && (w.call == Under(true) ==> Unstarted(a))
  }

  /** A step that no call stands before, or whose call has returned. */
  predicate CanStep(env: Env, w: Proc)
    requires w.Working?
  {
    w.turn.stop < StepCount(env, w) && (w.call.Answered? || (w.call.Idle? && NextCall(env, w.start, w.turn).None?))
  }

  /** One move, or `None` when it is not possible. refresh.go:43-87. */
  function Move(env: Env, s: State, a: Act): Option<State> {
    match a
    case Tick =>
      if s.loop.Selecting? then Some(s.(procs := s.procs + [Waiting], ticks := s.ticks + 1)) else None
    case Cancel => Some(s.(cancelled := true, cut := s.cut || (!s.cancelled && InReload(env, s))))
    case SeeCancel => if s.loop.Selecting? && s.cancelled then Some(s.(loop := Draining)) else None
    case Return =>
      if (s.loop.Draining? || s.loop.Inline?) && Drained(s) then Some(s.(loop := Returned)) else None
    case Lock(g, lists, input) =>
      if g < |s.procs| && s.procs[g].Waiting? && s.holder.None?
      then Some(s.(holder := Some(g), procs := s.procs[g := Working(s.host, Turn(lists, Unasked(input), 0), Idle)]))
      else None
    case Skip(g) =>
      if g < |s.procs| && s.procs[g].Waiting? && s.holder.Some?
      then Some(s.(skipped := s.skipped + 1, procs := s.procs[g := Refused]))
      else None
    case Begin(g) =>
      if g < |s.procs| && s.procs[g].Working? && s.procs[g].call.Idle? && NextCall(env, s.procs[g].start, s.procs[g].turn).Some?
      then Some(s.(procs := s.procs[g := s.procs[g].(call := Under(s.cancelled))]))
      else None
    case Answer(g, a) =>
      if g < |s.procs| && s.procs[g].Working? && s.procs[g].call.Under? && CanSay(env, s.procs[g], a)
      then
        var w := s.procs[g];
        Some(s.(procs := s.procs[g := w.(turn := w.turn.(input := Put(w.turn.input, a)), call := Answered)]))
      else None
    case Step(g, junk) =>
      if g < |s.procs| && s.procs[g].Working? && CanStep(env, s.procs[g])
      then
        var w := s.procs[g];
        var next := w.turn.(stop := w.turn.stop + 1);
        var alone := s.host == Reached(env, w.start, w.turn);
        Some(s.(host := if alone then Reached(env, w.start, next) else junk,
                procs := s.procs[g := w.(turn := next, call := Idle)]))
      else None
    case Unlock(g) =>
      if g < |s.procs| && s.procs[g].Working? && s.procs[g].turn.stop == StepCount(env, s.procs[g]) && s.procs[g].call.Idle?
      then Some(s.(holder := None, finished := s.finished + [s.procs[g].turn], procs := s.procs[g := Unlocked]))
      else None
    case Leave(g) =>
      if g < |s.procs| && (s.procs[g].Unlocked? || s.procs[g].Refused?)
      then Some(s.(procs := s.procs[g := Done(s.procs[g].Unlocked?)]))
      else None
  }

  /** The moves one after the other. */
  function Moves(env: Env, s: State, acts: seq<Act>): Option<State>
    decreases |acts|
  {
    if acts == [] then Some(s)
    else
      match Move(env, s, acts[0])
      case Some(s') => Moves(env, s', acts[1..])
      case None => None
  }

  // ---- counting goroutines ----

  datatype Kind = IsWaiting | IsWorking | IsCompleted | IsSkipped

  function KindOf(p: Proc): Kind {
    match p
    case Waiting => IsWaiting
    case Working(_, _, _) => IsWorking
    case Unlocked => IsCompleted
    case Refused => IsSkipped
    case Done(ran) => if ran then IsCompleted else IsSkipped
  }

  function Count(ps: seq<Proc>, k: Kind): nat {
    if ps == [] then 0 else (if KindOf(ps[0]) == k then 1 else 0) + Count(ps[1..], k)
  }

  lemma {:induction false} CountChange(ps: seq<Proc>, g: nat, p: Proc, k: Kind)
    requires g < |ps|
    ensures Count(ps[g := p], k) + (if KindOf(ps[g]) == k then 1 else 0)
            == Count(ps, k) + (if KindOf(p) == k then 1 else 0)
  {
    var qs := ps[g := p];
    if g == 0 {
      assert qs[1..] == ps[1..];
    } else {
      assert qs[1..] == ps[1..][g - 1 := p];
      CountChange(ps[1..], g - 1, p, k);
    }
  }

  lemma {:induction false} CountSnoc(ps: seq<Proc>, p: Proc, k: Kind)
    ensures Count(ps + [p], k) == Count(ps, k) + (if KindOf(p) == k then 1 else 0)
  {
    if ps != [] {
      assert (ps + [p])[1..] == ps[1..] + [p];
      CountSnoc(ps[1..], p, k);
    }
  }

  /** Every goroutine is waiting, working, completed or skipped. */
  lemma {:induction false} CountAll(ps: seq<Proc>)
    ensures Count(ps, IsWaiting) + Count(ps, IsWorking) + Count(ps, IsCompleted) + Count(ps, IsSkipped) == |ps|
  {
    if ps != [] { CountAll(ps[1..]); }
  }

  // ---- the invariant ----

  /** The mutex is held by exactly the goroutine inside `work`. */
  predicate Exclusive(s: State) {
    && (s.holder.Some? ==> s.holder.value < |s.procs| && s.procs[s.holder.value].Working?)
    && forall g :: 0 <= g < |s.procs| && s.procs[g].Working? ==> s.holder == Some(g)
  }

  predicate Counted(s: State) {
    && |s.procs| == 1 + s.ticks
    && Count(s.procs, IsWorking) == (if s.holder.Some? then 1 else 0)
    && s.skipped == Count(s.procs, IsSkipped) && |s.finished| == Count(s.procs, IsCompleted)
    && (s.skipped > 0 ==> s.holder.Some? || |s.finished| > 0)
    && (s.loop.Returned? ==> Drained(s))
  }

  /** The cycles so far: those that finished and, while the mutex is held, the one under way. */
  function History(s: State): seq<Turn>
    requires Exclusive(s)
  {
    s.finished + if s.holder.Some? then [s.procs[s.holder.value].turn] else []
  }

  /** Every turn ran exactly to its end. */
  predicate AllEnded(env: Env, s: Host, ts: seq<Turn>)
    decreases |ts|
  {
    ts == [] || (ts[0].stop == |Steps(env, s, ts[0].lists, ts[0].input).steps|
                 && AllEnded(env, Reached(env, s, ts[0]), ts[1..]))
  }

  /** The finished cycles ran one after the other, and the one under way started where they ended. */
  predicate Serial(env: Env, init: Host, s: State)
    requires Exclusive(s)
  {
    && AllEnded(env, init, s.finished)
    && var base := Run(env, init, s.finished);
       match s.holder
       case None => s.host == base
       case Some(g) =>
         var w := s.procs[g];
         && w.start == base && s.host == Reached(env, base, w.turn) && w.turn.stop <= StepCount(env, w)
         && (!w.call.Idle? ==> NextCall(env, base, w.turn).Some?)
  }

  predicate Inv(env: Env, init: Host, s: State) {
    Exclusive(s) && Counted(s) && Serial(env, init, s)
  }

  lemma {:induction false} RunSnoc(env: Env, s: Host, ts: seq<Turn>, t: Turn)
    ensures Run(env, s, ts + [t]) == Reached(env, Run(env, s, ts), t)
    ensures AllEnded(env, s, ts + [t]) <==>
            AllEnded(env, s, ts) && t.stop == |Steps(env, Run(env, s, ts), t.lists, t.input).steps|
    decreases |ts|
  {
    hide Steps, Reached;
    if ts != [] {
      assert (ts + [t])[1..] == ts[1..] + [t];
      RunSnoc(env, Reached(env, s, ts[0]), ts[1..], t);
    }
  }

  lemma ChangeCounts(ps: seq<Proc>, g: nat, p: Proc)
    requires g < |ps|
    ensures forall k :: Count(ps[g := p], k) + (if KindOf(ps[g]) == k then 1 else 0)
                        == Count(ps, k) + (if KindOf(p) == k then 1 else 0)
  {
    forall k ensures Count(ps[g := p], k) + (if KindOf(ps[g]) == k then 1 else 0)
                     == Count(ps, k) + (if KindOf(p) == k then 1 else 0) {
      CountChange(ps, g, p, k);
    }
  }

  lemma NothingReached(env: Env, s: Host, lists: Option<Lists>, input: Input)
    ensures Reached(env, s, Turn(lists, input, 0)) == s
  {
  }

  /** What a call returns does not change the steps before it, nor that there is a step after it. */
  lemma AnswerAhead(env: Env, start: Host, t: Turn, a: Reply)
    requires NextCall(env, start, t).Some? && Fits(NextCall(env, start, t).value, a)
    ensures var t' := t.(input := Put(t.input, a));
            && Reached(env, start, t') == Reached(env, start, t) && NextCall(env, start, t') == NextCall(env, start, t)
            && t.stop < |Steps(env, start, t'.lists, t'.input).steps|
  {
    hide NextFile, NftAfter, NftOk, Networks, ReloadStep, ApplySteps, Steps, Reached, WriteSteps;
    var t' := t.(input := Put(t.input, a));
    if t.stop == 0 {
      AheadOfNft(env, start, t, t');
    } else {
      AheadOfFaults(env, start, t, t');
    }
  }

  lemma AheadOfNft(env: Env, start: Host, t: Turn, t': Turn)
    requires t.stop == t'.stop == 0
    ensures Reached(env, start, t') == Reached(env, start, t) && 0 < |Steps(env, start, t'.lists, t'.input).steps|
  {
  }

  /** Before a step that follows a call of the swap, the steps do not depend on what the call returns. */
  lemma AheadOfFaults(env: Env, start: Host, t: Turn, t': Turn)
    requires Swaps(env, start, t.lists, t.input) && t.input.reload && t.input.faults.stagingOk
    requires t' == t.(input := t.input.(faults := t'.input.faults)) && t'.input.faults.stagingOk
    requires
      || (t.stop == 1)
      || (t.stop == TO_RENAME && WriteOk(t.input.faults) && WriteOk(t'.input.faults))
      || (t.stop == TO_RESTORE && WriteOk(t.input.faults) && WriteOk(t'.input.faults)
          && t.input.faults.reload == t'.input.faults.reload && !t.input.faults.reload.Reloaded?
          && t.input.faults.restore.Written? && t'.input.faults.restore.Written?)
    ensures Reached(env, start, t') == Reached(env, start, t) && t.stop < |Steps(env, start, t'.lists, t'.input).steps|
    ensures Swaps(env, start, t'.lists, t'.input)
  {
    hide NextFile, Networks, ReloadStep, NftOk;
    FaultsDoNotSteer(env, start, t.lists.value, t.input, t'.input.faults);
  }

  lemma CallAhead(env: Env, start: Host, t: Turn)
    requires NextCall(env, start, t).Some?
    ensures t.stop < |Steps(env, start, t.lists, t.input).steps|
  {
    hide NextFile, NftAfter, NftOk, Networks, ReloadStep, ApplySteps, Steps, Reached, WriteSteps;
    if t.stop == 0 { AheadOfNft(env, start, t, t); } else { AheadOfFaults(env, start, t, t); }
  }

  lemma MoveKeepsExclusive(env: Env, s: State, a: Act)
    requires Exclusive(s) && Move(env, s, a).Some?
    ensures Exclusive(Move(env, s, a).value)
  {
    hide Steps, Reached, NextCall, Fits, Unstarted, Put, Unasked, StepCount, InReload, CanSay, CanStep;
  }

  lemma MoveKeepsCounts(env: Env, s: State, a: Act)
    requires Exclusive(s) && Counted(s) && Move(env, s, a).Some?
    ensures Exclusive(Move(env, s, a).value) && Counted(Move(env, s, a).value)
  {
    hide Steps, Reached, Count, NextCall, Fits, Unstarted, Put, Unasked, StepCount, InReload, CanSay, CanStep;
    hide Exclusive;
    MoveKeepsExclusive(env, s, a);
    var s' := Move(env, s, a).value;
    match a {
      case Tick =>
        CountSnoc(s.procs, Waiting, IsSkipped);
        CountSnoc(s.procs, Waiting, IsCompleted);
        CountSnoc(s.procs, Waiting, IsWorking);
      case Cancel =>
      case SeeCancel =>
      case Return =>
      case _ =>
        ChangeCounts(s.procs, a.g, s'.procs[a.g]);
        HolderWorks(s, a.g);
    }
  }

  lemma HolderWorks(s: State, g: nat)
    requires Exclusive(s) && g < |s.procs|
    ensures s.procs[g].Working? ==> s.holder == Some(g)
  {
  }

  lemma MoveKeepsSerial(env: Env, init: Host, s: State, a: Act)
    requires Exclusive(s) && Serial(env, init, s) && Move(env, s, a).Some? && Exclusive(Move(env, s, a).value)
    ensures Serial(env, init, Move(env, s, a).value)
  {
    hide Steps, Reached, Run, AllEnded, NextCall, Put;
    match a {
      case Lock(g, lists, input) => NothingReached(env, s.host, lists, Unasked(input));
      case Answer(g, reply) => AnswerAhead(env, s.procs[g].start, s.procs[g].turn, reply);
      case Unlock(g) => RunSnoc(env, init, s.finished, s.procs[g].turn);
      case _ =>
    }
  }

  /** Every move of every goroutine keeps mutual exclusion, the counts and seriality. */
  lemma MoveKeeps(env: Env, init: Host, s: State, a: Act)
    requires Inv(env, init, s) && Move(env, s, a).Some?
    ensures Inv(env, init, Move(env, s, a).value)
  {
    hide Move, Exclusive, Counted, Serial;
    MoveKeepsCounts(env, s, a);
    MoveKeepsSerial(env, init, s, a);
  }

  lemma {:induction false} MovesKeep(env: Env, init: Host, s: State, acts: seq<Act>)
    requires Inv(env, init, s) && Moves(env, s, acts).Some?
    ensures Inv(env, init, Moves(env, s, acts).value)
    decreases |acts|
  {
    hide Move, Inv;
    if acts != [] {
      MoveKeeps(env, init, s, acts[0]);
      MovesKeep(env, init, Move(env, s, acts[0]).value, acts[1..]);
    }
  }

  lemma InitInv(env: Env, oneshot: bool, init: Host)
    ensures Inv(env, init, Init(oneshot, init))
  {
  }

  // ---- what holds in every reachable state ----

  /**
    Serializability. However ticks, goroutines and cancellation interleave, the cycles that ran are
    whole ones, one after the other, plus at most one under way, and the host is where running
    exactly those in order would have left it.
    */
  lemma Serializable(env: Env, oneshot: bool, init: Host, acts: seq<Act>)
    requires Moves(env, Init(oneshot, init), acts).Some?
    ensures var s := Moves(env, Init(oneshot, init), acts).value;
            && Exclusive(s) && s.host == Run(env, init, History(s))
            && AllEnded(env, init, s.finished) && Count(s.procs, IsWorking) == |History(s)| - |s.finished| <= 1
  {
    hide Steps, Reached, Count, Move;
    var s := Moves(env, Init(oneshot, init), acts).value;
    InitInv(env, oneshot, init);
    MovesKeep(env, init, Init(oneshot, init), acts);
    if s.holder.Some? {
      RunSnoc(env, init, s.finished, s.procs[s.holder.value].turn);
    } else {
      assert s.finished + [] == s.finished;
    }
  }

  lemma {:induction false} DrainedCounts(ps: seq<Proc>)
    requires forall g :: 0 <= g < |ps| ==> ps[g].Done?
    ensures Count(ps, IsWaiting) == 0 && Count(ps, IsWorking) == 0
  {
    if ps != [] { DrainedCounts(ps[1..]); }
  }

  /**
    Conservation and drain: every dispatched goroutine is waiting, working, completed or skipped,
    one was dispatched at the start and one for each tick, and when the loop returns nothing is
    waiting or working, the mutex is free and at least one cycle completed.
    */
  lemma Conservation(env: Env, oneshot: bool, init: Host, acts: seq<Act>)
    requires Moves(env, Init(oneshot, init), acts).Some?
    ensures var s := Moves(env, Init(oneshot, init), acts).value; var n := |s.procs|;
            && n == 1 + s.ticks == Count(s.procs, IsWaiting) + Count(s.procs, IsWorking) + |s.finished| + s.skipped
            && (s.loop.Returned? ==>
                  Count(s.procs, IsWaiting) == Count(s.procs, IsWorking) == 0 && s.holder.None?
                  && |s.finished| >= 1 && n == |s.finished| + s.skipped)
  {
    hide Move, Steps, Reached;
    var s := Moves(env, Init(oneshot, init), acts).value;
    InitInv(env, oneshot, init);
    MovesKeep(env, init, Init(oneshot, init), acts);
    CountAll(s.procs);
    if s.loop.Returned? { DrainedCounts(s.procs); }
  }

  /** With interval zero exactly one cycle runs and none is skipped. */
  lemma {:induction false} OneshotStays(env: Env, init: Host, s: State, acts: seq<Act>)
    requires Inv(env, init, s) && |s.procs| == 1 && (s.loop.Inline? || s.loop.Returned?) && Moves(env, s, acts).Some?
    ensures var e := Moves(env, s, acts).value; |e.procs| == 1 && (e.loop.Inline? || e.loop.Returned?)
    decreases |acts|
  {
    hide Steps, Reached, Inv, Run, Count;
    if acts != [] {
      MoveKeeps(env, init, s, acts[0]);
      OneshotStays(env, init, Move(env, s, acts[0]).value, acts[1..]);
    }
  }

  lemma Oneshot(env: Env, init: Host, acts: seq<Act>)
    requires Moves(env, Init(true, init), acts).Some?
    ensures var s := Moves(env, Init(true, init), acts).value;
            s.loop.Returned? ==> |s.finished| == 1 && s.skipped == 0
  {
    hide Move, Steps, Reached, Inv, Count;
    InitInv(env, true, init);
    OneshotStays(env, init, Init(true, init), acts);
    Conservation(env, true, init, acts);
  }

  // ---- draining ends ----

  const MAX_STEPS := 9
  const MAX_MOVES := 3 * MAX_STEPS + 5

  lemma StepsBounded(env: Env, s: Host, lists: Option<Lists>, i: Input)
    ensures |Steps(env, s, lists, i).steps| <= MAX_STEPS
  {
    hide NextFile, NftAfter, NftOk, Networks;
  }

  /** How many moves a goroutine can still make at most. */
  function MovesLeft(env: Env, p: Proc): nat {
    match p
    case Waiting => MAX_MOVES
    case Working(start, turn, call) =>
      3 * (MAX_STEPS - (if turn.stop <= MAX_STEPS then turn.stop else MAX_STEPS))
      + (match call case Idle => 4 case Under(_) => 3 case Answered => 2)
    case Done(_) => 0
    case _ => 1
  }

  function LeftOver(env: Env, ps: seq<Proc>): nat {
    if ps == [] then 0 else MovesLeft(env, ps[0]) + LeftOver(env, ps[1..])
  }

  lemma {:induction false} LeftOverChange(env: Env, ps: seq<Proc>, g: nat, p: Proc)
    requires g < |ps|
    ensures LeftOver(env, ps[g := p]) + MovesLeft(env, ps[g]) == LeftOver(env, ps) + MovesLeft(env, p)
  {
    var qs := ps[g := p];
    if g == 0 {
      assert qs[1..] == ps[1..];
    } else {
      assert qs[1..] == ps[1..][g - 1 := p];
      LeftOverChange(env, ps[1..], g - 1, p);
    }
  }

  lemma {:induction false} LeftOverBound(env: Env, ps: seq<Proc>)
    ensures LeftOver(env, ps) <= MAX_MOVES * |ps|
  {
    if ps != [] { LeftOverBound(env, ps[1..]); }
  }

  lemma MoveUses(env: Env, s: State, a: Act)
    requires s.loop.Draining? && Move(env, s, a).Some? && !a.Cancel? && !a.Return?
    ensures a.g < |s.procs| && MovesLeft(env, Move(env, s, a).value.procs[a.g]) < MovesLeft(env, s.procs[a.g])
  {
    hide Reached, Steps, NextCall, Fits, Unstarted, Put, Unasked;
    var p := s.procs[a.g];
    if p.Working? { StepsBounded(env, p.start, p.turn.lists, p.turn.input); }
  }

  /** While draining, every move but another signal uses up some of what is left. */
  lemma DrainShrinks(env: Env, s: State, a: Act)
    requires s.loop.Draining? && Move(env, s, a).Some? && !a.Cancel?
    ensures var s' := Move(env, s, a).value;
            |s'.procs| == |s.procs| && if a.Return? then s'.loop.Returned? && Drained(s')
            else s'.loop.Draining? && LeftOver(env, s'.procs) < LeftOver(env, s.procs)
  {
    hide Reached, Steps, MovesLeft, LeftOver, NextCall, Fits, Unstarted, Put, Unasked;
    var s' := Move(env, s, a).value;
    if !a.Return? {
      var g := a.g;
      var p, p' := s.procs[g], s'.procs[g];
      LeftOverChange(env, s.procs, g, p');
      MoveUses(env, s, a);
    }
  }

  /** An answer that every call can give. */
  function NoStart(q: Asked): Reply {
    match q
    case ToNft => NftSays(NftFails(false))
    case ToCheck => CheckSays(false)
    case ToReload => ReloadSays(NotStarted)
    case ToRollback => RollbackSays(NotStarted)
  }

  /** Whose move it is. */
  predicate MovesGoroutine(a: Act, g: nat) {
    match a
    case Lock(h, _, _) => h == g
    case Skip(h) => h == g
    case Begin(h) => h == g
    case Answer(h, _) => h == g
    case Step(h, _) => h == g
    case Unlock(h) => h == g
    case Leave(h) => h == g
    case _ => false
  }

  lemma WorkingMoves(env: Env, init: Host, s: State, g: nat)
    requires Inv(env, init, s) && g < |s.procs| && s.procs[g].Working?
    ensures exists a: Act :: MovesGoroutine(a, g) && Move(env, s, a).Some?
  {
    hide Steps, Reached, Count, NextCall, Run, AllEnded;
    var w := s.procs[g];
    var q := NextCall(env, w.start, w.turn);
    if q.Some? {
      CallAhead(env, w.start, w.turn);
      match w.call {
        case Idle => assert Move(env, s, Begin(g)).Some? && MovesGoroutine(Begin(g), g);
        case Under(_) => assert Move(env, s, Answer(g, NoStart(q.value))).Some? && MovesGoroutine(Answer(g, NoStart(q.value)), g);
        case Answered => assert Move(env, s, Step(g, s.host)).Some? && MovesGoroutine(Step(g, s.host), g);
      }
    } else if w.turn.stop < StepCount(env, w) {
      assert Move(env, s, Step(g, s.host)).Some? && MovesGoroutine(Step(g, s.host), g);
    } else {
      assert Move(env, s, Unlock(g)).Some? && MovesGoroutine(Unlock(g), g);
    }
  }

  /**
    The loop: a tick is taken exactly while it selects, and dispatches one more goroutine; the end of
    the context is seen exactly then too, once it has come; and it returns exactly when it drains, or
    runs its one cycle inline, and every goroutine has left. A signal can come at any time.
    */
  lemma LoopMoves(env: Env, s: State)
    ensures Move(env, s, Tick).Some? <==> s.loop.Selecting?
    ensures s.loop.Selecting? ==> Move(env, s, Tick).value == s.(procs := s.procs + [Waiting], ticks := s.ticks + 1)
    ensures Move(env, s, SeeCancel).Some? <==> s.loop.Selecting? && s.cancelled
    ensures s.loop.Selecting? && s.cancelled ==> Move(env, s, SeeCancel).value == s.(loop := Draining)
    ensures Move(env, s, Return).Some? <==>
              (s.loop.Draining? || s.loop.Inline?) && forall g :: 0 <= g < |s.procs| ==> s.procs[g].Done?
    ensures Move(env, s, Cancel).Some? && Move(env, s, Cancel).value ==
            s.(cancelled := true, cut := Move(env, s, Cancel).value.cut)
  {
    hide InReload, NextCall;
  }

  /**
    TryLock: a goroutine that has not begun can take the mutex exactly when it is free, and then works
    from the host as it stands; it can be skipped exactly when it is taken, and then changes nothing
    but the counter.
    */
  lemma TryLock(env: Env, s: State, g: nat, lists: Option<Lists>, input: Input)
    requires g < |s.procs|
    ensures Move(env, s, Lock(g, lists, input)).Some? <==> s.procs[g].Waiting? && s.holder.None?
    ensures Move(env, s, Skip(g)).Some? <==> s.procs[g].Waiting? && s.holder.Some?
    ensures s.procs[g].Waiting? && s.holder.None? ==>
              var s' := Move(env, s, Lock(g, lists, input)).value;
              && s' == s.(holder := Some(g), procs := s.procs[g := s'.procs[g]])
              && s'.procs[g].Working? && s'.procs[g].start == s.host && s'.procs[g].turn.stop == 0
              && s'.procs[g].turn.lists == lists
              && var i, f := s'.procs[g].turn.input, s'.procs[g].turn.input.faults;
                 && i.dryRun == input.dryRun && i.updateNft == input.updateNft && i.readable == input.readable
                 && i.force == input.force && i.reload == input.reload
                 && f.stagingOk == input.faults.stagingOk && f.backupReadable == input.faults.backupReadable
                 && f.write == input.faults.write && f.restore == input.faults.restore
    ensures s.procs[g].Waiting? && s.holder.Some? ==>
              Move(env, s, Skip(g)).value == s.(skipped := s.skipped + 1, procs := s.procs[g := Refused])
  {
    hide NextCall;
  }

  /** No goroutine ever waits for another: in every reachable state each one that has not left can move. */
  lemma NeverBlocked(env: Env, init: Host, s: State, g: nat)
    requires Inv(env, init, s) && g < |s.procs| && !s.procs[g].Done?
    ensures exists a: Act :: MovesGoroutine(a, g) && Move(env, s, a).Some?
  {
    hide Steps, Reached, Count;
    match s.procs[g] {
      case Waiting =>
        if s.holder.None? {
          assert Move(env, s, Lock(g, None, AnyInput())).Some? && MovesGoroutine(Lock(g, None, AnyInput()), g);
        } else {
          assert Move(env, s, Skip(g)).Some? && MovesGoroutine(Skip(g), g);
        }
      case Working(_, _, _) => WorkingMoves(env, init, s, g);
      case Unlocked => assert Move(env, s, Leave(g)).Some? && MovesGoroutine(Leave(g), g);
      case Refused => assert Move(env, s, Leave(g)).Some? && MovesGoroutine(Leave(g), g);
    }
  }

  /** While draining some move is always possible. */
  lemma DrainNotStuck(env: Env, init: Host, s: State)
    requires Inv(env, init, s) && s.loop.Draining?
    ensures exists a: Act :: !a.Cancel? && Move(env, s, a).Some?
  {
    hide Move, Inv;
    if Drained(s) {
      LoopMoves(env, s);
    } else {
      var g: nat :| g < |s.procs| && !s.procs[g].Done?;
      NeverBlocked(env, init, s, g);
    }
  }

  function AnyInput(): Input {
    Input(true, true, NftRuns, true, true, true, BringsBack())
  }

  /** Draining takes at most thirty-two moves for each goroutine and one to return. */
  lemma DrainEnds(env: Env, s: State, acts: seq<Act>)
    requires s.loop.Draining? && Moves(env, s, acts).Some? && Cancel !in acts
    ensures |acts| <= MAX_MOVES * |s.procs| + 1
  {
    LeftOverBound(env, s.procs);
    DrainCount(env, s, acts);
  }

  /** However the drain has gone so far, it can go on to the return. */
  lemma {:induction false} DrainReturns(env: Env, init: Host, s: State) returns (acts: seq<Act>)
    requires Inv(env, init, s) && s.loop.Draining?
    ensures Cancel !in acts && Moves(env, s, acts).Some? && Moves(env, s, acts).value.loop.Returned?
    decreases LeftOver(env, s.procs)
  {
    hide Inv, Move, LeftOver, Drained;
    DrainNotStuck(env, init, s);
    var a: Act :| !a.Cancel? && Move(env, s, a).Some?;
    var s' := Move(env, s, a).value;
    DrainShrinks(env, s, a);
    MoveKeeps(env, init, s, a);
    if a.Return? {
      acts := [a];
      assert Moves(env, s', []) == Some(s');
    } else {
      var rest := DrainReturns(env, init, s');
      acts := [a] + rest;
      assert acts[1..] == rest;
    }
  }

  lemma NothingAfterReturn(env: Env, s: State, a: Act)
    requires s.loop.Returned? && Drained(s) && Move(env, s, a).Some?
    ensures a.Cancel?
  {
  }

  lemma {:induction false} DrainCount(env: Env, s: State, acts: seq<Act>)
    requires s.loop.Draining? && Moves(env, s, acts).Some? && Cancel !in acts
    ensures |acts| <= LeftOver(env, s.procs) + 1
    decreases |acts|
  {
    if acts != [] {
      DrainShrinks(env, s, acts[0]);
      var s' := Move(env, s, acts[0]).value;
      if acts[0].Return? {
        if |acts| > 1 { NothingAfterReturn(env, s', acts[1]); }
      } else {
        DrainCount(env, s', acts[1..]);
      }
    }
  }

  // ---- what that means for the router ----

  /** The default settings: the sets are updated and FRR is reloaded. */
  ghost predicate Usual(t: Turn) {
    (t.lists.Some? ==> Aggregated(t.lists.value)) && t.input.updateNft && t.input.reload
  }

  ghost predicate UsualActs(acts: seq<Act>) {
    forall k :: 0 <= k < |acts| ==> acts[k].Lock? ==> Usual(Turn(acts[k].lists, acts[k].input, 0))
  }

  ghost predicate UsualHistory(s: State) {
    Exclusive(s) && forall k :: 0 <= k < |History(s)| ==> Usual(History(s)[k])
  }

  /** Two cycles with the same lists and settings, as far as being usual goes. */
  predicate SameSettings(t: Turn, u: Turn) {
    t.lists == u.lists && t.input.updateNft == u.input.updateNft && t.input.reload == u.input.reload
  }

  /** A move that neither takes nor frees the mutex leaves the settings of the cycle under way. */
  lemma SettingsStay(env: Env, s: State, a: Act)
    requires Exclusive(s) && Move(env, s, a).Some? && !a.Lock? && !a.Unlock?
    ensures var s' := Move(env, s, a).value;
            && s'.finished == s.finished && s'.holder == s.holder
            && (s.holder.Some? ==> var g := s.holder.value;
                  g < |s'.procs| && s'.procs[g].Working? && SameSettings(s'.procs[g].turn, s.procs[g].turn))
  {
    hide Steps, Reached, StepCount, NextCall, InReload, Unstarted, CanStep, CanSay, Fits, Drained;
  }

  lemma LockMove(env: Env, s: State, a: Act)
    requires a.Lock? && Move(env, s, a).Some?
    ensures var s' := Move(env, s, a).value;
            && s'.finished == s.finished && s.holder.None? && s'.holder == Some(a.g) && a.g < |s'.procs|
            && s'.procs[a.g].Working? && SameSettings(s'.procs[a.g].turn, Turn(a.lists, a.input, 0))
  {
  }

  lemma UnlockMove(env: Env, s: State, a: Act)
    requires a.Unlock? && Exclusive(s) && Move(env, s, a).Some?
    ensures var s' := Move(env, s, a).value;
            && s.holder == Some(a.g) && s'.holder.None? && a.g < |s.procs| && s.procs[a.g].Working?
            && s'.finished == s.finished + [s.procs[a.g].turn]
  {
    hide StepCount;
  }

  lemma SameIsSame()
    ensures forall t :: SameSettings(t, t)
  {
  }

  /** A move leaves the history, adds a cycle to it or takes the one under way further. */
  lemma MoveHistory(env: Env, s: State, a: Act)
    requires Exclusive(s) && Move(env, s, a).Some? && Exclusive(Move(env, s, a).value)
    ensures var h, h' := History(s), History(Move(env, s, a).value);
            if a.Lock? then h' != [] && h' == h + [h'[|h|]] && SameSettings(h'[|h|], Turn(a.lists, a.input, 0))
            else |h'| == |h| && forall k :: 0 <= k < |h| ==> SameSettings(h'[k], h[k])
  {
    hide Move, Exclusive, SameSettings;
    var s' := Move(env, s, a).value;
    if a.Lock? {
      LockMove(env, s, a);
    } else {
      if a.Unlock? { UnlockMove(env, s, a); } else { SettingsStay(env, s, a); }
      SameIsSame();
    }
  }

  lemma UsualFrom(t: Turn, u: Turn)
    requires SameSettings(t, u) && Usual(u)
    ensures Usual(t)
  {
    hide Aggregated;
  }

  lemma MoveUsual(env: Env, s: State, a: Act)
    requires UsualHistory(s) && Counted(s) && Move(env, s, a).Some? && (a.Lock? ==> Usual(Turn(a.lists, a.input, 0)))
    ensures UsualHistory(Move(env, s, a).value)
  {
    hide Move, Usual, SameSettings, Exclusive, Counted, History;
    MoveKeepsCounts(env, s, a);
    MoveHistory(env, s, a);
    var h, h' := History(s), History(Move(env, s, a).value);
    forall k | 0 <= k < |h'| ensures Usual(h'[k]) {
      if a.Lock? {
        if k == |h| { UsualFrom(h'[k], Turn(a.lists, a.input, 0)); } else { assert h'[k] == h[k]; }
      } else {
        UsualFrom(h'[k], h[k]);
      }
    }
  }

  lemma {:induction false} MovesUsual(env: Env, init: Host, s: State, acts: seq<Act>)
    requires Inv(env, init, s) && UsualHistory(s) && UsualActs(acts) && Moves(env, s, acts).Some?
    ensures UsualHistory(Moves(env, s, acts).value)
    decreases |acts|
  {
    hide Move, Serial, UsualHistory, Usual, Exclusive, Counted;
    if acts != [] {
      MoveKeeps(env, init, s, acts[0]);
      MoveUsual(env, s, acts[0]);
      MovesUsual(env, init, Move(env, s, acts[0]).value, acts[1..]);
    }
  }

  lemma {:induction false} EndedFinished(env: Env, s: Host, ts: seq<Turn>)
    requires AllEnded(env, s, ts) && forall k :: 0 <= k < |ts| ==> Usual(ts[k])
    ensures AllFinished(env, s, ts)
    decreases |ts|
  {
    hide Steps, Reached, Aggregated;
    if ts != [] {
      assert Usual(ts[0]);
      EndedFinished(env, Reached(env, s, ts[0]), ts[1..]);
    }
  }

  /**
    What the concurrent daemon does to the router, whatever interleaves, fails or is under way:
    the operator's text stands, nothing is advertised or written that was not marked first, and
    whenever no cycle is running FRR runs the live file unless some cycle reported an incident that
    was not harmless.
    */
  lemma Daemon(env: Env, oneshot: bool, init: Host, acts: seq<Act>)
    requires Deployed(env, init) && InSync(init) && UsualActs(acts) && Moves(env, Init(oneshot, init), acts).Some?
    ensures var s := Moves(env, Init(oneshot, init), acts).value;
            && Exclusive(s) && Deployed(env, s.host) && s.host.live.Some?
            && SameAround(CutAtBlocks(s.host.live.value, Marks(env)), CutAtBlocks(init.live.value, Marks(env)))
            && Advertised(env.read, s.host.running) + FileNetworks(env.read, s.host)
               <= Networks(env.read, init.live.value) + EverMarked(env, init, History(s))
            && (s.holder.None? ==> InSync(s.host) || SomeHarm(env, init, s.finished))
  {
    hide Move, Steps, Reached, Serial, Counted, GoodEnv, WellPlaced, CutAtBlocks, Marks, Aggregated, Networks;
    hide Exclusive, Marked, Run;
    var s := Moves(env, Init(oneshot, init), acts).value;
    InitInv(env, oneshot, init);
    MovesUsual(env, init, Init(oneshot, init), acts);
    Serializable(env, oneshot, init, acts);
    RunKeepsText(env, init, History(s));
    RunOrdering(env, init, History(s));
    if s.holder.None? {
      assert History(s) == s.finished;
      EndedFinished(env, init, s.finished);
      RunSync(env, init, s.finished);
    }
  }
}
