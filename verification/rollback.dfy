/**
  `applyFRRConfigOpts`: swap frr.conf and reload FRR, undoing the swap when the reload fails.
  The steps are a function from a starting state and the outcome of every outside call to the
  states passed through; a stop of the process leaves one of those states.
  */
module Rollback {
  import opened Cidr
  import opened Text
  import Nft

  /** What FRR runs: a configuration it loaded whole, or whatever a failed reload left. */
  datatype Running = Loaded(cfg: string) | Mixed(networks: set<Prefix>)

  /** The live file, `atomicWrite`'s temporary file, FRR, and the nftables rules. */
  datatype Host = Host(live: Option<string>, temp: Option<string>, running: Running, nft: Nft.Ruleset)

  /** How FRR reads a line of its configuration: the prefix of a `network` statement, or nothing. */
  type Reader = string -> Option<Prefix>

  function NetworksIn(read: Reader, ls: seq<string>): set<Prefix> {
    set l | l in ls && read(l).Some? :: read(l).value
  }

  /** The networks FRR reads in a text. */
  function Networks(read: Reader, cfg: string): set<Prefix> {
    NetworksIn(read, Lines(cfg))
  }

  function Advertised(read: Reader, r: Running): set<Prefix> {
    match r
    case Loaded(cfg) => Networks(read, cfg)
    case Mixed(ns) => ns
  }

  /** FRR runs exactly the live file. */
  predicate InSync(s: Host) {
    s.live.Some? && s.running == Loaded(s.live.value)
  }

  function FileNetworks(read: Reader, s: Host): set<Prefix> {
    match s.live
    case Some(cfg) => Networks(read, cfg)
    case None => {}
  }

  // ---- writing the file ----

  datatype WriteFault =
    | Written
    | CreateFails
    | WriteFails(partial: string)
    | ChmodFails
    | CloseFails
    | RenameFails

  /** The states `atomicWrite` (main.go:997-1033) passes through, the last of them on return. */
  function WriteSteps(s: Host, data: string, f: WriteFault): (steps: seq<Host>)
    ensures |steps| >= 1
  {
    if f.CreateFails? then [s]
    else
      var created := s.(temp := Some(""));
      var written := s.(temp := Some(if f.WriteFails? then f.partial else data));
      [created, written, if f.Written? then s.(live := written.temp, temp := None) else s.(temp := None)]
  }

  function Last(steps: seq<Host>): Host
    requires |steps| >= 1
  {
    steps[|steps| - 1]
  }

  // ---- reloading ----

  /**
    How much of the file a reload that failed brought into FRR: nothing, all of it, or some part
    that is neither text.
    */
  datatype Left = Nothing | Everything | Part(networks: set<Prefix>)

  /** A reload that succeeds, one that cannot start, or one that fails or is killed under way. */
  datatype ReloadFault = Reloaded | NotStarted | ReloadFails(left: Left)

  /** A reload loads the file; a failed one leaves at most some of the networks FRR had or was given. */
  function ReloadStep(read: Reader, s: Host, f: ReloadFault): Host {
    match f
    case Reloaded => LoadFile(s)
    case NotStarted => s
    case ReloadFails(Nothing) => s
    case ReloadFails(Everything) => LoadFile(s)
    case ReloadFails(Part(ns)) => s.(running := Mixed(ns * (Advertised(read, s.running) + FileNetworks(read, s))))
  }

  function LoadFile(s: Host): Host {
    if s.live.Some? then s.(running := Loaded(s.live.value)) else s
  }

  /** The text FRR runs after a reload, if it runs one. */
  function TextAfter(before: Option<string>, file: string, f: ReloadFault): Option<string> {
    match f
    case Reloaded => Some(file)
    case NotStarted => before
    case ReloadFails(Nothing) => before
    case ReloadFails(Everything) => Some(file)
    case ReloadFails(Part(_)) => None
  }

  // ---- the whole swap ----

  /** The outcome of every call out of `applyFRRConfigOpts`, in order. */
  datatype Faults = Faults(
    stagingOk: bool, syntaxOk: bool, backupReadable: bool,
    write: WriteFault, reload: ReloadFault, restore: WriteFault, rollbackReload: ReloadFault)

  datatype Outcome =
    | Applied
    | StagingFailed
    | SyntaxRejected
    | BackupUnreadable
    | WriteFailed
    | NoBackup
    | RestoreFailed
    | RollbackReloadFailed
    | RolledBack

  datatype Trace = Trace(steps: seq<Host>, outcome: Outcome)

  /** rollback.go:61-134. */
  function ApplySteps(read: Reader, s: Host, contents: string, skipReload: bool, f: Faults): (t: Trace)
    ensures |t.steps| >= 1
  {
    if skipReload then
      Trace(WriteSteps(s, contents, f.write), if f.write.Written? then Applied else WriteFailed)
    else if !f.stagingOk then Trace([s], StagingFailed)
    else if !f.syntaxOk then Trace([s], SyntaxRejected)
    else if s.live.Some? && !f.backupReadable then Trace([s], BackupUnreadable)
    else
      var backup := s.live;
      var w := WriteSteps(s, contents, f.write);
      if !f.write.Written? then Trace(w, WriteFailed)
      else
        var r := ReloadStep(read, Last(w), f.reload);
        if f.reload.Reloaded? then Trace(w + [r], Applied)
        else if backup.None? then Trace(w + [r], NoBackup)
        else
          var b := WriteSteps(r, backup.value, f.restore);
          if !f.restore.Written? then Trace(w + [r] + b, RestoreFailed)
          else
            var rr := ReloadStep(read, Last(b), f.rollbackReload);
            Trace(w + [r] + b + [rr], if f.rollbackReload.Reloaded? then RolledBack else RollbackReloadFailed)
  }

  /** The outcomes that name an incident: no backup, a failed restore, a failed rollback reload. */
  predicate Incident(o: Outcome) {
    o.NoBackup? || o.RestoreFailed? || o.RollbackReloadFailed?
  }

  /**
    An incident that leaves FRR in step all the same: what the two reloads did, whatever they
    reported, has FRR running the text that is live. So it is when neither reload could start and
    the old file is back.
    */
  predicate Harmless(was: string, contents: string, f: Faults, o: Outcome) {
    var first := TextAfter(Some(was), contents, f.reload);
    match o
    case RestoreFailed => first == Some(contents)
    case RollbackReloadFailed => TextAfter(first, was, f.rollbackReload) == Some(was)
    case _ => false
  }

  /**
    Desync is never silent. Starting in sync with reload on, the swap ends in sync if its outcome
    names no incident: on the new contents if it reports success, else on the old, byte for byte.
    After an incident it ends in sync exactly when the incident is harmless.
    */
  lemma DesyncNeverSilent(read: Reader, s: Host, contents: string, f: Faults)
    requires InSync(s)
    ensures var t := ApplySteps(read, s, contents, false, f);
            && (InSync(Last(t.steps)) <==> !Incident(t.outcome) || Harmless(s.live.value, contents, f, t.outcome))
            && (t.outcome.Applied? ==> Last(t.steps).live == Some(contents))
            && (!t.outcome.Applied? && !Incident(t.outcome) ==> Last(t.steps).live == s.live)
  {
    hide Networks, Advertised, FileNetworks;
    var t := ApplySteps(read, s, contents, false, f);
    if f.stagingOk && f.syntaxOk && f.backupReadable && f.write.Written? && !f.reload.Reloaded? {
      var w := WriteSteps(s, contents, f.write);
      WriteEnd(s, contents, f.write);
      var r := ReloadStep(read, Last(w), f.reload);
      WriteEnd(r, s.live.value, f.restore);
    }
  }

  /** When neither reload can start, as with a wrong script path, the swap reports an incident and FRR is in step. */
  lemma NotStartedHarmless(read: Reader, s: Host, contents: string, f: Faults)
    requires InSync(s) && f.stagingOk && f.syntaxOk && f.backupReadable && f.write.Written? && f.restore.Written?
    requires f.reload.NotStarted? && f.rollbackReload.NotStarted?
    ensures var t := ApplySteps(read, s, contents, false, f);
            t.outcome == RollbackReloadFailed && Last(t.steps) == s.(temp := None)
  {
    hide Networks, Advertised, FileNetworks;
  }

  /**
    A write, in every case. Until it returns the live file is the old one; then it is the new one if
    the write succeeds, and the temporary file is gone, unless it could not even be created.
    */
  lemma WriteExactly(s: Host, data: string, f: WriteFault)
    ensures var steps := WriteSteps(s, data, f);
            && (forall k :: 0 <= k < |steps| - 1 ==> steps[k] == s.(temp := steps[k].temp) && steps[k].temp.Some?)
            && (f.Written? ==> Last(steps) == s.(live := Some(data), temp := None))
            && (f.CreateFails? ==> Last(steps) == s)
            && (!f.Written? && !f.CreateFails? ==> Last(steps) == s.(temp := None))
  {
  }

  /**
    With the reload switched off the file is written and nothing else happens: at every step FRR runs
    what it ran and nft is not touched, and the outcome is that of the write.
    */
  lemma OnlyWritten(read: Reader, s: Host, contents: string, f: Faults)
    ensures var t := ApplySteps(read, s, contents, true, f);
            && (forall x :: x in t.steps ==> x.running == s.running && x.nft == s.nft)
            && (t.outcome == Applied <==> f.write.Written?) && (t.outcome == WriteFailed <==> !f.write.Written?)
            && (f.write.Written? ==> Last(t.steps) == s.(live := Some(contents), temp := None))
            && (!f.write.Written? ==> Last(t.steps).live == s.live && (Last(t.steps).temp == None || Last(t.steps) == s))
  {
    WriteExactly(s, contents, f.write);
  }

  /** What stands before the reload went well. */
  predicate Ready(s: Host, f: Faults) {
    f.stagingOk && f.syntaxOk && (s.live.Some? ==> f.backupReadable) && f.write.Written?
  }

  /**
    The swap with the reload on, in every case: what goes wrong first decides. Before the write
    nothing changes; a failed write leaves the old file; and a failed reload leaves the new file
    if there was no old one or it could not be written back, and the old one otherwise.
    */
  lemma SwapExactly(read: Reader, s: Host, contents: string, f: Faults)
    ensures var t := ApplySteps(read, s, contents, false, f); var e := Last(t.steps);
            && (!f.stagingOk ==> t == Trace([s], StagingFailed))
            && (f.stagingOk && !f.syntaxOk ==> t == Trace([s], SyntaxRejected))
            && (f.stagingOk && f.syntaxOk && s.live.Some? && !f.backupReadable ==> t == Trace([s], BackupUnreadable))
            && (f.stagingOk && f.syntaxOk && (s.live.Some? ==> f.backupReadable) && !f.write.Written? ==>
                  t.outcome == WriteFailed && e.live == s.live && e.running == s.running && e.nft == s.nft)
            && (Ready(s, f) && f.reload.Reloaded? ==>
                  t.outcome == Applied && e == s.(live := Some(contents), temp := None, running := Loaded(contents)))
            && (Ready(s, f) && !f.reload.Reloaded? && s.live.None? ==> t.outcome == NoBackup && e.live == Some(contents))
            && (Ready(s, f) && !f.reload.Reloaded? && s.live.Some? && !f.restore.Written? ==>
                  t.outcome == RestoreFailed && e.live == Some(contents))
            && (Ready(s, f) && !f.reload.Reloaded? && s.live.Some? && f.restore.Written? && !f.rollbackReload.Reloaded? ==>
                  t.outcome == RollbackReloadFailed && e.live == s.live)
            && (Ready(s, f) && !f.reload.Reloaded? && s.live.Some? && f.restore.Written? && f.rollbackReload.Reloaded? ==>
                  t.outcome == RolledBack && e == s.(temp := None, running := Loaded(s.live.value)))
  {
    hide Networks, Advertised, FileNetworks;
  }

  /** A write changes the live file only to the new data, and nothing else for good. */
  lemma WriteLive(s: Host, data: string, f: WriteFault, x: Host)
    requires x in WriteSteps(s, data, f)
    ensures (x.live == s.live || (x.live == Some(data) && f.Written?)) && x.running == s.running && x.nft == s.nft
  {
  }

  lemma WriteEnd(s: Host, data: string, f: WriteFault)
    ensures Last(WriteSteps(s, data, f)) in WriteSteps(s, data, f)
    ensures f.Written? ==> Last(WriteSteps(s, data, f)).live == Some(data)
  {
  }

  /** At every step the live file is wholly the old one or wholly the new one, and nft is not touched. */
  lemma LiveWhole(read: Reader, s: Host, contents: string, skipReload: bool, f: Faults, x: Host)
    requires x in ApplySteps(read, s, contents, skipReload, f).steps
    ensures x.live == s.live || x.live == Some(contents)
    ensures x.nft == s.nft
  {
    hide Networks, Advertised, FileNetworks, WriteSteps, Last;
    var w := WriteSteps(s, contents, f.write);
    var r := ReloadStep(read, Last(w), f.reload);
    WriteEnd(s, contents, f.write);
    WriteLive(s, contents, f.write, Last(w));
    if x in w { WriteLive(s, contents, f.write, x); }
    if s.live.Some? {
      var b := WriteSteps(r, s.live.value, f.restore);
      WriteEnd(r, s.live.value, f.restore);
      WriteLive(r, s.live.value, f.restore, Last(b));
      if x in b { WriteLive(r, s.live.value, f.restore, x); }
    }
  }

  lemma ReloadBound(read: Reader, s: Host, f: ReloadFault)
    ensures var r := ReloadStep(read, s, f);
            r.live == s.live && Advertised(read, r.running) <= Advertised(read, s.running) + FileNetworks(read, s)
  {
    hide Networks;
  }

  /** At every step FRR advertises only what it did, what the old file has and what the new one has. */
  lemma AdvertisedBound(read: Reader, s: Host, contents: string, skipReload: bool, f: Faults, x: Host)
    requires x in ApplySteps(read, s, contents, skipReload, f).steps
    ensures Advertised(read, x.running) <= Advertised(read, s.running) + FileNetworks(read, s) + Networks(read, contents)
  {
    hide Networks, Advertised, WriteSteps, Last, ReloadStep;
    var w := WriteSteps(s, contents, f.write);
    var r := ReloadStep(read, Last(w), f.reload);
    WriteEnd(s, contents, f.write);
    WriteLive(s, contents, f.write, Last(w));
    ReloadBound(read, Last(w), f.reload);
    if x in w { WriteLive(s, contents, f.write, x); }
    if s.live.Some? {
      var b := WriteSteps(r, s.live.value, f.restore);
      WriteEnd(r, s.live.value, f.restore);
      WriteLive(r, s.live.value, f.restore, Last(b));
      ReloadBound(read, Last(b), f.rollbackReload);
      if x in b { WriteLive(r, s.live.value, f.restore, x); }
    }
  }

  // ---- the code, changing the host step by step ----

  /** The machine georoute runs on. `trace` records the state after every step. */
  class Router {
    const read: Reader
    var live: Option<string>
    var temp: Option<string>
    var running: Running
    var nft: Nft.Ruleset
    ghost var trace: seq<Host>

    constructor (read: Reader, live: Option<string>, running: Running, nft: Nft.Ruleset)
      ensures this.read == read && Now() == Host(live, None, running, nft) && trace == []
    {
      this.read, this.live, this.temp, this.running, this.nft := read, live, None, running, nft;
      trace := [];
    }

    ghost function Now(): Host
      reads this
    {
      Host(live, temp, running, nft)
    }

    ghost method Step()
      modifies this`trace
      ensures trace == old(trace) + [Now()]
    {
      trace := trace + [Now()];
    }

    /** main.go:997-1033. */
    method AtomicWrite(data: string, f: WriteFault) returns (ok: bool)
      modifies this`live, this`temp, this`trace
      ensures ok == f.Written?
      ensures trace == old(trace) + WriteSteps(old(Now()), data, f) && Now() == Last(WriteSteps(old(Now()), data, f))
    {
      if f.CreateFails? {
        Step();
        return false;
      }
      temp := Some("");
      Step();
      if f.WriteFails? {
        temp := Some(f.partial);
        Step();
        temp := None;
        Step();
        return false;
      }
      temp := Some(data);
      Step();
      if f.ChmodFails? || f.CloseFails? || f.RenameFails? {
        temp := None;
        Step();
        return false;
      }
      live := temp;
      temp := None;
      Step();
      ok := true;
    }

    method Reload(f: ReloadFault) returns (ok: bool)
      modifies this`running, this`trace
      ensures ok == f.Reloaded?
      ensures trace == old(trace) + [Now()] && Now() == ReloadStep(read, old(Now()), f)
    {
      match f {
        case NotStarted =>
        case ReloadFails(Nothing) =>
        case ReloadFails(Part(ns)) =>
          var file := if live.Some? then Networks(read, live.value) else {};
          running := Mixed(ns * (Advertised(read, running) + file));
        case _ =>
          if live.Some? {
            running := Loaded(live.value);
          }
      }
      Step();
      ok := f.Reloaded?;
    }

    /** rollback.go:61-134. */
    method ApplyFrrConfig(contents: string, skipReload: bool, f: Faults) returns (o: Outcome)
      modifies this`live, this`temp, this`running, this`trace
      ensures var t := ApplySteps(read, old(Now()), contents, skipReload, f);
              o == t.outcome && trace == old(trace) + t.steps && Now() == Last(t.steps)
    {
      hide Networks, Advertised, FileNetworks, WriteSteps;
      if skipReload {
        var ok := AtomicWrite(contents, f.write);
        return if ok then Applied else WriteFailed;
      }
      if !f.stagingOk {
        Step();
        return StagingFailed;
      }
      if !f.syntaxOk {
        Step();
        return SyntaxRejected;
      }
      if live.Some? && !f.backupReadable {
        Step();
        return BackupUnreadable;
      }
      var backup := live;
      var ok := AtomicWrite(contents, f.write);
      if !ok {
        return WriteFailed;
      }
      ok := Reload(f.reload);
      if ok {
        return Applied;
      }
      if backup.None? {
        return NoBackup;
      }
      ok := AtomicWrite(backup.value, f.restore);
      if !ok {
        return RestoreFailed;
      }
      ok := Reload(f.rollbackReload);
      o := if ok then RolledBack else RollbackReloadFailed;
    }
  }
}
