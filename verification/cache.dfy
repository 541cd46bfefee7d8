/** Fetching the feed: retries, the cache behind them, and what the cache can serve over many cycles. */
module Cache {
  import opened Cidr
  import opened Dotted
  import opened Text
  import Feed

  /** What RIPE Stat answered. */
  datatype Answer = Answer(v4: seq<Feed.Entry>, v6: seq<Feed.Entry>)

  /** One call of `fetch`: an answer, an HTTP status other than 200 with the start of its body, or another error. */
  datatype Attempt =
    | Got(answer: Answer)
    | Status(code: nat, body: string)
    | Broken(text: string)

  /** `fetchWithRetry`: the answer, a cancelled wait between attempts, or the error of the last attempt. */
  datatype Fetch =
    | Fetched(answer: Answer)
    | WaitCancelled
    | Exhausted(last: Option<Attempt>)

  /** The attempts and waits of one cycle, numbered from 1: `cancels(k)` ends the wait before attempt `k`. */
  datatype Net = Net(calls: nat -> Attempt, cancels: nat -> bool)

  function RetryFrom(net: Net, attempts: int, k: nat, last: Option<Attempt>): Fetch
    decreases attempts - k
  {
    if k > attempts then Exhausted(last)
    else if k > 1 && net.cancels(k) then WaitCancelled
    else if net.calls(k).Got? then Fetched(net.calls(k).answer)
    else RetryFrom(net, attempts, k + 1, Some(net.calls(k)))
  }

  /** main.go:738-761. */
  method FetchWithRetry(net: Net, attempts: int) returns (r: Fetch)
    ensures r == RetryFrom(net, attempts, 1, None)
  {
    var lastErr := None;
    var attempt := 1;
    while attempt <= attempts
      invariant attempt >= 1
      invariant RetryFrom(net, attempts, 1, None) == RetryFrom(net, attempts, attempt, lastErr)
      decreases attempts - attempt
    {
      if attempt > 1 && net.cancels(attempt) {
        return WaitCancelled;
      }
      var resp := net.calls(attempt);
      if resp.Got? {
        return Fetched(resp.answer);
      }
      lastErr := Some(resp);
      attempt := attempt + 1;
    }
    r := Exhausted(lastErr);
  }

  /** The attempts before `k` all failed and no wait before them or before `k` was cancelled. */
  predicate FailsUpTo(net: Net, k: nat) {
    forall j :: 1 <= j < k ==> !net.calls(j).Got? && (j > 1 ==> !net.cancels(j))
  }

  lemma {:induction false} RetryMeaningFrom(net: Net, attempts: int, k: nat, last: Option<Attempt>)
    requires 1 <= k <= attempts + 1 && FailsUpTo(net, k) && last == if k == 1 then None else Some(net.calls(k - 1))
    ensures var r := RetryFrom(net, attempts, k, last);
            && (r.Fetched? <==> exists j :: FirstSuccess(net, attempts, j))
            && (r.WaitCancelled? <==> exists j :: FirstCancel(net, attempts, j))
            && (forall j :: FirstSuccess(net, attempts, j) ==> r == Fetched(net.calls(j).answer))
            && (r.Exhausted? ==> r.last == if attempts < 1 then None else Some(net.calls(attempts)))
    decreases attempts - k
  {
    if k <= attempts {
      if k > 1 && net.cancels(k) {
        assert FirstCancel(net, attempts, k);
      } else if net.calls(k).Got? {
        assert FirstSuccess(net, attempts, k);
      } else {
        RetryMeaningFrom(net, attempts, k + 1, Some(net.calls(k)));
      }
    }
  }

  predicate FirstSuccess(net: Net, attempts: int, j: nat) {
    1 <= j <= attempts && FailsUpTo(net, j) && (j > 1 ==> !net.cancels(j)) && net.calls(j).Got?
  }

  predicate FirstCancel(net: Net, attempts: int, j: nat) {
    1 < j <= attempts && FailsUpTo(net, j) && net.cancels(j)
  }

  /** The first success wins if no wait before it is cancelled; with neither, the error is that of the last attempt. */
  lemma RetryMeaning(net: Net, attempts: int)
    ensures var r := RetryFrom(net, attempts, 1, None);
            && (r.Fetched? <==> exists j :: FirstSuccess(net, attempts, j))
            && (r.WaitCancelled? <==> exists j :: FirstCancel(net, attempts, j))
            && (forall j :: FirstSuccess(net, attempts, j) ==> r == Fetched(net.calls(j).answer))
            && (r.Exhausted? ==> r.last == if attempts < 1 then None else Some(net.calls(attempts)))
  {
    if attempts >= 0 { RetryMeaningFrom(net, attempts, 1, None); }
  }

  // ---- telling client errors by their text ----

  const HEAD := "retries exhausted: RIPE Stat HTTP error: "

  function Front(code: nat): string {
    HEAD + "status=" + Dec(code) + " body="
  }

  /** `err.Error()` of an exhausted fetch that ended in an HTTP status. */
  function Message(code: nat, body: string): string {
    Front(code) + body
  }

  function Needle(code: nat): string {
    "status=" + Dec(code)
  }

  /** cache.go:199-210. */
  method ContainsStr(s: string, sub: string) returns (found: bool)
    ensures found <==> exists i :: OccursAt(s, sub, i)
  {
    if |sub| > |s| {
      return false;
    }
    var i := 0;
    while i + |sub| <= |s|
      invariant forall j :: j < i ==> !OccursAt(s, sub, j)
    {
      if s[i..i + |sub|] == sub {
        assert OccursAt(s, sub, i);
        return true;
      }
      i := i + 1;
    }
    found := false;
  }

  /** The text quotes a status from 400 to 499. */
  ghost predicate Quotes4xx(text: string) {
    exists code, i :: 400 <= code < 500 && OccursAt(text, Needle(code), i)
  }

  /** cache.go:182-195. */
  method IsClientError(f: Fetch) returns (client: bool)
    ensures client <==> f.Exhausted? && f.last.Some? && f.last.value.Status?
                        && Quotes4xx(Message(f.last.value.code, f.last.value.body))
  {
    if !(f.Exhausted? && f.last.Some? && f.last.value.Status?) {
      return false;
    }
    var msg := Message(f.last.value.code, f.last.value.body);
    for code := 400 to 500
      invariant forall c, i :: 400 <= c < code ==> !OccursAt(msg, Needle(c), i)
    {
      var found := ContainsStr(msg, Needle(code));
      if found {
        return true;
      }
    }
    client := false;
  }

  lemma ThreeDigits(code: nat)
    requires 100 <= code < 1000
    ensures |Dec(code)| == 3 && forall i :: 0 <= i < 3 ==> IsDigit(Dec(code)[i])
  {
    DecReads(code);
    assert |Dec(code / 10 / 10)| == 1 && |Dec(code / 10)| == 2;
  }

  lemma FrontShape(code: nat)
    requires 100 <= code < 1000
    ensures |Front(code)| == |HEAD| + 16 && Front(code)[|HEAD| + 14] == 'y' && Front(code)[|HEAD| + 15] == '='
    ensures forall p :: 0 <= p < |Front(code)| && Front(code)[p] == '=' ==> p == |HEAD| + 6 || p == |HEAD| + 15
    ensures Front(code)[|HEAD|..|HEAD| + 10] == Needle(code)
  {
    ThreeDigits(code);
    var f := Front(code);
    forall p | 0 <= p < |f| ensures f[p] == '=' ==> p == |HEAD| + 6 || p == |HEAD| + 15 {
      if p < |HEAD| {
        NoEquals(p);
      } else if p < |HEAD| + 7 {
        assert f[p] == "status="[p - |HEAD|];
      } else if p < |HEAD| + 10 {
        assert f[p] == Dec(code)[p - |HEAD| - 7];
      } else {
        assert f[p] == " body="[p - |HEAD| - 10];
      }
    }
  }

  lemma NoEquals(p: nat)
    requires p < |HEAD|
    ensures HEAD[p] != '='
  {
  }

  /** A status is quoted where the message puts it, or in the body. */
  lemma QuotedWhere(code: nat, body: string, c: nat, i: int)
    requires 100 <= code < 1000 && 100 <= c < 1000 && OccursAt(Message(code, body), Needle(c), i)
    ensures i == |HEAD| || i >= |Front(code)|
  {
    hide Dec;
    var s, f, n := Message(code, body), Front(code), Needle(c);
    FrontShape(code);
    ThreeDigits(c);
    OccursChar(s, n, i, 6);
    OccursChar(s, n, i, 5);
    if i < |f| <= i + 6 { OccursChar(s, n, i, |f| - 1 - i); }
  }

  /** A message counts as a client error exactly when its status is one or its body quotes one. */
  lemma QuotesExactly(code: nat, body: string)
    requires 100 <= code < 1000
    ensures Quotes4xx(Message(code, body)) <==> 400 <= code < 500 || Quotes4xx(body)
  {
    hide Dec, Front, Needle;
    FrontShape(code);
    if 400 <= code < 500 {
      QuotedStatus(code, body, code);
    }
    if Quotes4xx(body) {
      var c, i :| 400 <= c < 500 && OccursAt(body, Needle(c), i);
      QuotedBody(code, body, c, i + |Front(code)|);
    }
    if Quotes4xx(Message(code, body)) {
      var c, i :| 400 <= c < 500 && OccursAt(Message(code, body), Needle(c), i);
      QuotedWhere(code, body, c, i);
      if i == |HEAD| { QuotedStatus(code, body, c); } else { QuotedBody(code, body, c, i); }
    }
  }

  lemma QuotedStatus(code: nat, body: string, c: nat)
    requires 100 <= code < 1000 && 100 <= c < 1000
    ensures OccursAt(Message(code, body), Needle(c), |HEAD|) <==> c == code
  {
    FrontShape(code);
    ThreeDigits(c);
    OccursLeft(Front(code), body, Needle(c), |HEAD|);
    DecReads(c);
    DecReads(code);
    assert Needle(c)[7..] == Dec(c) && Needle(code)[7..] == Dec(code);
  }

  lemma QuotedBody(code: nat, body: string, c: nat, i: int)
    requires i >= |Front(code)|
    ensures OccursAt(Message(code, body), Needle(c), i) <==> OccursAt(body, Needle(c), i - |Front(code)|)
  {
    OccursRight(Front(code), body, Needle(c), i);
  }

  /** So a server error can count as a client error: 503 with a body that quotes 404. */
  lemma ServerErrorCounts()
    ensures var body := "status=404"; Quotes4xx(Message(503, body)) && ClientFault(Exhausted(Some(Status(503, body))))
  {
    DecOf404();
    assert OccursAt("status=404", Needle(404), 0);
    QuotesExactly(503, "status=404");
  }

  lemma DecOf404()
    ensures Dec(404) == "404"
  {
    assert Dec(4) == "4" && Dec(40) == "40";
  }

  ghost predicate ClientFault(f: Fetch) {
    f.Exhausted? && f.last.Some? && f.last.value.Status? && Quotes4xx(Message(f.last.value.code, f.last.value.body))
  }

  // ---- the cache file ----

  /** What the gzip stream in a file decodes to: nothing while it is cut off, or the answer. */
  datatype Content = Truncated | Full(answer: Answer)

  datatype Stored = Stored(content: Content, at: int)

  /** The cache file and the temporary file of a write. */
  datatype Files = Files(cache: Option<Stored>, temp: Option<Stored>)

  datatype WriteFault =
    | NoFault
    | MkdirFails
    | CreateFails
    | EncodeFails
    | GzipFails
    | ChmodFails
    | CloseFails
    | RenameFails

  /** The states `writeCachedFeed` (cache.go:47-98) passes through, the last of them on return. */
  function WriteSteps(s: Files, answer: Answer, now: int, f: WriteFault): (steps: seq<Files>)
    ensures |steps| >= 1
  {
    if f.MkdirFails? || f.CreateFails? then [s]
    else
      var created := s.(temp := Some(Stored(Truncated, now)));
      var dropped := s.(temp := None);
      if f.EncodeFails? || f.GzipFails? then [created, dropped]
      else
        var flushed := s.(temp := Some(Stored(Full(answer), now)));
        [created, flushed, if f.NoFault? then Files(flushed.temp, None) else dropped]
  }

  /** A write, stopped anywhere, leaves the old cache file or the complete new one, never a truncated one. */
  lemma CacheWhole(s: Files, answer: Answer, now: int, f: WriteFault, x: Files)
    requires x in WriteSteps(s, answer, now, f)
    ensures x.cache == s.cache || (f.NoFault? && x.cache == Some(Stored(Full(answer), now)))
    ensures s.cache.Some? ==> x.cache.Some?
  {
  }

  /**
    What one cycle meets: the network, how a cache write goes and after how many of its steps the
    process stops, the time of the write or of the read, and whether the file can be opened.
    */
  datatype Turn = Turn(net: Net, write: WriteFault, stop: nat, now: int, readable: bool)

  datatype Source =
    | Fresh(answer: Answer)
    | FromCache(answer: Answer)
    | ClientError
    | NoCache
    | CacheUnusable

  /** There, no older than the limit, readable, and it decodes. */
  predicate Usable(s: Option<Stored>, t: Turn, maxAge: int) {
    s.Some? && t.now - s.value.at <= maxAge && t.readable && s.value.content.Full?
  }

  /** The states a cycle leads the files through. */
  function CacheSteps(s: Files, t: Turn, cached: bool, attempts: int): (steps: seq<Files>)
    ensures |steps| >= 1
  {
    var f := RetryFrom(t.net, attempts, 1, None);
    if f.Fetched? && cached then WriteSteps(s, f.answer, t.now, t.write) else [s]
  }

  function Last(steps: seq<Files>): Files
    requires |steps| >= 1
  {
    steps[|steps| - 1]
  }

  /** What a cycle leaves, stopped or not. */
  function Kept(s: Files, t: Turn, cached: bool, attempts: int): Files {
    var steps := CacheSteps(s, t, cached, attempts);
    if t.stop == 0 then s else if t.stop <= |steps| then steps[t.stop - 1] else Last(steps)
  }

  /** What a cycle gets. */
  ghost function Served(s: Option<Stored>, t: Turn, cached: bool, maxAge: int, attempts: int): Source {
    var f := RetryFrom(t.net, attempts, 1, None);
    if f.Fetched? then Fresh(f.answer)
    else if ClientFault(f) then ClientError
    else if !cached then NoCache
    else if Usable(s, t, maxAge) then FromCache(s.value.content.answer)
    else CacheUnusable
  }

  /** The cache on disk. `trace` records the files after every step. */
  class FeedCache {
    var cache: Option<Stored>
    var temp: Option<Stored>
    ghost var trace: seq<Files>

    constructor (cache: Option<Stored>)
      ensures Now() == Files(cache, None) && trace == []
    {
      this.cache, temp, trace := cache, None, [];
    }

    ghost function Now(): Files
      reads this
    {
      Files(cache, temp)
    }

    ghost method Step()
      modifies this`trace
      ensures trace == old(trace) + [Now()]
    {
      trace := trace + [Now()];
    }

    /** cache.go:47-98. */
    method WriteCachedFeed(answer: Answer, now: int, f: WriteFault) returns (ok: bool)
      modifies this
      ensures ok == f.NoFault?
      ensures trace == old(trace) + WriteSteps(old(Now()), answer, now, f)
      ensures Now() == Last(WriteSteps(old(Now()), answer, now, f))
    {
      if f.MkdirFails? || f.CreateFails? {
        Step();
        return false;
      }
      temp := Some(Stored(Truncated, now));
      Step();
      if f.EncodeFails? || f.GzipFails? {
        temp := None;
        Step();
        return false;
      }
      temp := Some(Stored(Full(answer), now));
      Step();
      if f.ChmodFails? || f.CloseFails? || f.RenameFails? {
        temp := None;
        Step();
        return false;
      }
      cache := temp;
      temp := None;
      Step();
      ok := true;
    }

    /** cache.go:103-137. */
    method ReadCachedFeed(t: Turn, maxAge: int) returns (r: Option<Answer>)
      ensures r == if Usable(cache, t, maxAge) then Some(cache.value.content.answer) else None
    {
      if cache.None? {
        return None;
      }
      var age := t.now - cache.value.at;
      if age > maxAge || !t.readable {
        return None;
      }
      match cache.value.content {
        case Truncated => r := None;
        case Full(answer) => r := Some(answer);
      }
    }

    /** cache.go:146-177. */
    method FetchWithCache(t: Turn, cached: bool, maxAge: int, attempts: int) returns (r: Source)
      modifies this
      ensures trace == old(trace) + CacheSteps(old(Now()), t, cached, attempts)
      ensures Now() == Last(CacheSteps(old(Now()), t, cached, attempts))
      ensures r == Served(old(cache), t, cached, maxAge, attempts)
    {
      var f := FetchWithRetry(t.net, attempts);
      if f.Fetched? {
        if cached {
          var _ := WriteCachedFeed(f.answer, t.now, t.write);
        } else {
          Step();
        }
        return Fresh(f.answer);
      }
      Step();
      var client := IsClientError(f);
      if client {
        return ClientError;
      }
      if !cached {
        return NoCache;
      }
      var c := ReadCachedFeed(t, maxAge);
      if c.None? {
        return CacheUnusable;
      }
      r := FromCache(c.value);
    }
  }

  // ---- histories ----

  function After(init: Files, turns: seq<Turn>, cached: bool, attempts: int): Files {
    if turns == [] then init
    else Kept(After(init, turns[..|turns| - 1], cached, attempts), turns[|turns| - 1], cached, attempts)
  }

  /** The cycle fetched an answer and its cache write got past the rename. */
  predicate Wrote(t: Turn, cached: bool, attempts: int) {
    RetryFrom(t.net, attempts, 1, None).Fetched? && cached && t.write.NoFault? && t.stop >= 3
  }

  /** A cycle that did not get there leaves the cache file alone, wherever it was stopped. */
  lemma KeptCache(s: Files, t: Turn, cached: bool, attempts: int)
    ensures Kept(s, t, cached, attempts).cache ==
            if Wrote(t, cached, attempts) then Some(Stored(Full(RetryFrom(t.net, attempts, 1, None).answer), t.now)) else s.cache
  {
    hide RetryFrom;
  }

  /** `i` is the latest cycle before `j` that wrote the cache. */
  predicate LatestWrite(turns: seq<Turn>, i: nat, j: nat, cached: bool, attempts: int)
    requires j <= |turns|
  {
    i < j && Wrote(turns[i], cached, attempts) && forall k :: i < k < j ==> !Wrote(turns[k], cached, attempts)
  }

  /** The stored answer is the one the cycle fetched, with its time. */
  predicate Holds(s: Option<Stored>, t: Turn, attempts: int) {
    s.Some? && s.value.content.Full? && RetryFrom(t.net, attempts, 1, None) == Fetched(s.value.content.answer) && s.value.at == t.now
  }

  /** The cache file is that of the latest cycle that wrote it, complete, or the one there was at the start. */
  lemma {:induction false} StoredIsLatest(init: Files, turns: seq<Turn>, j: nat, cached: bool, attempts: int)
    requires j <= |turns|
    ensures var s := After(init, turns[..j], cached, attempts).cache;
            || (s == init.cache && forall i :: 0 <= i < j ==> !Wrote(turns[i], cached, attempts))
            || exists i: nat :: LatestWrite(turns, i, j, cached, attempts) && Holds(s, turns[i], attempts)
  {
    hide RetryFrom, Kept, Wrote, Holds;
    if j > 0 {
      StoredIsLatest(init, turns, j - 1, cached, attempts);
      assert turns[..j][..j - 1] == turns[..j - 1];
      var before, t := After(init, turns[..j - 1], cached, attempts), turns[j - 1];
      if Wrote(t, cached, attempts) {
        WroteHolds(before, t, cached, attempts);
        JustWrote(turns, j, cached, attempts);
      } else {
        KeptCache(before, t, cached, attempts);
        if i: nat :| LatestWrite(turns, i, j - 1, cached, attempts) && Holds(before.cache, turns[i], attempts) {
          StillLatest(turns, i, j, cached, attempts);
        }
      }
    }
  }

  lemma WroteHolds(s: Files, t: Turn, cached: bool, attempts: int)
    requires Wrote(t, cached, attempts)
    ensures Holds(Kept(s, t, cached, attempts).cache, t, attempts)
  {
    hide RetryFrom, Kept;
    KeptCache(s, t, cached, attempts);
  }

  lemma JustWrote(turns: seq<Turn>, j: nat, cached: bool, attempts: int)
    requires 0 < j <= |turns| && Wrote(turns[j - 1], cached, attempts)
    ensures LatestWrite(turns, j - 1, j, cached, attempts)
  {
    hide Wrote;
  }

  lemma StillLatest(turns: seq<Turn>, i: nat, j: nat, cached: bool, attempts: int)
    requires 0 < j <= |turns| && LatestWrite(turns, i, j - 1, cached, attempts) && !Wrote(turns[j - 1], cached, attempts)
    ensures LatestWrite(turns, i, j, cached, attempts)
  {
    hide Wrote;
  }

  /**
    Over any history of cycles, stopped or failing anywhere: a feed served from the cache is the one
    fetched by the latest cycle that fetched and wrote it, or that of the file there was at the start
    if none did, and it was written no more than `maxAge` ago.
    */
  lemma CacheHistory(init: Files, turns: seq<Turn>, j: nat, cached: bool, maxAge: int, attempts: int, answer: Answer)
    requires j < |turns|
    requires Served(After(init, turns[..j], cached, attempts).cache, turns[j], cached, maxAge, attempts) == FromCache(answer)
    ensures || (exists i: nat :: LatestWrite(turns, i, j, cached, attempts)
                                 && RetryFrom(turns[i].net, attempts, 1, None) == Fetched(answer)
                                 && turns[j].now - turns[i].now <= maxAge)
            || ((forall i :: 0 <= i < j ==> !Wrote(turns[i], cached, attempts))
                && init.cache.Some? && init.cache.value.content == Full(answer) && turns[j].now - init.cache.value.at <= maxAge)
  {
    hide RetryFrom, Wrote;
    StoredIsLatest(init, turns, j, cached, attempts);
    var s := After(init, turns[..j], cached, attempts).cache;
    if exists i: nat :: LatestWrite(turns, i, j, cached, attempts) && Holds(s, turns[i], attempts) {
      var i: nat :| LatestWrite(turns, i, j, cached, attempts) && Holds(s, turns[i], attempts);
      assert RetryFrom(turns[i].net, attempts, 1, None) == Fetched(answer);
    }
  }

  // ---- what is served, for every outcome ----

  /** No attempt succeeds before a wait is cancelled or the attempts are used up. */
  ghost predicate NoSuccess(net: Net, attempts: int) {
    forall j: nat :: !FirstSuccess(net, attempts, j)
  }

  /** All attempts were made, and the last was answered with a status whose message quotes one from 400 to 499. */
  ghost predicate LastIsClientError(net: Net, attempts: int) {
    && attempts >= 1 && (forall j: nat :: !FirstCancel(net, attempts, j)) && net.calls(attempts).Status?
    && Quotes4xx(Message(net.calls(attempts).code, net.calls(attempts).body))
  }

  /** For a status of three digits: it is one of these itself, or the body quotes one. */
  lemma LastIsClientErrorExactly(net: Net, attempts: int)
    requires attempts >= 1 && net.calls(attempts).Status? ==> 100 <= net.calls(attempts).code < 1000
    ensures LastIsClientError(net, attempts) <==>
              && attempts >= 1 && (forall j: nat :: !FirstCancel(net, attempts, j)) && net.calls(attempts).Status?
              && (400 <= net.calls(attempts).code < 500 || Quotes4xx(net.calls(attempts).body))
  {
    hide Quotes4xx, Message, FirstCancel;
    if attempts >= 1 && net.calls(attempts).Status? {
      QuotesExactly(net.calls(attempts).code, net.calls(attempts).body);
    }
  }

  /**
    What a cycle gets, in every case. The answer of the first attempt that succeeds, whatever the
    cache write does. Without one, unless the last attempt ended in a client error: the cached answer
    if and only if there is a cache and its file is there, can be opened, is complete and was written
    no more than `maxAge` ago. So a 5xx status, a network error, no attempt at all and a cancelled
    wait all fall back to the cache. Otherwise the error, of the kind that applies.
    */
  lemma ServedExactly(s: Option<Stored>, t: Turn, cached: bool, maxAge: int, attempts: int)
    ensures var r := Served(s, t, cached, maxAge, attempts);
            var usable := s.Some? && t.readable && s.value.content.Full? && t.now - s.value.at <= maxAge;
            var client := LastIsClientError(t.net, attempts);
            && (forall j: nat :: FirstSuccess(t.net, attempts, j) ==> r == Fresh(t.net.calls(j).answer))
            && (NoSuccess(t.net, attempts) ==>
                  && (client ==> r == ClientError)
                  && (!client && !cached ==> r == NoCache)
                  && (!client && cached && usable ==> r == FromCache(s.value.content.answer))
                  && (!client && cached && !usable ==> r == CacheUnusable))
            && (r.FromCache? <==> NoSuccess(t.net, attempts) && !client && cached && usable)
  {
    hide RetryFrom, FirstSuccess, FirstCancel, Quotes4xx, Message;
    RetryMeaning(t.net, attempts);
    var f := RetryFrom(t.net, attempts, 1, None);
    if NoSuccess(t.net, attempts) {
      assert !f.Fetched?;
      assert f.WaitCancelled? <==> exists j: nat :: FirstCancel(t.net, attempts, j);
    } else {
      var j: nat :| FirstSuccess(t.net, attempts, j);
      assert f.Fetched?;
    }
  }

  /**
    And what it leaves in the cache file, run to its end: a new one if and only if it fetched, has a
    cache and the write succeeds.
    */
  lemma KeptExactly(s: Files, t: Turn, cached: bool, attempts: int)
    ensures var k := Last(CacheSteps(s, t, cached, attempts));
            && (forall j: nat :: FirstSuccess(t.net, attempts, j) && cached && t.write.NoFault? ==>
                  k == Files(Some(Stored(Full(t.net.calls(j).answer), t.now)), None))
            && ((NoSuccess(t.net, attempts) || !cached) ==> CacheSteps(s, t, cached, attempts) == [s])
            && (!t.write.NoFault? ==> k.cache == s.cache)
            && (!t.write.NoFault? && k != s ==> k.temp == None)
  {
    hide RetryFrom, FirstSuccess, FirstCancel;
    RetryMeaning(t.net, attempts);
    if !NoSuccess(t.net, attempts) {
      var j: nat :| FirstSuccess(t.net, attempts, j);
    }
  }

  // ---- client errors and the cache ----

  /** How many attempts a cycle makes. */
  function Made(net: Net, attempts: int, k: nat): nat
    decreases attempts - k
  {
    if k > attempts || (k > 1 && net.cancels(k)) then if k == 0 then 0 else k - 1
    else if net.calls(k).Got? then k
    else Made(net, attempts, k + 1)
  }

  predicate Is4xx(a: Attempt) {
    a.Status? && 400 <= a.code < 500
  }

  /** The wait after attempt `n` was cancelled, and there was an attempt left. */
  predicate CutShort(net: Net, attempts: int, n: nat) {
    n < attempts && net.cancels(n + 1)
  }

  lemma {:induction false} LastAttempt(net: Net, attempts: int, k: nat, last: Option<Attempt>)
    requires 1 <= k <= attempts + 1 && FailsUpTo(net, k) && last == if k == 1 then None else Some(net.calls(k - 1))
    requires Made(net, attempts, k) > 0 && Is4xx(net.calls(Made(net, attempts, k)))
    ensures var n := Made(net, attempts, k);
            RetryFrom(net, attempts, k, last) ==
            if CutShort(net, attempts, n) then WaitCancelled else Exhausted(Some(net.calls(n)))
    decreases attempts - k
  {
    if k <= attempts && !(k > 1 && net.cancels(k)) && !net.calls(k).Got? {
      LastAttempt(net, attempts, k + 1, Some(net.calls(k)));
    }
  }

  /**
    A cycle whose last attempt ended in a 4xx status serves the cache exactly when the process was
    told to stop during the wait that followed and the cache is usable: the error is then that of
    the wait, which does not count as a client error.
    */
  lemma ClientErrorServes(s: Option<Stored>, t: Turn, cached: bool, maxAge: int, attempts: int)
    requires attempts >= 1 && var n := Made(t.net, attempts, 1); n > 0 && Is4xx(t.net.calls(n))
    ensures var n := Made(t.net, attempts, 1);
            Served(s, t, cached, maxAge, attempts).FromCache? <==>
            CutShort(t.net, attempts, n) && cached && Usable(s, t, maxAge)
  {
    hide Quotes4xx, Message, Made, RetryFrom;
    var n := Made(t.net, attempts, 1);
    LastAttempt(t.net, attempts, 1, None);
    QuotesExactly(t.net.calls(n).code, t.net.calls(n).body);
  }

  /**
    So "a 4xx never serves the cache" is false: a first attempt answered 404, and a stop while
    waiting for the second.
    */
  lemma ClientErrorCanServe()
    ensures exists s, t: Turn, maxAge :: Is4xx(t.net.calls(Made(t.net, 2, 1))) && Served(s, t, true, maxAge, 2).FromCache?
  {
    var t := Turn(Net(k => Status(404, ""), k => true), NoFault, 0, 1, true);
    var s := Some(Stored(Full(Answer([], [])), 0));
    assert RetryFrom(t.net, 2, 2, Some(Status(404, ""))) == WaitCancelled;
    assert RetryFrom(t.net, 2, 1, None) == WaitCancelled;
    assert Made(t.net, 2, 2) == 1 && Made(t.net, 2, 1) == 1;
    assert Served(s, t, true, 1, 2).FromCache?;
  }
}
