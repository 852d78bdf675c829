/** The exact conditions, in bytes: for every condition that fails there is a network on which the driver fails. */
module WireTheorems {
  import opened Bytes
  import opened Cobs
  import opened DriverSimulation
  import opened EchoTails
  import opened Frames
  import opened Link
  import opened Network
  import opened Rs485Protocol
  import opened Segments
  import opened Simulation
  import opened StopAndWait
  import opened StopAndWaitLimits
  import opened StopAndWaitRuns
  import opened StopAndWaitTheorems
  import opened WireCalls
  import opened WireRuns
  import opened WireSafety
  import opened Wrappers

  // ---- Logs ----

  function SendsOf(log: seq<Entry>): (ops: seq<Op>)
    ensures |ops| == |log|
  {
    seq(|log|, i requires 0 <= i < |log| => Sends(log[i].payload))
  }

  lemma SendsConcat(a: seq<Entry>, b: seq<Entry>)
    ensures SendsOf(a) + SendsOf(b) == SendsOf(a + b)
  {
  }

  lemma SendsAppend(log: seq<Entry>, e: Entry)
    ensures SendsOf(log) + [Sends(e.payload)] == SendsOf(log + [e])
  {
  }

  lemma SendsThrough(log: seq<Entry>, a: nat, c: nat)
    requires a <= c <= |log|
    ensures SendsOf(log[..a]) + SendsOf(log[a..c]) == SendsOf(log[..c]) && log[..a] + log[a..c] == log[..c]
  {
    SendsConcat(log[..a], log[a..c]);
    assert log[..a] + log[a..c] == log[..c];
  }

  lemma SendsNext(log: seq<Entry>, c: nat)
    requires c < |log|
    ensures SendsOf(log[..c]) + [Sends(log[c].payload)] == SendsOf(log[..c + 1])
    ensures log[..c] + [Entry(log[c].payload, log[c].ok)] == log[..c + 1]
  {
    SendsAppend(log[..c], log[c]);
    assert log[..c] + [log[c]] == log[..c + 1];
  }

  lemma SendsFirst(ops: seq<Op>, before: seq<Entry>, log: seq<Entry>)
    requires log != []
    ensures ops + [Sends(log[0].payload)] + SendsOf(log[1..]) == ops + SendsOf(log)
    ensures before + [Entry(log[0].payload, log[0].ok)] + log[1..] == before + log
  {
    SendsConcat([log[0]], log[1..]);
    assert [log[0]] + log[1..] == log && SendsOf([log[0]]) == [Sends(log[0].payload)];
  }

  /** The calls heard are those that succeeded, and call e; none of those behind e and before hi. */
  ghost predicate HeardAre(g: Stage, e: nat, hi: nat) {
    forall h | h in g.heard ::
      && h.from < |g.owners| && g.owners[h.from].Some?
      && var x := g.owners[h.from].value; x < |g.log| && (g.log[x].ok || x == e) && (x <= e || x >= hi)
  }

  lemma HeardStays(g: Stage, p: seq<byte>, n: nat, ok: bool, back: seq<seq<byte>>, rest: Option<seq<byte>>,
                   more: seq<Hearing>, e: nat, hi: nat)
    requires HeardAre(g, e, hi) && forall h | h in more :: |g.owners| <= h.from < |g.owners| + n
    requires more == [] || ((ok || |g.log| == e) && (|g.log| <= e || |g.log| >= hi))
    ensures HeardAre(Staged(g, p, n, ok, back, rest, g.heard + more), e, hi)
  {
    var g' := Staged(g, p, n, ok, back, rest, g.heard + more);
    forall h | h in g'.heard
      ensures && h.from < |g'.owners| && g'.owners[h.from].Some?
              && var x := g'.owners[h.from].value; x < |g'.log| && (g'.log[x].ok || x == e) && (x <= e || x >= hi)
    {
      if h in g.heard {
        assert g'.owners[h.from] == g.owners[h.from];
        assert g'.log[g.owners[h.from].value] == g.log[g.owners[h.from].value];
      } else {
        assert g'.owners[h.from] == Some(|g.log|);
      }
    }
  }

  lemma HeardSame(g: Stage, p: seq<byte>, n: nat, ok: bool, back: seq<seq<byte>>, rest: Option<seq<byte>>, e: nat,
                  hi: nat)
    requires HeardAre(g, e, hi)
    ensures HeardAre(Staged(g, p, n, ok, back, rest, g.heard), e, hi)
  {
    hide HeardAre, Staged;
    HeardStays(g, p, n, ok, back, rest, [], e, hi);
    assert g.heard + [] == g.heard;
  }

  lemma StageNumber(plan: Plan, ops: seq<Op>, g: Stage)
    requires At(plan, ops, g)
    ensures g.number == Nth(Number(g.log, |g.log|))
  {
    hide Reachable, FreshDriver, Follows, Mid, Log, Number, Nth, HeardMatches;
    var s, arrived := EveryTraceReachable(plan, AllAccepted(), ops);
    FollowsIs(plan, FreshDriver(plan, AllAccepted(), ops), s, arrived);
    CallsAsLogged(s);
    assert |Log(s.calls)| == |s.calls|;
  }

  /** Calls that succeed are heard once and acknowledged, calls that fail are not heard. */
  function PlayScript(log: seq<Entry>): seq<seq<Happening>> {
    if log == [] then [] else (if log[0].ok then [ACKED] else Losses(4)) + PlayScript(log[1..])
  }

  lemma {:induction false} PlayedOnWire(plan: Plan, ops: seq<Op>, g: Stage, log: seq<Entry>, e: nat, hi: nat)
    returns (g': Stage)
    requires At(plan, ops, g) && g.rest.None? && (g.back == [] || forall x | x in log :: !x.ok) && Payloads(log)
    requires Scripted(plan, |g.owners|, PlayScript(log))
    requires HeardAre(g, e, hi) && (|g.log| >= hi || |g.log| + |log| <= e || forall x | x in log :: !x.ok)
    ensures At(plan, ops + SendsOf(log), g') && g'.log == g.log + log && g'.received == g.received
    ensures g'.back == g.back && g'.rest.None? && |g'.owners| == |g.owners| + |PlayScript(log)|
    ensures HeardAre(g', e, hi) && ((forall x | x in log :: !x.ok) ==> g'.number == g.number)
    decreases log
  {
    hide At, Scripted, HeardAre;
    g' := g;
    if log == [] {
      assert ops + SendsOf([]) == ops && g.log + [] == g.log;
    } else {
      var x := log[0];
      var first := if x.ok then [ACKED] else Losses(4);
      assert x in log;
      ScriptedParts(plan, |g.owners|, first, PlayScript(log[1..]));
      var next;
      if x.ok {
        var more := [Hearing(FrameAt(g, x.payload), |g.owners|)];
        GoodOnWire(plan, ops, g, x.payload, true);
        next := Staged(g, x.payload, 1, true, [], None, g.heard + more);
        HeardStays(g, x.payload, 1, true, [], None, more, e, hi);
      } else {
        FailedOnWire(plan, ops, g, x.payload);
        next := Staged(g, x.payload, 4, false, g.back, None, g.heard);
        HeardSame(g, x.payload, 4, false, g.back, None, e, hi);
      }
      g' := PlayedOnWire(plan, ops + [Sends(x.payload)], next, log[1..], e, hi);
      SendsFirst(ops, g.log, log);
    }
  }

  // ---- An echo left unread ----

  function StolenScript(log: seq<Entry>, e: nat, c: nat, lost: bool): seq<seq<Happening>>
    requires e < c < |log|
  {
    PlayScript(log[..e]) + (LateScript() + (PlayScript(log[e + 1..c]) + [if lost then ARRIVES_ALONE else ARRIVES]))
  }

  lemma PrefixPlayed(plan: Plan, log: seq<Entry>, n: nat, e: nat, hi: nat) returns (g: Stage)
    requires n <= |log| && n <= e && Payloads(log) && Scripted(plan, 0, PlayScript(log[..n]))
    ensures At(plan, SendsOf(log[..n]), g) && g.log == log[..n] && g.back == [] && g.rest.None? && g.received == []
    ensures |g.owners| == |PlayScript(log[..n])| && HeardAre(g, e, hi) && g.number == Nth(Number(log, n))
  {
    hide At, Scripted, PlayScript, Number, Nth, SendsOf;
    StartAt(plan);
    var prefix := log[..n];
    g := PlayedOnWire(plan, [], START, prefix, e, hi);
    assert [] + SendsOf(prefix) == SendsOf(prefix) && [] + prefix == prefix;
    StageNumber(plan, SendsOf(prefix), g);
    PrefixAsLogged(log, n, n);
  }

  /** Call e fails although it is heard, and its late acknowledgement makes call c succeed, with the echo of e still on
      its way, or lost. */
  lemma StolenAtOnWire(plan: Plan, log: seq<Entry>, e: nat, c: nat, hi: nat, lost: bool) returns (g: Stage)
    requires e < c < |log| && log[c].ok && Payloads(log) && forall i | e <= i < c :: !log[i].ok
    requires Scripted(plan, 0, StolenScript(log, e, c, lost))
    ensures At(plan, SendsOf(log[..c + 1]), g) && g.log == log[..c + 1] && g.rest.None? && g.received == []
    ensures g.back == (if lost then [] else [EchoBody(Nth(Number(log, e)), log[e].payload)])
    ensures g.number == Nth(Number(log, e)) + 1
    ensures |g.owners| == |StolenScript(log, e, c, lost)| && HeardAre(g, e, hi)
  {
    hide At, Scripted, PlayScript, HeardAre, Number, Nth, EchoBody, AckBody, LateScript;
    var before, between, p, q := PlayScript(log[..e]), log[e + 1..c], log[e].payload, log[c].payload;
    assert log[e] in log && log[c] in log;
    var last := [if lost then ARRIVES_ALONE else ARRIVES];
    ScriptedParts(plan, 0, before, LateScript() + (PlayScript(between) + last));
    ScriptedParts(plan, |before|, LateScript(), PlayScript(between) + last);
    LateSize();
    ScriptedParts(plan, |before| + 4, PlayScript(between), last);
    var t := PrefixPlayed(plan, log, e, e, hi);
    LateOnWire(plan, SendsOf(log[..e]), t, p);
    var heard := [Hearing(FrameAt(t, p), |t.owners|)];
    var late := Staged(t, p, 4, false, BothAnswers(t.number, p), None, t.heard + heard);
    HeardStays(t, p, 4, false, BothAnswers(t.number, p), None, heard, e, hi);
    SendsNext(log, e);
    var u := PlayedOnWire(plan, SendsOf(log[..e + 1]), late, between, e, hi);
    SendsThrough(log, e + 1, c);
    var echo := EchoBody(u.number, p);
    StolenOnWire(plan, SendsOf(log[..c]), u, q, echo, lost);
    HeardSame(u, q, 1, true, if lost then [] else [echo], None, e, hi);
    g := Staged(u, q, 1, true, if lost then [] else [echo], None, u.heard);
    SendsNext(log, c);
  }

  lemma LateSize()
    ensures |LateScript()| == 4
  {
  }

  function EchoScript(log: seq<Entry>, d: nat, m: nat): seq<seq<Happening>>
    requires d <= m < |log|
  {
    if d == m then PlayScript(log[..d]) + [ANSWERED] else StolenScript(log, d, m, false)
  }

  /** The echo of call d is still on its way after the next success, of call m. */
  lemma EchoLeftOnWire(plan: Plan, log: seq<Entry>, d: nat, m: nat, hi: nat) returns (g: Stage)
    requires d <= m < |log| && log[m].ok && Payloads(log) && forall i | d <= i < m :: !log[i].ok
    requires Scripted(plan, 0, EchoScript(log, d, m))
    ensures At(plan, SendsOf(log[..m + 1]), g) && g.log == log[..m + 1] && g.rest.None? && g.received == []
    ensures g.back == [EchoBody(Nth(Number(log, d)), log[d].payload)] && g.number == Nth(Number(log, d)) + 1
    ensures |g.owners| == |EchoScript(log, d, m)| && HeardAre(g, d, hi)
  {
    hide At, Scripted, PlayScript, HeardAre, Number, Nth, EchoBody, StolenScript;
    if d == m {
      var p, before := log[d].payload, PlayScript(log[..d]);
      assert log[d] in log;
      ScriptedParts(plan, 0, before, [ANSWERED]);
      var t := PrefixPlayed(plan, log, d, d, hi);
      GoodOnWire(plan, SendsOf(log[..d]), t, p, false);
      var heard, echo := [Hearing(FrameAt(t, p), |t.owners|)], [EchoBody(t.number, p)];
      HeardStays(t, p, 1, true, echo, None, heard, d, hi);
      g := Staged(t, p, 1, true, echo, None, t.heard + heard);
      SendsNext(log, d);
    } else {
      g := StolenAtOnWire(plan, log, d, m, hi, false);
    }
  }

  // ---- Calls that read it ----

  /** Calls that fail while the echo arrives and is read. */
  lemma {:induction false} ReadingCallsOnWire(plan: Plan, ops: seq<Op>, g: Stage, log: seq<Entry>, e: seq<byte>, r: nat,
                                             delay: nat, d: nat, hi: nat)
    returns (g': Stage)
    requires At(plan, ops, g) && g.back == EchoBack(e, r) && g.rest == EchoRest(e, r) && Payloads(log)
    requires (forall x | x in log :: !x.ok) && HeardAre(g, d, hi)
    requires NoZero(e) && (r == 0 || delay == 0) && AfterWaits(e, r + Reads(4 * |log|, delay)).Some?
    requires Scripted(plan, |g.owners|, WaitScript(4 * |log|, delay, r))
    ensures At(plan, ops + SendsOf(log), g') && g'.log == g.log + log && g'.received == g.received
    ensures var r' := r + Reads(4 * |log|, delay); g'.back == EchoBack(e, r') && g'.rest == EchoRest(e, r')
    ensures |g'.owners| == |g.owners| + 4 * |log| && HeardAre(g', d, hi) && g'.number == g.number
    decreases log
  {
    hide At, Scripted, HeardAre, AfterWaits, EchoBack, EchoRest, WaitScript;
    g' := g;
    if log == [] {
      assert ops + SendsOf([]) == ops && g.log + [] == g.log;
    } else {
      var x, others := log[0], 4 * |log[1..]|;
      assert x in log;
      WaitScriptSplit(4, others, delay, r);
      ReadsSplit(4, others, delay);
      ScriptedParts(plan, |g.owners|, WaitScript(4, delay, r),
                    WaitScript(others, Later(delay, 4), r + Reads(4, delay)));
      StillLeft(e, r + Reads(4, delay), Reads(others, Later(delay, 4)));
      ReadingOnWire(plan, ops, g, x.payload, e, r, delay);
      var r' := r + Reads(4, delay);
      var next := Staged(g, x.payload, 4, false, EchoBack(e, r'), EchoRest(e, r'), g.heard);
      HeardSame(g, x.payload, 4, false, EchoBack(e, r'), EchoRest(e, r'), d, hi);
      g' := ReadingCallsOnWire(plan, ops + [Sends(x.payload)], next, log[1..], e, r', Later(delay, 4), d, hi);
      SendsFirst(ops, g.log, log);
    }
  }

  /** The calls from m + 1 to c read the echo, and the last of them is misled by it. */
  lemma MisledAtOnWire(plan: Plan, log: seq<Entry>, m: nat, c: nat, g: Stage, e: seq<byte>, r: nat, delay: nat, n: nat,
                       d: nat)
    returns (g': Stage)
    requires m < c < |log| && log[c].ok && Payloads(log) && forall i | m < i < c :: !log[i].ok
    requires At(plan, SendsOf(log[..m + 1]), g) && g.log == log[..m + 1] && g.back == [e] && g.rest.None?
    requires NoZero(e) && HeardAre(g, d, c + 1) && n < 4
    requires var before := 4 * (c - m - 1);
             Reads(before + n, delay) == r && Later(delay, before) <= n && AckAt(e, r, g.number)
    requires Scripted(plan, |g.owners|, WaitScript(4 * (c - m - 1) + n + 1, delay, 0))
    ensures At(plan, SendsOf(log[..c + 1]), g') && g'.log == log[..c + 1] && g'.back == [] && g'.rest.None?
    ensures |g'.owners| == |g.owners| + 4 * (c - m - 1) + n + 1 && HeardAre(g', d, c + 1)
  {
    hide At, Scripted, HeardAre, AfterWaits, WaitScript, AckAt, EchoBack, EchoRest, SendsOf, LeftOf;
    var between, last := log[m + 1..c], log[c].payload;
    var before := 4 * |between|;
    var later, looks := Later(delay, before), Reads(before, delay);
    WaitScriptSplit(before, n + 1, delay, 0);
    ScriptedParts(plan, |g.owners|, WaitScript(before, delay, 0), WaitScript(n + 1, later, looks));
    ReadsSplit(before, n, delay);
    AckAtLeft(e, r, g.number);
    StillLeft(e, looks, Reads(n, later));
    BetweenLogs(log, m + 1, c);
    EchoAtFirst(e);
    var u := ReadingCallsOnWire(plan, SendsOf(log[..m + 1]), g, between, e, 0, delay, d, c + 1);
    SendsThrough(log, m + 1, c);
    assert log[c] in log;
    MisledOnWire(plan, SendsOf(log[..c]), u, last, e, looks, n, later);
    HeardSame(u, last, n + 1, true, [], None, d, c + 1);
    g' := Staged(u, last, n + 1, true, [], None, u.heard);
    SendsNext(log, c);
  }

  lemma EchoAtFirst(e: seq<byte>)
    ensures EchoBack(e, 0) == [e] && EchoRest(e, 0) == None
  {
  }

  lemma BetweenLogs(log: seq<Entry>, a: nat, c: nat)
    requires a <= c <= |log| && Payloads(log) && forall i | a <= i < c :: !log[i].ok
    ensures Payloads(log[a..c]) && forall x | x in log[a..c] :: !x.ok
  {
  }

  // ---- Nothing missing ----

  /** Behind each call that returned success the peer has heard a frame under its number. */
  ghost predicate NumbersHeard(plan: Plan, t: Trace) {
    forall c {:trigger t.log[c]} | 0 <= c < |t.log| && t.log[c].ok ::
      exists d :: 0 <= d < |t.log| && Number(t.log, d) == Number(t.log, c) && HeardFrom(t.owners, HeardBy(plan, t), d)
  }

  lemma StageHeard(plan: Plan, ops: seq<Op>, g: Stage)
    requires At(plan, ops, g)
    ensures var t := FreshDriver(plan, AllAccepted(), ops);
            t.log == g.log && t.received == g.received && t.owners == g.owners && HeardBy(plan, t) == g.heard
  {
    hide FreshDriver, Situation;
  }

  /** Call c is not heard, nor is any other call under its number. */
  lemma NotHeard(g: Stage, d: nat, c: nat, x: nat)
    requires d < c < |g.log| && g.log[c].ok && Number(g.log, d) < Number(g.log, c) && HeardAre(g, d, c + 1)
    requires x < |g.log| && Number(g.log, x) == Number(g.log, c)
    ensures !HeardFrom(g.owners, g.heard, x)
  {
    if x <= d {
      NumberMonotone(g.log, x, d);
    } else if x > c {
      NumberMonotone(g.log, c + 1, x);
    }
  }

  function MisledScript(log: seq<Entry>, d: nat, m: nat, c: nat, delay: nat, n: nat): seq<seq<Happening>>
    requires d <= m < c < |log|
  {
    EchoScript(log, d, m) + (WaitScript(4 * (c - m - 1) + n + 1, delay, 0) + PlayScript(log[c + 1..]))
  }

  lemma MisledStage(log: seq<Entry>, d: nat, m: nat, c: nat, r: nat, delay: nat, n: nat) returns (g: Stage)
    requires d <= m < c < |log| && log[m].ok && log[c].ok && Payloads(log)
    requires (forall i | d <= i < m :: !log[i].ok) && (forall i | m < i < c :: !log[i].ok) && n < 4
    requires var before := 4 * (c - m - 1);
             && Reads(before + n, delay) == r && Later(delay, before) <= n
             && AckAt(EchoBody(Nth(Number(log, d)), log[d].payload), r, Nth(Number(log, d)) + 1)
    ensures At(PlanOf(MisledScript(log, d, m, c, delay, n)), SendsOf(log), g) && g.log == log && HeardAre(g, d, c + 1)
  {
    hide At, Scripted, HeardAre, AfterWaits, AckAt, WaitScript, EchoScript, PlayScript, Number, Nth, PlanOf, EchoBody;
    var script := MisledScript(log, d, m, c, delay, n);
    var plan, waits, after := PlanOf(script), WaitScript(4 * (c - m - 1) + n + 1, delay, 0), PlayScript(log[c + 1..]);
    var e := EchoBody(Nth(Number(log, d)), log[d].payload);
    PlanScripted(script);
    ScriptedParts(plan, 0, EchoScript(log, d, m), waits + after);
    ScriptedParts(plan, |EchoScript(log, d, m)|, waits, after);
    EchoNoZero(Nth(Number(log, d)), log[d].payload);
    var u := EchoLeftOnWire(plan, log, d, m, c + 1);
    var v := MisledAtOnWire(plan, log, m, c, u, e, r, delay, n, d);
    assert Payloads(log[c + 1..]);
    g := PlayedOnWire(plan, SendsOf(log[..c + 1]), v, log[c + 1..], d, c + 1);
    SendsConcat(log[..c + 1], log[c + 1..]);
    assert log[..c + 1] + log[c + 1..] == log;
  }

  /** If the echo of call d can mislead call c, there is a network on which the driver returns just these results, and
      the peer never hears a frame under c's number. */
  lemma MisledOnNetwork(log: seq<Entry>, d: nat, c: nat) returns (plan: Plan)
    requires d < |log| && c < |log| && Misleads(log, d, c, MAX_RETRIES + 1) && Payloads(log)
    ensures var t := FreshDriver(plan, AllAccepted(), SendsOf(log));
            && t.log == log
            && forall x | 0 <= x < |log| && Number(log, x) == Number(log, c) ::
                 !HeardFrom(t.owners, HeardBy(plan, t), x)
  {
    hide At, HeardAre, FreshDriver, HeardBy, AckAt, AfterWaits, EchoBody, Nth, HeardFrom, PlanOf;
    var k, p := Number(log, d), log[d].payload;
    var r: nat :| r < (MAX_RETRIES + 1) * Place(log, c) && AckAt(EchoBody(Nth(k), p), r, Nth(k + 1));
    NthNext(k);
    if c < d {
      NumberMonotone(log, c, d);
    }
    var m := LastSuccess(log, d, c);
    NoneBetween(log, d, m);
    var delay, n := Schedule(4, c - m, c - m - 1, r);
    var g := MisledStage(log, d, m, c, r, delay, n);
    plan := PlanOf(MisledScript(log, d, m, c, delay, n));
    StageHeard(plan, SendsOf(log), g);
    forall x | 0 <= x < |log| && Number(log, x) == Number(log, c)
      ensures !HeardFrom(g.owners, g.heard, x)
    {
      NotHeard(g, d, c, x);
    }
  }

  /** With these results, the peer has on every network heard a frame under the number of each call that returned
      success, exactly when no echo can mislead a later call. */
  lemma GapIffOnWire(log: seq<Entry>)
    requires Payloads(log)
    ensures (forall plan, accept, ops {:trigger FreshDriver(plan, accept, ops)} ::
               FreshDriver(plan, accept, ops).log == log ==> NumbersHeard(plan, FreshDriver(plan, accept, ops)))
            <==> SoundTails(log, MAX_RETRIES + 1)
  {
    hide FreshDriver, HeardBy, Misleads, HeardFrom, Number;
    if SoundTails(log, MAX_RETRIES + 1) {
      forall plan, accept, ops | FreshDriver(plan, accept, ops).log == log
        ensures NumbersHeard(plan, FreshDriver(plan, accept, ops))
      {
        forall c | 0 <= c < |log| && log[c].ok
          ensures exists d :: 0 <= d < |log| && Number(log, d) == Number(log, c)
                    && HeardFrom(FreshDriver(plan, accept, ops).owners,
                                 HeardBy(plan, FreshDriver(plan, accept, ops)), d)
        {
          var d := NumberIsHeard(plan, accept, ops, c);
        }
      }
    } else {
      var c, d :| 0 <= c < |log| && 0 <= d < |log| && Misleads(log, d, c, MAX_RETRIES + 1);
      var plan := MisledOnNetwork(log, d, c);
      MisledSucceeds(log, d, c);
      assert !NumbersHeard(plan, FreshDriver(plan, AllAccepted(), SendsOf(log)));
    }
  }

  lemma MisledSucceeds(log: seq<Entry>, d: nat, c: nat)
    requires d < |log| && c < |log| && Misleads(log, d, c, MAX_RETRIES + 1)
    ensures log[c].ok
  {
    hide AcksWithin;
  }

  // ---- Whose payload was heard ----

  /** The peer has heard the payload of each call that returned success, under that call's number. */
  ghost predicate OwnHeard(plan: Plan, t: Trace) {
    forall c {:trigger t.log[c]} | 0 <= c < |t.log| && t.log[c].ok ::
      exists d :: 0 <= d < |t.log| && Number(t.log, d) == Number(t.log, c) && t.log[d].payload == t.log[c].payload
                  && HeardFrom(t.owners, HeardBy(plan, t), d)
  }

  function OtherScript(log: seq<Entry>, e: nat, c: nat): seq<seq<Happening>>
    requires e < c < |log|
  {
    StolenScript(log, e, c, true) + PlayScript(log[c + 1..])
  }

  lemma OtherStage(log: seq<Entry>, e: nat, c: nat) returns (g: Stage)
    requires e < c < |log| && log[c].ok && Payloads(log) && forall i | e <= i < c :: !log[i].ok
    ensures At(PlanOf(OtherScript(log, e, c)), SendsOf(log), g) && g.log == log && HeardAre(g, e, c + 1)
  {
    hide At, Scripted, HeardAre, StolenScript, PlayScript, Number, Nth, PlanOf, EchoBody;
    var script, after := OtherScript(log, e, c), PlayScript(log[c + 1..]);
    var plan := PlanOf(script);
    PlanScripted(script);
    ScriptedParts(plan, 0, StolenScript(log, e, c, true), after);
    var u := StolenAtOnWire(plan, log, e, c, c + 1, true);
    assert Payloads(log[c + 1..]);
    g := PlayedOnWire(plan, SendsOf(log[..c + 1]), u, log[c + 1..], e, c + 1);
    SendsConcat(log[..c + 1], log[c + 1..]);
    assert log[..c + 1] + log[c + 1..] == log;
  }

  /** Under the number of call c only call e is heard. */
  lemma OnlyOther(g: Stage, e: nat, c: nat, x: nat)
    requires e < c < |g.log| && g.log[c].ok && Number(g.log, e) == Number(g.log, c) && HeardAre(g, e, c + 1)
    requires x < |g.log| && Number(g.log, x) == Number(g.log, c) && x != e
    ensures !HeardFrom(g.owners, g.heard, x)
  {
    if x < e && g.log[x].ok {
      NumberMonotone(g.log, x + 1, e);
    } else if x > c {
      NumberMonotone(g.log, c + 1, x);
    }
  }

  /** If call e before the success of call c submitted another payload under the same number, there is a network on
      which the driver returns just these results, and the peer hears that payload instead. */
  lemma AnotherOnNetwork(log: seq<Entry>, e: nat, c: nat) returns (plan: Plan)
    requires e < c < |log| && log[c].ok && Number(log, e) == Number(log, c) && log[e].payload != log[c].payload
    requires Payloads(log)
    ensures var t := FreshDriver(plan, AllAccepted(), SendsOf(log));
            && t.log == log && !OwnHeard(plan, t)
            && forall x | 0 <= x < |log| && Number(log, x) == Number(log, c) && x != e ::
                 !HeardFrom(t.owners, HeardBy(plan, t), x)
  {
    hide At, HeardAre, FreshDriver, HeardBy, Number, HeardFrom, PlanOf, OtherScript;
    NoneBetween(log, e, c);
    var g := OtherStage(log, e, c);
    plan := PlanOf(OtherScript(log, e, c));
    StageHeard(plan, SendsOf(log), g);
    forall x | 0 <= x < |log| && Number(log, x) == Number(log, c) && x != e
      ensures !HeardFrom(g.owners, g.heard, x)
    {
      OnlyOther(g, e, c, x);
    }
    var t := FreshDriver(plan, AllAccepted(), SendsOf(log));
    assert t.log[c].ok;
  }

  /** With these results, the peer has on every network heard the payload of each call that returned success, exactly
      when no echo can mislead a later call and nothing else was submitted between two successes. */
  lemma OwnPayloadIffOnWire(log: seq<Entry>)
    requires Payloads(log)
    ensures (forall plan, accept, ops {:trigger FreshDriver(plan, accept, ops)} ::
               FreshDriver(plan, accept, ops).log == log ==> OwnHeard(plan, FreshDriver(plan, accept, ops)))
            <==> SoundTails(log, MAX_RETRIES + 1) && Repeats(log)
  {
    hide FreshDriver, HeardBy, Misleads, HeardFrom, Number;
    if !SoundTails(log, MAX_RETRIES + 1) {
      var c, d :| 0 <= c < |log| && 0 <= d < |log| && Misleads(log, d, c, MAX_RETRIES + 1);
      var plan := MisledOnNetwork(log, d, c);
      MisledSucceeds(log, d, c);
      assert !OwnHeard(plan, FreshDriver(plan, AllAccepted(), SendsOf(log)));
    } else if !Repeats(log) {
      var e, c :| 0 <= e < c < |log| && log[c].ok && Number(log, e) == Number(log, c)
                  && log[e].payload != log[c].payload;
      var plan := AnotherOnNetwork(log, e, c);
    } else {
      forall plan, accept, ops | FreshDriver(plan, accept, ops).log == log
        ensures OwnHeard(plan, FreshDriver(plan, accept, ops))
      {
        forall c | 0 <= c < |log| && log[c].ok
          ensures exists d :: 0 <= d < |log| && Number(log, d) == Number(log, c) && log[d].payload == log[c].payload
                    && HeardFrom(FreshDriver(plan, accept, ops).owners,
                                 HeardBy(plan, FreshDriver(plan, accept, ops)), d)
        {
          var d := SuccessIsHeard(plan, accept, ops, c);
        }
      }
    }
  }

  // ---- Duplicates ----

  lemma {:induction false} CopiesConcat(owners: Owners, a: seq<Hearing>, b: seq<Hearing>, c: nat)
    ensures Copies(owners, a + b, c) == Copies(owners, a, c) + Copies(owners, b, c)
    decreases a
  {
    if a == [] {
      assert a + b == b;
    } else {
      assert (a + b)[1..] == a[1..] + b;
      CopiesConcat(owners, a[1..], b, c);
    }
  }

  lemma {:induction false} CopiesAll(owners: Owners, heard: seq<Hearing>, c: nat)
    requires forall h | h in heard :: Owned(owners, h.from, c)
    ensures Copies(owners, heard, c) == |heard|
    decreases heard
  {
    if heard != [] {
      CopiesAll(owners, heard[1..], c);
    }
  }

  lemma {:induction false} CopiesNone(owners: Owners, heard: seq<Hearing>, c: nat)
    requires forall h | h in heard :: !Owned(owners, h.from, c)
    ensures Copies(owners, heard, c) == 0
    decreases heard
  {
    if heard != [] {
      CopiesNone(owners, heard[1..], c);
    }
  }

  /** Whatever the calls before, there is a network on which the next call returns success and the peer hears it four
      times. */
  lemma HeardFourTimesOnNetwork(log: seq<Entry>, p: seq<byte>) returns (plan: Plan)
    requires Payloads(log) && |p| <= MAX_PAYLOAD
    ensures var t := FreshDriver(plan, AllAccepted(), SendsOf(log + [Entry(p, true)]));
            t.log == log + [Entry(p, true)] && Copies(t.owners, HeardBy(plan, t), |log|) == 4
  {
    hide At, Scripted, FreshDriver, HeardBy, PlayScript, Number, Nth, Copies;
    var before, n := PlayScript(log), |log|;
    assert log[..n] == log;
    plan := PlanOf(before + HeardTimesScript());
    PlanScripted(before + HeardTimesScript());
    ScriptedParts(plan, 0, before, HeardTimesScript());
    var g := PrefixPlayed(plan, log, n, n, n);
    HeardFourTimes(plan, SendsOf(log), g, p);
    var more := HeardAt(g, p, 4);
    var g' := Staged(g, p, 4, true, [], None, g.heard + more);
    SendsAppend(log, Entry(p, true));
    StageHeard(plan, SendsOf(log + [Entry(p, true)]), g');
    CopiesConcat(g'.owners, g.heard, more, n);
    forall h | h in g.heard
      ensures !Owned(g'.owners, h.from, n)
    {
      assert g'.owners[h.from] == g.owners[h.from];
    }
    CopiesNone(g'.owners, g.heard, n);
    CopiesAll(g'.owners, more, n);
  }

  // ---- Payloads nobody sent ----

  /** Every payload handed over is one that was submitted. */
  ghost predicate OnlySubmitted(t: Trace) {
    forall p | p in t.received :: exists d :: 0 <= d < |t.log| && t.log[d].payload == p
  }

  ghost predicate LogAllowed(t: Trace, allowed: seq<byte> -> bool) {
    forall e | e in t.log :: allowed(e.payload)
  }

  /** A receive takes a data frame from what is on the line. */
  lemma ReceivesRest(plan: Plan, ops: seq<Op>, g: Stage, b: seq<byte>)
    requires At(plan, ops, g) && g.rest == Some(b) && NoZero(b) && Starts(b)
    requires IsDataFrame(Inspect(Caught(b, FRAME_CHUNK)))
    ensures var f := Inspect(Caught(b, FRAME_CHUNK)).frame;
            var t := FreshDriver(plan, AllAccepted(), ops + [Receives(|f.payload|)]);
            t.log == g.log && t.received == g.received + [f.payload]
  {
    hide FreshDriver, Inspect, Caught, Left, Starts, Lossy, Link.Transmit, Wire, Collect, Situation, Extended;
    var f := Inspect(Caught(b, FRAME_CHUNK)).frame;
    Snoc(plan, ops, Receives(|f.payload|));
    CollectSegment(b, [], FRAME_CHUNK);
    assert OnLine(b) + [] == OnLine(b);
  }

  function LeakScript(p: seq<byte>, k: nat, r: nat): seq<seq<Happening>> {
    PlayScript(Repeated(Entry(p, true), k)) + ([ANSWERED] + WaitScript(4 * r, 3 * r, 0))
  }

  function LeakLog(p: seq<byte>, k: nat, r: nat): seq<Entry> {
    Repeated(Entry(p, true), k) + [Entry(p, true)] + Repeated(Entry(p, false), r)
  }

  /** The payload is sent until its number is reached and once more, so that its echo is under way; then r calls that
      fail read r times 16 bytes of it between them. */
  lemma LeakStage(number: byte, p: seq<byte>, r: nat) returns (g: Stage)
    requires |p| <= MAX_PAYLOAD && AfterWaits(EchoBody(number, p), r).Some?
    ensures var k := Value(number);
            && At(PlanOf(LeakScript(p, k, r)), SendsOf(LeakLog(p, k, r)), g) && g.log == LeakLog(p, k, r)
            && g.received == [] && g.rest == EchoRest(EchoBody(number, p), r)
  {
    hide At, Scripted, HeardAre, PlayScript, Number, Nth, PlanOf, EchoBody, AfterWaits, WaitScript, Value;
    var k := Value(number);
    var first, others, script := Repeated(Entry(p, true), k), Repeated(Entry(p, false), r), LeakScript(p, k, r);
    var plan, e := PlanOf(script), EchoBody(number, p);
    PlanScripted(script);
    ScriptedParts(plan, 0, PlayScript(first), [ANSWERED] + WaitScript(4 * r, 3 * r, 0));
    ScriptedParts(plan, |PlayScript(first)|, [ANSWERED], WaitScript(4 * r, 3 * r, 0));
    assert first[..k] == first;
    var t := PrefixPlayed(plan, first, k, k, k + 1);
    AllSucceeded(p, k, k);
    NthOfValue(number);
    GoodOnWire(plan, SendsOf(first), t, p, false);
    var heard := [Hearing(FrameAt(t, p), |t.owners|)];
    HeardStays(t, p, 1, true, [e], None, heard, k, k + 1);
    var u := Staged(t, p, 1, true, [e], None, t.heard + heard);
    SendsAppend(first, Entry(p, true));
    EchoNoZero(number, p);
    EchoAtFirst(e);
    assert forall x | x in others :: x == Entry(p, false);
    assert Reads(4 * |others|, 3 * r) == r;
    g := ReadingCallsOnWire(plan, SendsOf(first + [Entry(p, true)]), u, others, e, 0, 3 * r, k, k + 1);
    SendsConcat(first + [Entry(p, true)], others);
  }

  /** If what r waits leave of an echo holds a data frame, there is a network on which a receive hands over its payload
      although every call submitted p. */
  lemma LeakedOnNetwork(number: byte, p: seq<byte>, r: nat) returns (plan: Plan, ops: seq<Op>)
    requires |p| <= MAX_PAYLOAD && r > 0 && DataAt(EchoBody(number, p), r)
    ensures var f := Inspect(Caught(LeftOf(EchoBody(number, p), r), FRAME_CHUNK)).frame;
            var t := FreshDriver(plan, AllAccepted(), ops);
            && t.received == [f.payload] && t.log == LeakLog(p, Value(number), r) && |f.payload| < |p|
  {
    hide At, FreshDriver, Inspect, Caught, Starts, EchoBody, AfterWaits, LeakLog, PlanOf, LeakScript, Value;
    var k := Value(number);
    var g := LeakStage(number, p, r);
    plan := PlanOf(LeakScript(p, k, r));
    EchoNoZero(number, p);
    var left := LeftOf(EchoBody(number, p), r);
    LeakShorter(number, p, r);
    ReceivesRest(plan, SendsOf(LeakLog(p, k, r)), g, left);
    var f := Inspect(Caught(left, FRAME_CHUNK)).frame;
    ops := SendsOf(LeakLog(p, k, r)) + [Receives(|f.payload|)];
  }

  lemma LeakLogIs(p: seq<byte>, k: nat, r: nat)
    ensures forall e | e in LeakLog(p, k, r) :: e.payload == p
  {
  }

  /** When callers submit allowed payloads only, every payload handed over on every network was submitted, exactly when
      the echo of no allowed payload leaks. */
  lemma SubmittedIffOnWire(allowed: seq<byte> -> bool)
    ensures (forall plan, accept, ops {:trigger FreshDriver(plan, accept, ops)} ::
               LogAllowed(FreshDriver(plan, accept, ops), allowed) ==> OnlySubmitted(FreshDriver(plan, accept, ops)))
            <==> (forall number, p {:trigger EchoBody(number, p)} ::
                    allowed(p) && |p| <= MAX_PAYLOAD ==> !Leaks(EchoBody(number, p)))
  {
    hide FreshDriver, EchoBody, DataAt, Nth, Number, HeardBy, HeardFrom, Inspect, Caught, LeakLog;
    if number, p :| allowed(p) && |p| <= MAX_PAYLOAD && Leaks(EchoBody(number, p)) {
      var r: nat :| r > 0 && DataAt(EchoBody(number, p), r);
      var plan, ops := LeakedOnNetwork(number, p, r);
      LeakLogIs(p, Value(number), r);
      var t := FreshDriver(plan, AllAccepted(), ops);
      assert t.received[0] in t.received;
      assert !OnlySubmitted(t);
    } else {
      forall plan, accept, ops | LogAllowed(FreshDriver(plan, accept, ops), allowed)
        ensures OnlySubmitted(FreshDriver(plan, accept, ops))
      {
        var t := FreshDriver(plan, accept, ops);
        LoggedFits(plan, accept, ops);
        forall p | p in t.received
          ensures exists d :: 0 <= d < |t.log| && t.log[d].payload == p
        {
          var d := ReceivedIsHeard(plan, accept, ops, p);
        }
      }
    }
  }

  lemma LoggedFits(plan: Plan, accept: Acceptance, ops: seq<Op>)
    ensures Payloads(FreshDriver(plan, accept, ops).log)
    ensures forall i | 0 <= i < |FreshDriver(plan, accept, ops).log| ::
              FreshDriver(plan, accept, ops).log[i] in FreshDriver(plan, accept, ops).log
  {
    hide Operated, Lossy;
    LoggedFitsBy(Lossy(plan, accept), ops);
  }

  lemma {:induction false} LoggedFitsBy(env: Env, ops: seq<Op>)
    ensures Payloads(Operated(env, ops).log)
    decreases ops
  {
    hide SendOutcome, ReceiveOutcome, Extended;
    if ops != [] {
      LoggedFitsBy(env, ops[..|ops| - 1]);
    }
  }

  /** A fresh driver sends the leaky payload and has it acknowledged; its echo arrives during a second call, whose last
      wait reads 16 bytes of it. The receive that comes next hands over an empty payload, which nobody sent. */
  lemma NobodySentIt() returns (plan: Plan, ops: seq<Op>)
    ensures var t := FreshDriver(plan, AllAccepted(), ops);
            t.received == [[]] && t.log == [Entry(LEAKY, true), Entry(LEAKY, false)]
  {
    hide FreshDriver, EchoBody, DataAt, Inspect, Caught;
    LeakyLeaks();
    plan, ops := LeakedOnNetwork(0, LEAKY, 1);
    assert LeakLog(LEAKY, 0, 1) == [Entry(LEAKY, true), Entry(LEAKY, false)];
  }
}
