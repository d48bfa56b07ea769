/** What holds at every point of an accepted record: replies, relaying, the order of configuration, and
    which endpoint threads have been waited for. */
module Records {
  import opened Bytes
  import opened Descriptors
  import opened Monitor
  import opened Protocol

  // --- Every prefix ---

  /** A record that is in order was in order at every moment. */
  lemma {:induction false} PrefixIsJudged(trace: seq<Action>, k: nat)
    requires Judge(trace).Mon? && k <= |trace|
    ensures Judge(trace[..k]).Mon?
  {
    hide Observe;
    if k == |trace| {
      assert trace[..k] == trace;
    } else {
      var before := trace[..|trace| - 1];
      BadStaysBad(Judge(before), trace[|trace| - 1]);
      PrefixIsJudged(before, k);
      assert before[..k] == trace[..k];
    }
  }

  lemma BadStaysBad(m: Verdict, a: Action)
    ensures Observe(m, a).Mon? ==> m.Mon? && !m.ended
  {}

  /** The verdict just before action `k`, what it says, and that it allows the action. */
  lemma At(trace: seq<Action>, k: nat)
    requires Judge(trace).Mon? && k < |trace|
    ensures Judge(trace[..k]).Mon? && !Judge(trace[..k]).ended
    ensures Observe(Judge(trace[..k]), trace[k]).Mon?
    ensures ExplainsTrace(Judge(trace[..k]), trace[..k])
  {
    hide Observe, ExplainsTrace;
    PrefixIsJudged(trace, k + 1);
    assert trace[..k + 1] == trace[..k] + [trace[k]];
    JudgeNext(trace[..k], trace[k]);
    BadStaysBad(Judge(trace[..k]), trace[k]);
    VerdictExplains(trace[..k]);
  }

  // --- Replies ---

  /** Whenever an event is fetched, the control request before it has had exactly one EP0 reply, and any
      other event none. */
  lemma OneReplyPerRequest(trace: seq<Action>, k: nat)
    requires Judge(trace).Mon? && k < |trace| && (trace[k].Fetch? || trace[k].FetchFails?)
    ensures Replies(SinceFetch(trace[..k])) == if CurrentRequest(trace[..k]).Some? then 1 else 0
  {
    At(trace, k);
    hide Judge;
  }

  /** Nowhere has a request had two replies, in a run that ends in an error either. */
  lemma NeverTwoReplies(trace: seq<Action>, k: nat)
    requires Judge(trace).Mon? && k <= |trace|
    ensures Replies(SinceFetch(trace[..k])) <= if CurrentRequest(trace[..k]).Some? then 1 else 0
  {
    PrefixIsJudged(trace, k);
    VerdictExplains(trace[..k]);
  }

  /** A call that failed. */
  predicate Failed(a: Action) {
    || a.FetchFails? || (a.Submit? && a.urb == None) || (a.Ep0Read? && a.got == None)
    || (a.Ep0Write? && !a.ok) || (a.Ep0Stall? && !a.ok) || (a.EpEnable? && a.handle == None)
    || (a.VbusDraw? && !a.ok) || (a.Configure? && !a.ok)
  }

  lemma FailureEnds(m: Verdict, a: Action)
    requires Observe(m, a).Mon? && Failed(a)
    ensures Observe(m, a).ended
  {
    hide Walk, SetupOf, HandlingOf;
  }

  /** The program ends with the first call that fails. */
  lemma FailedCallIsLast(trace: seq<Action>, k: nat)
    requires Judge(trace).Mon? && k < |trace| && Failed(trace[k])
    ensures k == |trace| - 1
  {
    hide Judge, Observe, Failed;
    At(trace, k);
    FailureEnds(Judge(trace[..k]), trace[k]);
    assert trace[..k + 1] == trace[..k] + [trace[k]];
    JudgeNext(trace[..k], trace[k]);
    if k + 1 < |trace| {
      At(trace, k + 1);
    }
  }

  // --- Relaying ---

  lemma AnswerIsRelayed(m: Verdict, before: seq<Action>, a: Action)
    requires m.Mon? && !m.ended && ExplainsTrace(m, before) && Observe(m, a).Mon? && a.Ep0Write?
    ensures CurrentRequest(before).Some? && HandlingOf(CurrentRequest(before).value).DeviceToHost?
    ensures ForwardedIn(SinceFetch(before), CurrentRequest(before).value, Urb(0, a.data))
  {
    hide CurrentRequest, LatestConfig, SinceFetch, Replies, Progress, ForwardedIn, ReadIn, HandlingOf;
  }

  /** The host is given exactly the bytes the remote device answered its request with. */
  lemma AnswersAreRelayed(trace: seq<Action>, k: nat)
    requires Judge(trace).Mon? && k < |trace| && trace[k].Ep0Write?
    ensures CurrentRequest(trace[..k]).Some? && HandlingOf(CurrentRequest(trace[..k]).value).DeviceToHost?
    ensures ForwardedIn(SinceFetch(trace[..k]), CurrentRequest(trace[..k]).value, Urb(0, trace[k].data))
  {
    At(trace, k);
    hide *;
    AnswerIsRelayed(Judge(trace[..k]), trace[..k], trace[k]);
  }

  lemma StallIsRelayed(m: Verdict, before: seq<Action>, a: Action)
    requires m.Mon? && !m.ended && ExplainsTrace(m, before) && Observe(m, a).Mon? && a.Ep0Stall?
    ensures CurrentRequest(before).Some? && m.answer.Some? && m.answer.value.status != 0
    ensures ForwardedIn(SinceFetch(before), CurrentRequest(before).value, m.answer.value)
  {
    hide CurrentRequest, LatestConfig, SinceFetch, Replies, Progress, ForwardedIn, ReadIn, HandlingOf;
  }

  /** A request is stalled only after the remote device refused it. */
  lemma StallsAreRelayed(trace: seq<Action>, k: nat) returns (answer: Urb)
    requires Judge(trace).Mon? && k < |trace| && trace[k].Ep0Stall?
    ensures answer.status != 0 && CurrentRequest(trace[..k]).Some?
    ensures ForwardedIn(SinceFetch(trace[..k]), CurrentRequest(trace[..k]).value, answer)
  {
    At(trace, k);
    hide *;
    StallIsRelayed(Judge(trace[..k]), trace[..k], trace[k]);
    answer := Judge(trace[..k]).answer.value;
  }

  /** What the verdict knows of the remote device's answers: the request has been forwarded at most once. */
  ghost predicate OneAnswer(m: Verdict, done: seq<Action>)
    requires m.Mon?
  {
    && (forall i, j | 0 <= i < |done| && 0 <= j < |done| && done[i].Submit? && done[j].Submit? :: i == j)
    && (forall i | 0 <= i < |done| && done[i].Submit? :: done[i].urb == m.answer && (m.answer.None? ==> m.ended))
  }

  lemma OneAnswerNext(m: Verdict, done: seq<Action>, a: Action)
    requires m.Mon? && !m.ended && OneAnswer(m, done) && Observe(m, a).Mon?
    ensures OneAnswer(Observe(m, a), if a.Fetch? then [] else done + [a])
  {
    hide Walk, SetupOf, HandlingOf, MayReply;
    if !a.Fetch? {
      var more := done + [a];
      assert more[|done|] == a && forall i | 0 <= i < |done| :: more[i] == done[i];
    }
  }

  /** No request is forwarded twice, and what the verdict remembers is the answer to the one forwarding. */
  lemma {:induction false} ForwardedOnce(trace: seq<Action>)
    requires Judge(trace).Mon?
    ensures OneAnswer(Judge(trace), SinceFetch(trace))
  {
    if trace != [] {
      var before, a := trace[..|trace| - 1], trace[|trace| - 1];
      assert trace == before + [a];
      BadStaysBad(Judge(before), a);
      ForwardedOnce(before);
      JudgeNext(before, a);
      HistoryNext(before, a);
      hide Judge, Observe, OneAnswer, SinceFetch;
      OneAnswerNext(Judge(before), SinceFetch(before), a);
    }
  }

  ghost predicate Forwarded(done: seq<Action>) {
    exists i | 0 <= i < |done| :: done[i].Submit?
  }

  /** `u` is the answer to the only submission. */
  ghost predicate OnlyAnswer(done: seq<Action>, u: Urb) {
    exists i | 0 <= i < |done| :: done[i].Submit? && done[i].urb == Some(u) &&
      forall j | 0 <= j < |done| && done[j].Submit? :: j == i
  }

  /** The reply that request `c` is owed when `done` has been done about it. SET_ADDRESS is acknowledged and not
      forwarded. The data of an OUT request are read before it is forwarded. Any other request is stalled exactly
      when the remote device's answer has another status than 0; otherwise an IN request is given the answer's data
      and an OUT request is acknowledged. */
  ghost predicate Owed(c: Ctrl, done: seq<Action>, a: Action) {
    if c.request == 5 then a.Ep0Read? && a.count == 0 && !Forwarded(done)
    else if c.requestType < 0x80 && c.length > 0 then a.Ep0Read? && a.count == c.length && !Forwarded(done)
    else exists u :: OnlyAnswer(done, u) && OwedFor(c, u, a)
  }

  predicate OwedFor(c: Ctrl, u: Urb, a: Action) {
    if u.status != 0 then a.Ep0Stall?
    else if c.requestType >= 0x80 then a.Ep0Write? && a.data == u.data
    else a.Ep0Read? && a.count == 0
  }

  lemma ReplyIsOwed(m: Verdict, before: seq<Action>, a: Action)
    requires m.Mon? && !m.ended && ExplainsTrace(m, before) && OneAnswer(m, SinceFetch(before))
    requires Observe(m, a).Mon? && a.IsEp0()
    ensures CurrentRequest(before).Some? && Owed(CurrentRequest(before).value, SinceFetch(before), a)
  {
    hide CurrentRequest, LatestConfig, SinceFetch, Replies, Progress, ReadIn, SetupOf, Walk, OnlyAnswer;
    var c, done := m.current.value, SinceFetch(before);
    if m.answer.Some? {
      assert ForwardedIn(done, c, m.answer.value);
      AnswerIsOnly(m, done);
      assert OwedFor(c, m.answer.value, a);
    }
  }

  lemma AnswerIsOnly(m: Verdict, done: seq<Action>)
    requires m.Mon? && OneAnswer(m, done) && m.current.Some? && m.answer.Some?
    requires ForwardedIn(done, m.current.value, m.answer.value)
    ensures OnlyAnswer(done, m.answer.value)
  {
    hide SetupOf, HandlingOf;
    var i :| 0 <= i < |done| && Forwards(done[i], m.current.value) && done[i].urb == m.answer;
  }

  /** Every reply is the one owed: a refusal is stalled, nothing else is, and a success is passed on. */
  lemma RepliesAreOwed(trace: seq<Action>, k: nat)
    requires Judge(trace).Mon? && k < |trace| && trace[k].IsEp0()
    ensures CurrentRequest(trace[..k]).Some?
    ensures Owed(CurrentRequest(trace[..k]).value, SinceFetch(trace[..k]), trace[k])
  {
    At(trace, k);
    ForwardedOnce(trace[..k]);
    hide *;
    ReplyIsOwed(Judge(trace[..k]), trace[..k], trace[k]);
  }

  lemma SubmissionIsRelayed(m: Verdict, before: seq<Action>, a: Action)
    requires m.Mon? && !m.ended && ExplainsTrace(m, before) && Observe(m, a).Mon? && a.Submit?
    ensures CurrentRequest(before).Some? && Forwards(a, CurrentRequest(before).value)
    ensures if HandlingOf(CurrentRequest(before).value).HostToDevice? then ReadIn(SinceFetch(before), a.data)
            else a.data == []
  {
    hide CurrentRequest, LatestConfig, SinceFetch, Replies, Progress, ForwardedIn, ReadIn, SetupOf, Walk;
  }

  /** The remote device is given exactly the bytes read from the host. */
  lemma DataIsRelayed(trace: seq<Action>, k: nat)
    requires Judge(trace).Mon? && k < |trace| && trace[k].Submit?
    ensures CurrentRequest(trace[..k]).Some? && Forwards(trace[k], CurrentRequest(trace[..k]).value)
    ensures if HandlingOf(CurrentRequest(trace[..k]).value).HostToDevice?
            then ReadIn(SinceFetch(trace[..k]), trace[k].data)
            else trace[k].data == []
  {
    At(trace, k);
    hide *;
    SubmissionIsRelayed(Judge(trace[..k]), trace[..k], trace[k]);
  }

  // --- Configuration ---

  /** Since the last event: acceptance by the remote device, then every endpoint of the latest descriptor,
      in order, then the bus power, then `rest`. */
  ghost predicate InOrder(trace: seq<Action>, handles: seq<nat>, rest: seq<Action>) {
    CurrentRequest(trace).Some? && LatestConfig(trace).Some? &&
    var done, config := SinceFetch(trace), LatestConfig(trace).value;
    && |handles| == |Walk(config)| && |done| > 0 && Accepts(done[0], CurrentRequest(trace).value)
    && done[1..] == Enables(Walk(config), handles) + Draw(config) + rest
  }

  lemma MayConfigure(m: Verdict, before: seq<Action>, a: Action)
    requires m.Mon? && !m.ended && ExplainsTrace(m, before) && Observe(m, a).Mon? && a.Configure?
    ensures !m.stage.Quiet? && InOrder(before, m.stage.handles, []) && Replies(SinceFetch(before)) == 0
  {
    hide CurrentRequest, LatestConfig, SinceFetch, Walk, Accepts, Replies, Witnessed, SetupOf;
    var eps, handles := Walk(m.config.value), m.stage.handles;
    assert eps[..|eps|] == eps;
    assert Enables(eps, handles) + Draw(m.config.value) + [] == Enables(eps, handles) + Draw(m.config.value);
    if |m.config.value| <= 7 {
      assert Enables(eps, handles) + [] == Enables(eps, handles);
    }
  }

  /** The device is configured only after the remote device accepted SET_CONFIGURATION and every endpoint
      of the latest configuration descriptor was enabled, and before the request is acknowledged. */
  lemma ConfiguredInOrder(trace: seq<Action>, k: nat) returns (handles: seq<nat>)
    requires Judge(trace).Mon? && k < |trace| && trace[k].Configure?
    ensures InOrder(trace[..k], handles, []) && Replies(SinceFetch(trace[..k])) == 0
  {
    At(trace, k);
    hide *;
    MayConfigure(Judge(trace[..k]), trace[..k], trace[k]);
    handles := Judge(trace[..k]).stage.handles;
  }

  /** What stands before every `configure`, call by call: SET_CONFIGURATION to the remote device, answered with
      status 0; the enabling of each endpoint of the latest descriptor; and the drawing of the power that byte 7
      of the descriptor announces, if it has one. */
  lemma ConfiguredStepByStep(trace: seq<Action>, k: nat)
    requires Judge(trace).Mon? && k < |trace| && trace[k].Configure?
    ensures LatestConfig(trace[..k]).Some?
    ensures var done, config := SinceFetch(trace[..k]), LatestConfig(trace[..k]).value;
            var n := |Walk(config)|;
            && |done| == (if |config| > 7 then n + 2 else n + 1)
            && done[0].Submit? && done[0].direction == Out && done[0].setup[0] < 0x80 && done[0].setup[1] == 9
            && done[0].urb.Some? && done[0].urb.value.status == 0
            && (forall i | 0 <= i < n ::
                  done[1 + i].EpEnable? && done[1 + i].endpoint == Walk(config)[i] && done[1 + i].handle.Some?)
            && (|config| > 7 ==> done[n + 1] == VbusDraw(config[7], true))
  {
    var handles := ConfiguredInOrder(trace, k);
    var done, config := SinceFetch(trace[..k]), LatestConfig(trace[..k]).value;
    hide Judge, SinceFetch, LatestConfig, CurrentRequest, Walk, Replies;
    var steps := Enables(Walk(config), handles) + Draw(config) + [];
    assert forall i | 0 <= i < |steps| :: done[1 + i] == steps[i];
  }

  lemma MaySpawn(m: Verdict, before: seq<Action>, a: Action) returns (ack: Action)
    requires m.Mon? && !m.ended && ExplainsTrace(m, before) && Observe(m, a).Mon? && a.Spawn?
    ensures !m.stage.Quiet? && InOrder(before, m.stage.handles, [Configure(true), ack]) && Acknowledges(ack)
    ensures a.pumps == Pumps(Walk(LatestConfig(before).value), m.stage.handles)
  {
    hide CurrentRequest, LatestConfig, SinceFetch, Walk, Accepts, Replies, Witnessed, SetupOf, Acknowledges, Pumps,
         HandlingOf, LoopOf;
    var config, handles := m.config.value, m.stage.handles;
    ack :| Acknowledges(ack) &&
           SinceFetch(before)[1..] == Enables(Walk(config), handles) + Draw(config) + [Configure(true), ack];
  }

  /** The endpoint threads are started after the acknowledgement, one for each endpoint, each with the
      handle its endpoint was enabled with. */
  lemma SpawnedInOrder(trace: seq<Action>, k: nat) returns (handles: seq<nat>, ack: Action)
    requires Judge(trace).Mon? && k < |trace| && trace[k].Spawn?
    ensures InOrder(trace[..k], handles, [Configure(true), ack]) && Acknowledges(ack)
    ensures var eps, pumps := Walk(LatestConfig(trace[..k]).value), trace[k].pumps;
            && |pumps| == |eps| == |handles|
            && forall i | 0 <= i < |pumps| ::
                 && pumps[i].handle == handles[i] && !pumps[i].loop.Caller?
                 && (pumps[i].loop.InPump? <==> eps[i].address >= 0x80)
                 && pumps[i].loop.ep == eps[i].address % 0x10 && pumps[i].loop.maxPacket == eps[i].maxPacketSize
  {
    At(trace, k);
    hide Judge, Observe, ExplainsTrace, LatestConfig, SinceFetch, CurrentRequest, Walk, Accepts, Acknowledges;
    ack := MaySpawn(Judge(trace[..k]), trace[..k], trace[k]);
    handles := Judge(trace[..k]).stage.handles;
  }

  // --- The latest configuration descriptor ---

  /** What is cached, call by call: a reset or a disconnection forgets the descriptor; the successful answer to an
      IN request with code 6 and descriptor type 2 replaces it; nothing else touches it, the answer to a request
      for another descriptor neither. */
  lemma CacheStepByStep(trace: seq<Action>, k: nat)
    requires Judge(trace).Mon? && k < |trace|
    ensures var was, now, a := LatestConfig(trace[..k]), LatestConfig(trace[..k + 1]), trace[k];
            if a == Fetch(Reset) || a == Fetch(Disconnect) then now == None
            else if a.Submit? && a.setup[0] >= 0x80 && a.setup[1] == 6 && a.setup[3] == 2
                    && a.urb.Some? && a.urb.value.status == 0 then
              now == Some(a.urb.value.data)
            else now == was
  {
    hide *;
    var current, config, a := CurrentRequest(trace[..k]), LatestConfig(trace[..k]), trace[k];
    assert trace[..k + 1] == trace[..k] + [a];
    HistoryNext(trace[..k], a);
    if a.Submit? {
      DataIsRelayed(trace, k);
      AnswerIsCached(current.value, config, a);
    } else {
      EndsForget(current, config, a);
    }
  }

  lemma AnswerIsCached(c: Ctrl, config: Option<seq<byte>>, a: Action)
    requires a.Submit? && Forwards(a, c)
    ensures ConfigAfter(Some(c), config, a)
         == if a.setup[0] >= 0x80 && a.setup[1] == 6 && a.setup[3] == 2 && a.urb.Some? && a.urb.value.status == 0
            then Some(a.urb.value.data)
            else config
  {
    HandlingBySetup(c);
    hide SetupOf, AsksForConfig, HandlingOf;
  }

  lemma EndsForget(current: Option<Ctrl>, config: Option<seq<byte>>, a: Action)
    requires !a.Submit?
    ensures ConfigAfter(current, config, a) == if a == Fetch(Reset) || a == Fetch(Disconnect) then None else config
  {}

  // --- Endpoint threads ---

  /** All threads ever started, and all threads ever waited for. */
  function Spawned(trace: seq<Action>): seq<Pump> {
    if trace == [] then []
    else
      var a := trace[|trace| - 1];
      Spawned(trace[..|trace| - 1]) + if a.Spawn? then a.pumps else []
  }

  function Joined(trace: seq<Action>): seq<Pump> {
    if trace == [] then []
    else
      var a := trace[|trace| - 1];
      Joined(trace[..|trace| - 1]) + if a.Join? then a.pumps else []
  }

  /** The threads started last, unless they have been waited for. */
  function InHand(trace: seq<Action>): seq<Pump> {
    if trace == [] then []
    else
      var a := trace[|trace| - 1];
      if a.Spawn? then a.pumps else if a.Join? then [] else InHand(trace[..|trace| - 1])
  }

  function LastEvent(trace: seq<Action>): Option<Event> {
    if trace == [] then None
    else
      var a := trace[|trace| - 1];
      if a.Fetch? then Some(a.event) else LastEvent(trace[..|trace| - 1])
  }

  /** Threads started at `i` have not been waited for when the next configuration is brought up at `j`. */
  ghost predicate Overtaken(trace: seq<Action>, i: nat, j: nat) {
    && i < j < |trace| && trace[i].Spawn? && trace[i].pumps != [] && trace[j].Spawn?
    && forall k | i < k < j :: !trace[k].Join?
  }

  ghost predicate SomeOvertaken(trace: seq<Action>) {
    exists i, j :: Overtaken(trace, i, j)
  }

  /** Threads started at `i` have not been waited for. */
  ghost predicate Unjoined(trace: seq<Action>, i: nat) {
    i < |trace| && trace[i].Spawn? && trace[i].pumps != [] && forall k | i < k < |trace| :: !trace[k].Join?
  }

  ghost predicate SomeUnjoined(trace: seq<Action>) {
    exists i :: Unjoined(trace, i)
  }

  lemma OvertakenAt(before: seq<Action>, a: Action, i: nat, j: nat)
    requires i < j <= |before|
    ensures Overtaken(before + [a], i, j)
       <==> if j < |before| then Overtaken(before, i, j) else a.Spawn? && Unjoined(before, i)
  {
    var trace := before + [a];
    assert forall k | 0 <= k < |before| :: trace[k] == before[k];
    assert trace[|before|] == a;
  }

  lemma UnjoinedAt(before: seq<Action>, a: Action, i: nat)
    requires i <= |before|
    ensures Unjoined(before + [a], i)
       <==> if i < |before| then !a.Join? && Unjoined(before, i) else a.Spawn? && a.pumps != []
  {
    var trace := before + [a];
    assert forall k | 0 <= k < |before| :: trace[k] == before[k];
    assert trace[|before|] == a;
  }

  lemma OvertakenNext(before: seq<Action>, a: Action)
    ensures SomeOvertaken(before + [a]) <==> SomeOvertaken(before) || (a.Spawn? && SomeUnjoined(before))
    ensures SomeUnjoined(before + [a]) <==>
              (a.Spawn? && a.pumps != []) || (!a.Join? && SomeUnjoined(before))
  {
    forall i: nat, j: nat | i < j <= |before|
      ensures Overtaken(before + [a], i, j)
         <==> if j < |before| then Overtaken(before, i, j) else a.Spawn? && Unjoined(before, i)
    {
      OvertakenAt(before, a, i, j);
    }
    forall i: nat | i <= |before|
      ensures Unjoined(before + [a], i)
         <==> if i < |before| then !a.Join? && Unjoined(before, i) else a.Spawn? && a.pumps != []
    {
      UnjoinedAt(before, a, i);
    }
    OvertakenRange(before);
    OvertakenRange(before + [a]);
    hide Overtaken, Unjoined;
    if SomeOvertaken(before) {
      var i, j :| Overtaken(before, i, j);
      assert Overtaken(before + [a], i, j);
    }
    if SomeUnjoined(before) {
      var i :| Unjoined(before, i);
      assert a.Spawn? ==> Overtaken(before + [a], i, |before|);
      assert !a.Join? ==> Unjoined(before + [a], i);
    }
    assert a.Spawn? && a.pumps != [] ==> Unjoined(before + [a], |before|);
  }

  lemma OvertakenRange(trace: seq<Action>)
    ensures forall i: nat, j: nat | Overtaken(trace, i, j) :: i < j < |trace|
    ensures forall i: nat | Unjoined(trace, i) :: i < |trace|
  {}

  /** Every thread started has been waited for, was lost sight of, or is in hand. */
  ghost predicate Conserved(spawned: seq<Pump>, joined: seq<Pump>, lost: seq<Pump>, inHand: seq<Pump>) {
    multiset(spawned) == multiset(joined) + multiset(lost) + multiset(inHand)
  }

  lemma ConservedNext(spawned: seq<Pump>, joined: seq<Pump>, lost: seq<Pump>, inHand: seq<Pump>, pumps: seq<Pump>)
    requires Conserved(spawned, joined, lost, inHand)
    ensures Conserved(spawned + pumps, joined + [], lost + inHand, pumps)
    ensures Conserved(spawned + [], joined + inHand, lost, [])
    ensures Conserved(spawned + [], joined + [], lost, inHand)
  {}

  /** What the verdict says of the threads. */
  ghost predicate ThreadsExplained(m: Verdict, trace: seq<Action>)
    requires m.Mon?
  {
    && m.inHand == InHand(trace)
    && Conserved(Spawned(trace), Joined(trace), m.lost, m.inHand)
    && (m.lost != [] <==> SomeOvertaken(trace))
    && (m.inHand != [] ==> SomeUnjoined(trace))
    && (SomeUnjoined(trace) ==> m.inHand != [] || SomeOvertaken(trace))
    && (m.joining ==> SinceFetch(trace) == [] && LastEvent(trace).Some? && Ends(LastEvent(trace).value))
    && (!m.joining && !m.ended && LastEvent(trace).Some? && Ends(LastEvent(trace).value) ==>
          |trace| > 0 && SinceFetch(trace) == [Join(InHand(trace[..|trace| - 1]))])
  }

  /** What one more action does to the threads. */
  ghost predicate ThreadStep(m: Verdict, u: Verdict, a: Action)
    requires m.Mon? && u.Mon?
  {
    && u.inHand == (if a.Spawn? then a.pumps else if a.Join? then [] else m.inHand)
    && u.lost == (if a.Spawn? then m.lost + m.inHand else m.lost)
    && u.joining == (if a.Fetch? then Ends(a.event) else m.joining && !a.Join?)
    && (a.Join? ==> m.joining && a.pumps == m.inHand)
    && (!a.Fetch? && !a.Join? && !u.ended ==> m.current.Some?) && (m.joining ==> a.Join?)
  }

  lemma ObserveThreads(m: Verdict, a: Action)
    requires m.Mon? && Observe(m, a).Mon? && (m.joining ==> m.current.None?)
    requires m.current.None? ==> m.stage.Quiet?
    ensures ThreadStep(m, Observe(m, a), a)
  {
    hide Walk, SetupOf;
  }

  lemma ThreadHistoryNext(before: seq<Action>, a: Action)
    ensures var trace := before + [a];
            && Spawned(trace) == Spawned(before) + (if a.Spawn? then a.pumps else [])
            && Joined(trace) == Joined(before) + (if a.Join? then a.pumps else [])
            && InHand(trace) == (if a.Spawn? then a.pumps else if a.Join? then [] else InHand(before))
            && LastEvent(trace) == (if a.Fetch? then Some(a.event) else LastEvent(before))
            && SinceFetch(trace) == (if a.Fetch? then [] else SinceFetch(before) + [a])
            && trace[..|trace| - 1] == before
  {
    assert (before + [a])[..|before|] == before;
  }

  lemma {:induction false} RequestOfLastEvent(trace: seq<Action>)
    ensures LastEvent(trace).Some? && !LastEvent(trace).value.Control? ==> CurrentRequest(trace).None?
    ensures LastEvent(trace).Some? && Ends(LastEvent(trace).value) ==> CurrentRequest(trace).None?
  {
    if trace != [] {
      RequestOfLastEvent(trace[..|trace| - 1]);
    }
  }

  lemma ThreadsNext(m: Verdict, u: Verdict, before: seq<Action>, a: Action)
    requires m.Mon? && u.Mon? && ThreadsExplained(m, before) && ThreadStep(m, u, a)
    requires LastEvent(before).Some? && Ends(LastEvent(before).value) ==> m.current.None?
    ensures ThreadsExplained(u, before + [a])
  {
    ThreadHistoryNext(before, a);
    OvertakenNext(before, a);
    ConservedNext(Spawned(before), Joined(before), m.lost, m.inHand, if a.Spawn? then a.pumps else []);
    hide Spawned, Joined, InHand, LastEvent, SinceFetch, SomeOvertaken, SomeUnjoined, Conserved;
    assert [] + [a] == [a];
  }

  lemma {:induction false} VerdictExplainsThreads(trace: seq<Action>)
    requires Judge(trace).Mon?
    ensures ThreadsExplained(Judge(trace), trace)
  {
    if trace != [] {
      var before, a := trace[..|trace| - 1], trace[|trace| - 1];
      assert trace == before + [a];
      BadStaysBad(Judge(before), a);
      VerdictExplainsThreads(before);
      VerdictExplains(before);
      JudgeNext(before, a);
      hide Judge, Witnessed, Replies, SinceFetch, LastEvent;
      ObserveThreads(Judge(before), a);
      RequestOfLastEvent(before);
      hide Observe, ThreadStep, ThreadsExplained;
      ThreadsNext(Judge(before), Judge(trace), before, a);
    }
  }

  /** Whenever an event is fetched after a reset or a disconnection, exactly the threads in hand have been
      waited for in between. */
  lemma ResetJoinsThreadsInHand(trace: seq<Action>, k: nat)
    requires Judge(trace).Mon? && k < |trace| && (trace[k].Fetch? || trace[k].FetchFails?)
    requires LastEvent(trace[..k]) == Some(Reset) || LastEvent(trace[..k]) == Some(Disconnect)
    ensures k > 0 && SinceFetch(trace[..k]) == [Join(InHand(trace[..k - 1]))]
  {
    At(trace, k);
    VerdictExplainsThreads(trace[..k]);
    hide Judge;
    assert trace[..k][..k - 1] == trace[..k - 1];
  }

  /** Threads are waited for at no other time. */
  lemma JoinsOnlyAfterReset(trace: seq<Action>, k: nat)
    requires Judge(trace).Mon? && k < |trace| && trace[k].Join?
    ensures LastEvent(trace[..k]) == Some(Reset) || LastEvent(trace[..k]) == Some(Disconnect)
    ensures trace[k].pumps == InHand(trace[..k])
  {
    At(trace, k);
    VerdictExplainsThreads(trace[..k]);
    hide *;
    JoinIsDue(Judge(trace[..k]), trace[..k], trace[k]);
  }

  lemma JoinIsDue(m: Verdict, before: seq<Action>, a: Action)
    requires m.Mon? && ThreadsExplained(m, before) && Observe(m, a).Mon? && a.Join?
    ensures LastEvent(before) == Some(Reset) || LastEvent(before) == Some(Disconnect)
    ensures a.pumps == InHand(before)
  {
    hide LastEvent, InHand, SinceFetch, Spawned, Joined, SomeOvertaken, SomeUnjoined;
  }

  /** Every thread ever started has been waited for. */
  ghost predicate AllJoined(trace: seq<Action>) {
    multiset(Spawned(trace)) == multiset(Joined(trace))
  }

  /** After a join, every thread ever started has been waited for if and only if no configuration was ever
      brought up over threads of an earlier one that were still to be waited for. */
  lemma NobodyIsLostExactly(trace: seq<Action>, k: nat)
    requires Judge(trace).Mon? && k < |trace| && trace[k].Join?
    ensures AllJoined(trace[..k + 1]) <==> !SomeOvertaken(trace[..k + 1])
  {
    hide *;
    PrefixIsJudged(trace, k + 1);
    assert trace[..k + 1] == trace[..k] + [trace[k]];
    JoinLeavesLost(trace[..k], trace[k]);
  }

  lemma JoinLeavesLost(before: seq<Action>, a: Action)
    requires Judge(before + [a]).Mon? && a.Join?
    ensures AllJoined(before + [a]) <==> !SomeOvertaken(before + [a])
  {
    hide *;
    JudgeNext(before, a);
    VerdictExplainsThreads(before + [a]);
    JoinEmptiesHands(Judge(before), a);
    LostExactly(Judge(before + [a]), before + [a]);
  }

  lemma JoinEmptiesHands(m: Verdict, a: Action)
    requires Observe(m, a).Mon? && a.Join?
    ensures Observe(m, a).inHand == []
  {}

  lemma LostExactly(m: Verdict, trace: seq<Action>)
    requires m.Mon? && ThreadsExplained(m, trace) && m.inHand == []
    ensures AllJoined(trace) <==> !SomeOvertaken(trace)
  {
    hide Spawned, Joined, InHand, SomeOvertaken, SomeUnjoined, SinceFetch, LastEvent;
    var all, joined, lost := multiset(Spawned(trace)), multiset(Joined(trace)), multiset(m.lost);
    assert |all| == |joined| + |lost| && |lost| == |m.lost|;
    if m.lost == [] {
      assert lost == multiset{};
    }
  }

  // --- At every event ---

  /** Nothing needs to be done about a connection, suspension, resumption or an unknown event. */
  predicate AsksNothing(event: Option<Event>) {
    event.Some? && match event.value
                   case Control(_) => false
                   case Reset => false
                   case Disconnect => false
                   case _ => true
  }

  lemma {:induction false} NothingIsDone(trace: seq<Action>)
    requires Judge(trace).Mon?
    ensures !Judge(trace).ended && AsksNothing(LastEvent(trace)) ==> SinceFetch(trace) == []
  {
    if trace != [] {
      var before, a := trace[..|trace| - 1], trace[|trace| - 1];
      assert trace == before + [a];
      JudgeNext(before, a);
      BadStaysBad(Judge(before), a);
      hide Judge, Observe;
      ThreadHistoryNext(before, a);
      NothingIsDone(before);
      VerdictExplains(before);
      VerdictExplainsThreads(before);
      RequestOfLastEvent(before);
      hide SinceFetch, LastEvent, CurrentRequest, LatestConfig, Witnessed, Replies, Progress;
      ObserveThreads(Judge(before), a);
    }
  }

  /** When action `k` asks for the next event, the last one has been dealt with: a control request has had one
      EP0 reply and any other event none; after a reset or a disconnection the threads in hand have been
      waited for; after any other event nothing has been done. Every reply made is the one owed. */
  ghost predicate DealtWith(trace: seq<Action>, k: nat)
    requires k < |trace|
  {
    var last, done, current := LastEvent(trace[..k]), SinceFetch(trace[..k]), CurrentRequest(trace[..k]);
    && (trace[k].Fetch? || trace[k].FetchFails? ==>
          && Replies(done) == (if current.Some? then 1 else 0)
          && (last == Some(Reset) || last == Some(Disconnect) ==> k > 0 && done == [Join(InHand(trace[..k - 1]))])
          && (AsksNothing(last) ==> done == []))
    && (trace[k].IsEp0() ==> current.Some? && Owed(current.value, done, trace[k]))
  }

  lemma EventsAreDealtWith(trace: seq<Action>, k: nat)
    requires Judge(trace).Mon? && k < |trace|
    ensures DealtWith(trace, k)
  {
    hide Judge, Replies, SinceFetch, CurrentRequest, LastEvent, InHand, Owed, Observe;
    if trace[k].Fetch? || trace[k].FetchFails? {
      OneReplyPerRequest(trace, k);
      At(trace, k);
      NothingIsDone(trace[..k]);
      if LastEvent(trace[..k]) == Some(Reset) || LastEvent(trace[..k]) == Some(Disconnect) {
        ResetJoinsThreadsInHand(trace, k);
      }
    } else if trace[k].IsEp0() {
      RepliesAreOwed(trace, k);
    }
  }
}
