/** How the outside answers the calls of the event loop. Together with the order the monitor demands, the
    answers leave the loop no choice: they determine its record. */
module Scripts {
  import opened Bytes
  import opened Descriptors
  import opened Monitor
  import opened Records
  import Gadget

  /** The answer to one call; an answer of the wrong kind counts as a failure. */
  datatype Outcome =
    | Failure
    | Done
    | Happened(event: Event)
    | Answered(urb: Urb)
    | Stored(read: Gadget.KernelRead)
    | Enabled(handle: nat)

  /** When the script is used up, calls fail. */
  function Head(script: seq<Outcome>): Outcome {
    if script == [] then Failure else script[0]
  }

  function Rest(script: seq<Outcome>): (rest: seq<Outcome>)
    ensures |rest| <= |script|
  {
    if script == [] then [] else script[1..]
  }

  /** Starting and waiting for threads asks nothing of the outside. */
  predicate Asks(a: Action) {
    !a.Spawn? && !a.Join?
  }

  /** What a read of `count` bytes gives; the driver stores no more than it was asked for. */
  function ReadResult(o: Outcome, count: nat): (got: Option<seq<byte>>)
    ensures got.Some? <==> o.Stored? && |o.read.stored| <= Min(count, 512)
    ensures got.Some? ==>
              && |got.value| == Min(o.read.transferred, Min(count, 512))
              && forall i | 0 <= i < |got.value| :: got.value[i] == if i < |o.read.stored| then o.read.stored[i] else 0
  {
    var n := Min(count, Gadget.EP0_BUF_SIZE);
    if o.Stored? && |o.read.stored| <= n then Some(Gadget.Received(o.read, n)) else None
  }

  /** The result recorded for the call is what the outcome says. */
  predicate Fits(o: Outcome, a: Action) {
    match a
    case Fetch(e) => o == Happened(e)
    case FetchFails => !o.Happened?
    case Submit(_, _, _, _, urb) => urb == if o.Answered? then Some(o.urb) else None
    case Ep0Read(count, got) => got == ReadResult(o, count)
    case Ep0Write(data, ok) => ok == (o.Done? && |data| <= Gadget.EP0_BUF_SIZE)
    case Ep0Stall(ok) => ok == o.Done?
    case EpEnable(_, handle) => handle == if o.Enabled? then Some(o.handle) else None
    case VbusDraw(_, ok) => ok == o.Done?
    case Configure(ok) => ok == o.Done?
    case _ => true
  }

  /** What is left of the script after the calls of a record; None if the record is not what it says. */
  function Unread(script: seq<Outcome>, trace: seq<Action>): Option<seq<Outcome>> {
    if trace == [] then Some(script)
    else
      match Unread(script, trace[..|trace| - 1])
      case None => None
      case Some(rest) => After(rest, trace[|trace| - 1])
  }

  function After(rest: seq<Outcome>, a: Action): Option<seq<Outcome>> {
    if !Asks(a) then Some(rest) else if Fits(Head(rest), a) then Some(Rest(rest)) else None
  }

  lemma UnreadNext(script: seq<Outcome>, trace: seq<Action>, a: Action)
    requires Unread(script, trace).Some?
    ensures Unread(script, trace + [a]) == After(Unread(script, trace).value, a)
  {
    assert (trace + [a])[..|trace|] == trace;
  }

  // --- The record is determined ---

  /** What a verdict on an accepted record is like. */
  predicate Sound(m: Verdict) {
    && m.Mon? && (m.current.None? ==> m.stage.Quiet?) && (m.joining ==> m.current.None?)
    && (m.answer.Some? ==> m.current.Some? && !HandlingOf(m.current.value).Address?)
    && (!m.stage.Quiet? && !m.ended ==>
          && m.answer.Some? && m.answer.value.status == 0 && m.config.Some? && m.current.Some?
          && HandlingOf(m.current.value).Configuration? && m.replied == m.stage.Acked?)
  }

  lemma VerdictIsSound(trace: seq<Action>)
    requires Judge(trace).Mon?
    ensures Sound(Judge(trace))
  {
    VerdictExplains(trace);
    hide Judge, Progress, Replies, HandlingOf, SetupOf, SinceFetch, LatestConfig, CurrentRequest;
  }

  /** The monitor allows one call at a time, and the outcome settles its result. */
  lemma CallIsDetermined(m: Verdict, rest: seq<Outcome>, a: Action, b: Action)
    requires Sound(m) && Observe(m, a).Mon? && Observe(m, b).Mon? && After(rest, a).Some? && After(rest, b).Some?
    ensures a == b
  {
    hide Walk, SetupOf, ReadResult;
  }

  /** Nothing follows the record of a run that has stopped. */
  lemma NothingFollows(m: Verdict, a: Action)
    requires Sound(m) && Stopped(m)
    ensures Observe(m, a).Bad?
  {
    hide Walk, SetupOf;
  }

  lemma NextIsDetermined(script: seq<Outcome>, before: seq<Action>, a: Action, b: Action)
    requires Judge(before + [a]).Mon? && Judge(before + [b]).Mon? && Unread(script, before).Some?
    requires Unread(script, before + [a]).Some? && Unread(script, before + [b]).Some?
    ensures a == b
  {
    hide *;
    JudgeNext(before, a);
    JudgeNext(before, b);
    BadStaysBad(Judge(before), a);
    VerdictIsSound(before);
    UnreadNext(script, before, a);
    UnreadNext(script, before, b);
    CallIsDetermined(Judge(before), Unread(script, before).value, a, b);
  }

  /** Two records that are in order and answered by one script are the same as far as the shorter goes. */
  lemma {:induction false} RecordIsDetermined(script: seq<Outcome>, s: seq<Action>, t: seq<Action>)
    requires Judge(s).Mon? && Judge(t).Mon? && Unread(script, s).Some? && Unread(script, t).Some? && |s| <= |t|
    ensures s <= t
    decreases |s| + |t|
  {
    hide *;
    if s != [] {
      var a, b, before := s[|s| - 1], t[|s| - 1], s[..|s| - 1];
      assert s == before + [a];
      PrefixIsJudged(s, |s| - 1);
      PrefixIsAnswered(script, s, |s| - 1);
      RecordIsDetermined(script, before, t);
      assert t[..|s|] == before + [b];
      PrefixIsAnswered(script, t, |s|);
      PrefixIsJudged(t, |s|);
      NextIsDetermined(script, before, a, b);
    }
  }

  lemma {:induction false} PrefixIsAnswered(script: seq<Outcome>, trace: seq<Action>, k: nat)
    requires Unread(script, trace).Some? && k <= |trace|
    ensures Unread(script, trace[..k]).Some?
  {
    hide After;
    if k == |trace| {
      assert trace[..k] == trace;
    } else {
      PrefixIsAnswered(script, trace[..|trace| - 1], k);
      assert trace[..|trace| - 1][..k] == trace[..k];
    }
  }

  /** The record of a run that has stopped is the longest that its script allows: every other record that is
      in order and answered by that script is a prefix of it. */
  lemma StoppedRecordIsLongest(script: seq<Outcome>, t: seq<Action>, run: seq<Action>)
    requires Judge(t).Mon? && Unread(script, t).Some? && Stopped(Judge(run)) && Unread(script, run).Some?
    ensures t <= run
  {
    hide Unread, Observe;
    if |t| <= |run| {
      RecordIsDetermined(script, t, run);
    } else {
      RecordIsDetermined(script, run, t);
      var a := t[|run|];
      PrefixIsJudged(t, |run| + 1);
      assert t[..|run| + 1] == run + [a];
      JudgeNext(run, a);
      VerdictIsSound(run);
      NothingFollows(Judge(run), a);
    }
  }

  /** A reply with data goes on exactly when the driver takes it and it is no longer than 512 bytes, and
      otherwise it is the last thing the program does. */
  lemma WriteEndsRunExactly(script: seq<Outcome>, trace: seq<Action>, k: nat)
    requires Judge(trace).Mon? && Unread(script, trace).Some? && k < |trace| && trace[k].Ep0Write?
    ensures Unread(script, trace[..k]).Some?
    ensures trace[k].ok <==>
              Head(Unread(script, trace[..k]).value).Done? && |trace[k].data| <= 512
    ensures !trace[k].ok ==> k == |trace| - 1 && Judge(trace).ended
  {
    hide Unread, Judge;
    PrefixIsAnswered(script, trace, k);
    PrefixIsAnswered(script, trace, k + 1);
    assert trace[..k + 1] == trace[..k] + [trace[k]];
    UnreadNext(script, trace[..k], trace[k]);
    if !trace[k].ok {
      PrefixIsJudged(trace, k + 1);
      JudgeNext(trace[..k], trace[k]);
      if k + 1 < |trace| {
        At(trace, k + 1);
      } else {
        assert trace[..k + 1] == trace;
      }
    }
  }

  lemma EndedIsWhole(t: seq<Action>, run: seq<Action>)
    requires Judge(t).Mon? && Judge(t).ended && Judge(run).Mon? && t <= run
    ensures t == run
  {
    hide Judge;
    if |t| < |run| {
      assert run[..|t|] == t;
      At(run, |t|);
    }
  }
}
