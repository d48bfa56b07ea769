/** The three mutexes, acquisition by acquisition: the shared-state mutex and the channel map's mutex are
    taken and given back in steps of their own, and every mutex has an owner. The bridge's steps are runs of
    these, so a deadlock of the program would be one here (usbipdevirt/src/main.rs:60-118;
    usbip/src/client.rs:257-300 and 330-370). */
module BridgeLocks {
  import opened Bytes
  import opened Wire
  import opened Commands
  import opened Responses
  import opened BridgeSystem
  import opened BridgeSafety

  datatype Lock = WriterLock | SharedLock | MapLock
  datatype Actor = CallActor(ch: Chan) | ReaderActor

  /** Where a call is with respect to the mutexes. */
  datatype Spot =
    | Start | HasWriter | Registering | Sending | Botched | RollingBack | Posted | Inserting | Leaving | Over

  /** Where the reader is. */
  datatype Place = Reading | Looking | Settling | Carrying | Taking | Handing | Ending | Emptying | Ended

  datatype LockOp = Take(lock: Lock) | Give(lock: Lock) | Free

  datatype Locks = Locks(calls: seq<Spot>, reader: Place, owner: map<Lock, Actor>)

  datatype Move = Enter | CallGoes(ch: Chan, to: Spot, op: LockOp) | ReaderGoes(place: Place, op: LockOp)

  /** What a call does next: the nesting is writer, then shared or map. */
  predicate CallMay(from: Spot, to: Spot, op: LockOp) {
    match from
    case Start => to.HasWriter? && op == Take(WriterLock)
    case HasWriter => to.Registering? && op == Take(SharedLock)
    case Registering => to.Sending? && op == Give(SharedLock)
    case Sending => ((to.Botched? || to.Posted?) && op.Free?) || (to.Over? && op == Give(WriterLock))
    case Botched => to.RollingBack? && op == Take(SharedLock)
    case Posted => to.Inserting? && op == Take(MapLock)
    case RollingBack => to.Leaving? && op == Give(SharedLock)
    case Inserting => to.Leaving? && op == Give(MapLock)
    case Leaving => to.Over? && op == Give(WriterLock)
    case Over => false
  }

  predicate ReaderMay(from: Place, to: Place, op: LockOp) {
    match from
    case Reading => ((to.Looking? || to.Settling?) && op == Take(SharedLock)) || (to.Ending? && op.Free?)
    case Looking => (to.Carrying? || to.Ending?) && op == Give(SharedLock)
    case Settling => to.Reading? && op == Give(SharedLock)
    case Carrying => (to.Taking? && op == Take(MapLock)) || (to.Ending? && op.Free?)
    case Taking => (to.Handing? || to.Reading?) && op == Give(MapLock)
    case Handing => to.Reading? && op.Free?
    case Ending => to.Emptying? && op == Take(MapLock)
    case Emptying => to.Ended? && op == Give(MapLock)
    case Ended => false
  }

  predicate MayMove(s: Locks, m: Move) {
    match m
    case Enter => true
    case CallGoes(ch, to, op) => ch < |s.calls| && CallMay(s.calls[ch], to, op) && (op.Take? ==> op.lock !in s.owner)
    case ReaderGoes(to, op) => ReaderMay(s.reader, to, op) && (op.Take? ==> op.lock !in s.owner)
  }

  function Owner(owner: map<Lock, Actor>, a: Actor, op: LockOp): map<Lock, Actor> {
    match op
    case Take(l) => owner[l := a]
    case Give(l) => owner - {l}
    case Free => owner
  }

  function Moved(s: Locks, m: Move): Locks
    requires MayMove(s, m)
  {
    match m
    case Enter => s.(calls := s.calls + [Start])
    case CallGoes(ch, to, op) => s.(calls := s.calls[ch := to], owner := Owner(s.owner, CallActor(ch), op))
    case ReaderGoes(to, op) => s.(reader := to, owner := Owner(s.owner, ReaderActor, op))
  }

  function RunLocks(s: Locks, ms: seq<Move>): Option<Locks>
    decreases |ms|
  {
    if ms == [] then Some(s)
    else if !MayMove(s, ms[0]) then None
    else RunLocks(Moved(s, ms[0]), ms[1..])
  }

  // --- Owners ---

  predicate CallHolds(p: Spot, l: Lock) {
    match l
    case WriterLock => !p.Start? && !p.Over?
    case SharedLock => p.Registering? || p.RollingBack?
    case MapLock => p.Inserting?
  }

  predicate ReaderHolds(p: Place, l: Lock) {
    match l
    case WriterLock => false
    case SharedLock => p.Looking? || p.Settling?
    case MapLock => p.Taking? || p.Emptying?
  }

  /** A mutex has the owner that is inside one of its regions, and nobody else is. */
  ghost predicate OwnersInv(s: Locks) {
    && (forall ch, l | 0 <= ch < |s.calls| ::
          CallHolds(s.calls[ch], l) <==> l in s.owner && s.owner[l] == CallActor(ch))
    && (forall l :: ReaderHolds(s.reader, l) <==> l in s.owner && s.owner[l] == ReaderActor)
    && (forall l | l in s.owner && s.owner[l].CallActor? :: s.owner[l].ch < |s.calls|)
  }

  lemma CallOpsMatch(from: Spot, to: Spot, op: LockOp, l: Lock)
    requires CallMay(from, to, op)
    ensures CallHolds(to, l) <==> op == Take(l) || (CallHolds(from, l) && op != Give(l))
    ensures op == Give(l) ==> CallHolds(from, l)
  {}

  lemma ReaderOpsMatch(from: Place, to: Place, op: LockOp, l: Lock)
    requires ReaderMay(from, to, op)
    ensures ReaderHolds(to, l) <==> op == Take(l) || (ReaderHolds(from, l) && op != Give(l))
    ensures op == Give(l) ==> ReaderHolds(from, l)
  {}

  lemma MoveKeepsOwners(s: Locks, m: Move)
    requires OwnersInv(s) && MayMove(s, m)
    ensures OwnersInv(Moved(s, m))
  {
    match m
    case Enter =>
    case CallGoes(ch, to, op) => CallKeepsOwners(s, ch, to, op);
    case ReaderGoes(to, op) => ReaderKeepsOwners(s, to, op);
  }

  lemma CallKeepsOwners(s: Locks, ch: Chan, to: Spot, op: LockOp)
    requires OwnersInv(s) && MayMove(s, CallGoes(ch, to, op))
    ensures OwnersInv(Moved(s, CallGoes(ch, to, op)))
  {
    var u := Moved(s, CallGoes(ch, to, op));
    forall l
      ensures CallHolds(to, l) <==> op == Take(l) || (CallHolds(s.calls[ch], l) && op != Give(l))
      ensures op == Give(l) ==> CallHolds(s.calls[ch], l)
    {
      CallOpsMatch(s.calls[ch], to, op, l);
    }
    hide CallMay, CallHolds, ReaderHolds, ReaderMay;
    forall c, l | 0 <= c < |u.calls|
      ensures CallHolds(u.calls[c], l) <==> l in u.owner && u.owner[l] == CallActor(c)
    {
      assert CallHolds(s.calls[c], l) <==> l in s.owner && s.owner[l] == CallActor(c);
      assert CallHolds(s.calls[ch], l) <==> l in s.owner && s.owner[l] == CallActor(ch);
    }
    forall l
      ensures ReaderHolds(u.reader, l) <==> l in u.owner && u.owner[l] == ReaderActor
    {
      assert ReaderHolds(s.reader, l) <==> l in s.owner && s.owner[l] == ReaderActor;
      assert CallHolds(s.calls[ch], l) <==> l in s.owner && s.owner[l] == CallActor(ch);
    }
  }

  lemma ReaderKeepsOwners(s: Locks, to: Place, op: LockOp)
    requires OwnersInv(s) && MayMove(s, ReaderGoes(to, op))
    ensures OwnersInv(Moved(s, ReaderGoes(to, op)))
  {
    forall l
      ensures ReaderHolds(to, l) <==> op == Take(l) || (ReaderHolds(s.reader, l) && op != Give(l))
      ensures op == Give(l) ==> ReaderHolds(s.reader, l)
    {
      ReaderOpsMatch(s.reader, to, op, l);
    }
    hide CallMay, CallHolds, ReaderHolds, ReaderMay;
    var u := Moved(s, ReaderGoes(to, op));
    forall c, l | 0 <= c < |u.calls|
      ensures CallHolds(u.calls[c], l) <==> l in u.owner && u.owner[l] == CallActor(c)
    {
      assert CallHolds(s.calls[c], l) <==> l in s.owner && s.owner[l] == CallActor(c);
      assert ReaderHolds(s.reader, l) <==> l in s.owner && s.owner[l] == ReaderActor;
    }
    forall l
      ensures ReaderHolds(u.reader, l) <==> l in u.owner && u.owner[l] == ReaderActor
    {
      assert ReaderHolds(s.reader, l) <==> l in s.owner && s.owner[l] == ReaderActor;
    }
    assert forall l | l in u.owner && u.owner[l].CallActor? :: l in s.owner && u.owner[l] == s.owner[l];
  }

  const NOBODY: Locks := Locks([], Reading, map[])

  lemma {:induction false} RunKeepsOwners(s: Locks, ms: seq<Move>)
    requires OwnersInv(s) && RunLocks(s, ms).Some?
    ensures OwnersInv(RunLocks(s, ms).value)
    decreases |ms|
  {
    hide OwnersInv, MayMove, Moved;
    if ms != [] {
      MoveKeepsOwners(s, ms[0]);
      RunKeepsOwners(Moved(s, ms[0]), ms[1..]);
    }
  }

  // --- Waiting ---

  /** The actor cannot go on without a mutex that another one owns. */
  ghost predicate Wants(s: Locks, a: Actor, l: Lock) {
    match a
    case CallActor(ch) => ch < |s.calls| && exists to :: CallMay(s.calls[ch], to, Take(l))
    case ReaderActor => exists to :: ReaderMay(s.reader, to, Take(l))
  }

  ghost predicate WaitsFor(s: Locks, a: Actor, b: Actor) {
    exists l :: Wants(s, a, l) && l in s.owner && s.owner[l] == b
  }

  ghost predicate LockCycle(s: Locks, cycle: seq<Actor>) {
    && |cycle| > 0
    && (forall i | 0 <= i < |cycle| - 1 :: WaitsFor(s, cycle[i], cycle[i + 1]))
    && WaitsFor(s, cycle[|cycle| - 1], cycle[0])
  }

  /** Inside the inner regions nothing is wanted. */
  lemma InnerOwnerWantsNothing(s: Locks, a: Actor, l: Lock, more: Lock)
    requires OwnersInv(s) && l in s.owner && s.owner[l] == a && !l.WriterLock?
    ensures !Wants(s, a, more)
  {}

  lemma WriterOwnerWantsInner(s: Locks, a: Actor, l: Lock)
    requires OwnersInv(s) && WriterLock in s.owner && s.owner[WriterLock] == a && Wants(s, a, l)
    ensures !l.WriterLock?
  {}

  /** Nobody who waits is waited for but for the writer mutex, and then by nobody it waits for. */
  lemma ChainsAreShort(s: Locks, a: Actor, b: Actor, c: Actor, d: Actor)
    requires OwnersInv(s) && WaitsFor(s, a, b) && WaitsFor(s, b, c)
    ensures !WaitsFor(s, c, d)
  {
    var l :| Wants(s, a, l) && l in s.owner && s.owner[l] == b;
    var m :| Wants(s, b, m) && m in s.owner && s.owner[m] == c;
    if !l.WriterLock? {
      InnerOwnerWantsNothing(s, b, l, m);
    } else {
      WriterOwnerWantsInner(s, b, m);
      if WaitsFor(s, c, d) {
        var n :| Wants(s, c, n) && n in s.owner && s.owner[n] == d;
        InnerOwnerWantsNothing(s, c, m, n);
      }
    }
  }

  /** In no reachable state is there a cycle of actors each waiting for a mutex the next one owns. */
  lemma NoLockCycle(ms: seq<Move>, s: Locks, cycle: seq<Actor>)
    requires RunLocks(NOBODY, ms) == Some(s)
    ensures !LockCycle(s, cycle)
  {
    RunKeepsOwners(NOBODY, ms);
    hide OwnersInv, WaitsFor;
    if LockCycle(s, cycle) {
      var n := |cycle|;
      var b, c := cycle[if n > 1 then 1 else 0], cycle[if n > 2 then 2 else 0];
      var d := if n > 3 then cycle[3] else if n == 3 then cycle[0] else if n == 2 then cycle[1] else cycle[0];
      ChainsAreShort(s, cycle[0], b, c, d);
    }
  }

  ghost predicate GoesOn(s: Locks, a: Actor) {
    match a
    case CallActor(ch) => exists to, op :: MayMove(s, CallGoes(ch, to, op))
    case ReaderActor => exists to, op :: MayMove(s, ReaderGoes(to, op))
  }

  /** Whoever owns a mutex can go on, or waits for one whose owner can. */
  lemma OwnersGoOn(ms: seq<Move>, s: Locks, l: Lock)
    requires RunLocks(NOBODY, ms) == Some(s) && l in s.owner
    ensures GoesOn(s, s.owner[l]) || exists m :: m in s.owner && Wants(s, s.owner[l], m) && GoesOn(s, s.owner[m])
  {
    RunKeepsOwners(NOBODY, ms);
    InnerOwnersGoOn(s);
    var a := s.owner[l];
    if l.WriterLock? && a.CallActor? {
      WriterOwnerGoesOn(s, a.ch);
    }
  }

  lemma InnerOwnersGoOn(s: Locks)
    requires OwnersInv(s)
    ensures forall l | l in s.owner && !l.WriterLock? :: GoesOn(s, s.owner[l])
  {
    forall l | l in s.owner && !l.WriterLock?
      ensures GoesOn(s, s.owner[l])
    {
      match s.owner[l]
      case CallActor(ch) =>
        assert CallHolds(s.calls[ch], l);
        var to := if s.calls[ch].Registering? then Sending else Leaving;
        assert MayMove(s, CallGoes(ch, to, Give(l)));
      case ReaderActor =>
        assert ReaderHolds(s.reader, l);
        var to := if s.reader.Looking? then Carrying else if s.reader.Emptying? then Ended else Reading;
        assert MayMove(s, ReaderGoes(to, Give(l)));
    }
  }

  lemma WriterOwnerGoesOn(s: Locks, ch: Chan)
    requires OwnersInv(s) && WriterLock in s.owner && s.owner[WriterLock] == CallActor(ch)
    requires forall l | l in s.owner && !l.WriterLock? :: GoesOn(s, s.owner[l])
    ensures GoesOn(s, CallActor(ch)) ||
            exists m :: m in s.owner && Wants(s, CallActor(ch), m) && GoesOn(s, s.owner[m])
  {
    hide GoesOn;
    assert CallHolds(s.calls[ch], WriterLock);
    var (to, op) := match s.calls[ch]
                    case HasWriter => (Registering, Take(SharedLock))
                    case Registering => (Sending, Give(SharedLock))
                    case Sending => (Posted, Free)
                    case Botched => (RollingBack, Take(SharedLock))
                    case RollingBack => (Leaving, Give(SharedLock))
                    case Posted => (Inserting, Take(MapLock))
                    case Inserting => (Leaving, Give(MapLock))
                    case _ => (Over, Give(WriterLock));
    assert CallMay(s.calls[ch], to, op);
    CallGoesOn(s, ch, to, op);
  }

  lemma CallGoesOn(s: Locks, ch: Chan, to: Spot, op: LockOp)
    requires ch < |s.calls| && CallMay(s.calls[ch], to, op)
    ensures (op.Take? && op.lock in s.owner) || GoesOn(s, CallActor(ch))
  {
    assert !(op.Take? && op.lock in s.owner) ==> MayMove(s, CallGoes(ch, to, op));
  }

  // --- The bridge's steps are runs of these ---

  function SpotOf(pc: Pc): Spot {
    match pc
    case Calling => Start
    case Locked => HasWriter
    case Numbered(_) => HasWriter
    case Writing(_, _) => Sending
    case Failed(_) => Botched
    case Written(_) => Posted
    case Waiting(_, _) => Over
    case Returned(_, _) => Over
  }

  function PlaceOf(reader: Reader): Place {
    match reader
    case AtHeader => Reading
    case AtLookup(_) => Reading
    case AtUnlink(_) => Reading
    case AtPayload(_, _) => Carrying
    case AtDeliver(_) => Carrying
    case AtSend(_, _) => Handing
    case Stopping => Ending
    case Draining => Emptying
    case Stopped => Ended
  }

  function SpotsOf(calls: seq<CallState>): (spots: seq<Spot>)
    ensures |spots| == |calls|
    ensures forall ch | 0 <= ch < |calls| :: spots[ch] == SpotOf(calls[ch].pc)
  {
    seq(|calls|, ch requires 0 <= ch < |calls| => SpotOf(calls[ch].pc))
  }

  /** Between the bridge's steps only the writer mutex and, in the drain, the map's are owned. */
  function OwnersOf(writer: Option<Chan>, reader: Reader): map<Lock, Actor> {
    var w := if writer.Some? then map[WriterLock := CallActor(writer.value)] else map[];
    if reader.Draining? then w[MapLock := ReaderActor] else w
  }

  function LocksOf(s: State): Locks {
    Locks(SpotsOf(s.calls), PlaceOf(s.reader), OwnersOf(s.writer, s.reader))
  }

  lemma OneMove(s: Locks, m: Move)
    requires MayMove(s, m)
    ensures RunLocks(s, [m]) == Some(Moved(s, m))
  {
    hide MayMove, Moved;
    assert RunLocks(Moved(s, m), []) == Some(Moved(s, m));
  }

  lemma {:induction false} MovesAppend(s: Locks, ms: seq<Move>, more: seq<Move>)
    requires RunLocks(s, ms).Some?
    ensures RunLocks(s, ms + more) == RunLocks(RunLocks(s, ms).value, more)
    decreases |ms|
  {
    hide MayMove, Moved;
    if ms == [] {
      assert ms + more == more;
    } else {
      assert (ms + more)[0] == ms[0] && (ms + more)[1..] == ms[1..] + more;
      MovesAppend(Moved(s, ms[0]), ms[1..], more);
    }
  }

  /** Through a region: the mutex is taken and given back. */
  lemma CallCrosses(s: Locks, ch: Chan, l: Lock, inner: Spot, to: Spot) returns (ms: seq<Move>)
    requires ch < |s.calls| && CallMay(s.calls[ch], inner, Take(l)) && CallMay(inner, to, Give(l)) && l !in s.owner
    ensures RunLocks(s, ms) == Some(s.(calls := s.calls[ch := to]))
  {
    var enter, leave := CallGoes(ch, inner, Take(l)), CallGoes(ch, to, Give(l));
    OneMove(s, enter);
    OneMove(Moved(s, enter), leave);
    MovesAppend(s, [enter], [leave]);
    ms := [enter] + [leave];
    assert s.owner[l := CallActor(ch)] - {l} == s.owner;
    assert s.calls[ch := inner][ch := to] == s.calls[ch := to];
  }

  lemma ReaderCrosses(s: Locks, l: Lock, inner: Place, to: Place) returns (ms: seq<Move>)
    requires ReaderMay(s.reader, inner, Take(l)) && ReaderMay(inner, to, Give(l)) && l !in s.owner
    ensures RunLocks(s, ms) == Some(s.(reader := to))
  {
    var enter, leave := ReaderGoes(inner, Take(l)), ReaderGoes(to, Give(l));
    OneMove(s, enter);
    OneMove(Moved(s, enter), leave);
    MovesAppend(s, [enter], [leave]);
    ms := [enter] + [leave];
    assert s.owner[l := ReaderActor] - {l} == s.owner;
  }

  lemma NoMove(s: Locks)
    ensures RunLocks(s, []) == Some(s)
  {}

  lemma SpotMoved(calls: seq<CallState>, ch: Chan, pc: Pc)
    requires ch < |calls|
    ensures SpotsOf(BridgeSystem.Move(calls, ch, pc)) == SpotsOf(calls)[ch := SpotOf(pc)]
  {}

  /** The writer mutex is given back. */
  lemma WriterLeaves(s: Locks, ch: Chan, reader: Reader) returns (ms: seq<Move>)
    requires ch < |s.calls| && CallMay(s.calls[ch], Over, Give(WriterLock)) && s.owner == OwnersOf(Some(ch), reader)
    ensures RunLocks(s, ms) == Some(s.(calls := s.calls[ch := Over], owner := OwnersOf(None, reader)))
  {
    ms := [CallGoes(ch, Over, Give(WriterLock))];
    OneMove(s, ms[0]);
    assert OwnersOf(Some(ch), reader) - {WriterLock} == OwnersOf(None, reader);
  }

  /** A region of the writer's at whose end it gives the writer mutex back. */
  lemma WriterCrossesAndLeaves(s: Locks, ch: Chan, l: Lock, inner: Spot, reader: Reader) returns (ms: seq<Move>)
    requires ch < |s.calls| && CallMay(s.calls[ch], inner, Take(l)) && CallMay(inner, Leaving, Give(l))
    requires l !in s.owner && s.owner == OwnersOf(Some(ch), reader)
    ensures RunLocks(s, ms) == Some(s.(calls := s.calls[ch := Over], owner := OwnersOf(None, reader)))
  {
    var first := CallCrosses(s, ch, l, inner, Leaving);
    var t := s.(calls := s.calls[ch := Leaving]);
    var more := WriterLeaves(t, ch, reader);
    MovesAppend(s, first, more);
    ms := first + more;
    assert s.calls[ch := Leaving][ch := Over] == s.calls[ch := Over];
  }

  // --- One step ---

  /** What a call's step does to the mutexes. */
  lemma CallStepIsMoves(s: State, step: Step) returns (ms: seq<Move>)
    requires WriterInv(s.calls, s.writer) && ThreadEnabled(s, step)
    ensures RunLocks(LocksOf(s), ms) == Some(LocksOf(DoThread(s, step)))
  {
    hide RunLocks, MayMove, LocksOf, DoThread, ThreadEnabled, WriterInv;
    match step
    case Begin(t, call) =>
      EnterIsMove(s, t, call);
      ms := [Enter];
    case LockWriter(ch) => ms := LockIsMove(s, ch);
    case RegisterCall(ch) => ms := RegisterIsMoves(s, ch);
    case WriteSome(ch, n) => ms := WriteIsMoves(s, ch, n);
    case WriteFails(ch) => ms := WriteFailsIsMove(s, ch);
    case RollBack(ch) => ms := RollBackIsMoves(s, ch);
    case Insert(ch) => ms := InsertIsMoves(s, ch);
    case _ =>
      OthersStay(s, step);
      NoMove(LocksOf(s));
      ms := [];
  }

  lemma LockIsMove(s: State, ch: Chan) returns (ms: seq<Move>)
    requires ThreadEnabled(s, LockWriter(ch))
    ensures RunLocks(LocksOf(s), ms) == Some(LocksOf(DoThread(s, LockWriter(ch))))
  {
    hide RunLocks, MayMove;
    SpotMoved(s.calls, ch, Locked);
    TakesWriter(LocksOf(s), ch, s.reader);
    ms := [CallGoes(ch, HasWriter, Take(WriterLock))];
  }

  lemma RegisterIsMoves(s: State, ch: Chan) returns (ms: seq<Move>)
    requires ThreadEnabled(s, RegisterCall(ch))
    ensures RunLocks(LocksOf(s), ms) == Some(LocksOf(DoThread(s, RegisterCall(ch))))
  {
    hide RunLocks, MayMove;
    SpotMoved(s.calls, ch, Writing(s.Pc(ch).seqnum, 0));
    ms := CallCrosses(LocksOf(s), ch, SharedLock, Registering, Sending);
  }

  lemma WriteFailsIsMove(s: State, ch: Chan) returns (ms: seq<Move>)
    requires ThreadEnabled(s, WriteFails(ch))
    ensures RunLocks(LocksOf(s), ms) == Some(LocksOf(DoThread(s, WriteFails(ch))))
  {
    hide RunLocks, MayMove, Command.AsBytes;
    SpotMoved(s.calls, ch, Failed(s.Pc(ch).seqnum));
    GoesFreely(LocksOf(s), ch, Botched);
    ms := [CallGoes(ch, Botched, Free)];
  }

  lemma RollBackIsMoves(s: State, ch: Chan) returns (ms: seq<Move>)
    requires WriterInv(s.calls, s.writer) && ThreadEnabled(s, RollBack(ch))
    ensures RunLocks(LocksOf(s), ms) == Some(LocksOf(DoThread(s, RollBack(ch))))
  {
    hide RunLocks, MayMove;
    SpotMoved(s.calls, ch, Returned(s.Pc(ch).seqnum, WriteError));
    ms := WriterCrossesAndLeaves(LocksOf(s), ch, SharedLock, RollingBack, s.reader);
  }

  lemma InsertIsMoves(s: State, ch: Chan) returns (ms: seq<Move>)
    requires WriterInv(s.calls, s.writer) && ThreadEnabled(s, Insert(ch))
    ensures RunLocks(LocksOf(s), ms) == Some(LocksOf(DoThread(s, Insert(ch))))
  {
    hide RunLocks, MayMove;
    SpotMoved(s.calls, ch, Waiting(s.Pc(ch).seqnum, s.reader.Stopped?));
    ms := WriterCrossesAndLeaves(LocksOf(s), ch, MapLock, Inserting, s.reader);
  }

  lemma OthersStay(s: State, step: Step)
    requires ThreadEnabled(s, step) && !step.Begin? && !step.LockWriter? && !step.RegisterCall?
    requires !step.WriteSome? && !step.WriteFails? && !step.RollBack? && !step.Insert?
    ensures LocksOf(DoThread(s, step)) == LocksOf(s)
  {
    match step
    case Number(ch) => SpotMoved(s.calls, ch, Numbered(s.next));
    case TakeMail(ch) => SpotMoved(s.calls, ch, Returned(s.Pc(ch).seqnum, s.mail[ch]));
    case _ =>
  }

  lemma Stays(t: Locks, u: State) returns (ms: seq<Move>)
    requires LocksOf(u) == t
    ensures ms == [] && RunLocks(t, ms) == Some(LocksOf(u))
  {
    ms := [];
  }

  lemma EnterIsMove(s: State, tid: Tid, call: Call)
    requires ThreadEnabled(s, Begin(tid, call))
    ensures RunLocks(LocksOf(s), [Enter]) == Some(LocksOf(DoThread(s, Begin(tid, call))))
  {
    OneMove(LocksOf(s), Enter);
    assert SpotsOf(s.calls + [CallState(tid, call, Calling)]) == SpotsOf(s.calls) + [Start];
  }

  lemma TakesWriter(t: Locks, ch: Chan, reader: Reader)
    requires ch < |t.calls| && t.calls[ch].Start? && t.owner == OwnersOf(None, reader)
    ensures RunLocks(t, [CallGoes(ch, HasWriter, Take(WriterLock))])
         == Some(t.(calls := t.calls[ch := HasWriter], owner := OwnersOf(Some(ch), reader)))
  {
    OneMove(t, CallGoes(ch, HasWriter, Take(WriterLock)));
    assert OwnersOf(None, reader)[WriterLock := CallActor(ch)] == OwnersOf(Some(ch), reader);
  }

  lemma GoesFreely(t: Locks, ch: Chan, to: Spot)
    requires ch < |t.calls| && CallMay(t.calls[ch], to, Free)
    ensures RunLocks(t, [CallGoes(ch, to, Free)]) == Some(t.(calls := t.calls[ch := to]))
  {
    OneMove(t, CallGoes(ch, to, Free));
  }

  lemma WriteIsMoves(s: State, ch: Chan, n: nat) returns (ms: seq<Move>)
    requires WriterInv(s.calls, s.writer) && ThreadEnabled(s, WriteSome(ch, n))
    ensures RunLocks(LocksOf(s), ms) == Some(LocksOf(DoThread(s, WriteSome(ch, n))))
  {
    hide RunLocks, MayMove, Command.AsBytes;
    var t, u := LocksOf(s), DoThread(s, WriteSome(ch, n));
    SpotMoved(s.calls, ch, u.Pc(ch));
    match u.Pc(ch)
    case Writing(_, _) => ms := Stays(t, u);
    case Written(_) =>
      GoesFreely(t, ch, Posted);
      ms := [CallGoes(ch, Posted, Free)];
    case Returned(_, _) =>
      ms := WriterLeaves(t, ch, s.reader);
  }

  /** What the reader's step does to the mutexes. */
  lemma ReaderStepIsMoves(s: State, step: Step) returns (ms: seq<Move>)
    requires ReaderEnabled(s, step)
    ensures RunLocks(LocksOf(s), ms) == Some(LocksOf(DoReader(s, step)))
  {
    hide RunLocks, MayMove, LocksOf, DoReader, ReaderEnabled;
    match step
    case LookupPending => ms := LookupIsMoves(s);
    case SettleUnlinkCall => ms := SettleIsMoves(s);
    case Deliver => ms := DeliverIsMoves(s);
    case BeginDrain => ms := BeginDrainIsMove(s);
    case EndDrain => ms := EndDrainIsMove(s);
    case _ => ms := OtherReaderStepIsMoves(s, step);
  }

  lemma LookupIsMoves(s: State) returns (ms: seq<Move>)
    requires ReaderEnabled(s, LookupPending)
    ensures RunLocks(LocksOf(s), ms) == Some(LocksOf(DoReader(s, LookupPending)))
  {
    hide RunLocks, MayMove, SpotsOf;
    ms := ReaderCrosses(LocksOf(s), SharedLock, Looking, PlaceOf(DoReader(s, LookupPending).reader));
  }

  lemma SettleIsMoves(s: State) returns (ms: seq<Move>)
    requires ReaderEnabled(s, SettleUnlinkCall)
    ensures RunLocks(LocksOf(s), ms) == Some(LocksOf(DoReader(s, SettleUnlinkCall)))
  {
    hide RunLocks, MayMove, SpotsOf, SettleUnlink;
    ms := ReaderCrosses(LocksOf(s), SharedLock, Settling, Reading);
  }

  lemma DeliverIsMoves(s: State) returns (ms: seq<Move>)
    requires ReaderEnabled(s, Deliver)
    ensures RunLocks(LocksOf(s), ms) == Some(LocksOf(DoReader(s, Deliver)))
  {
    hide RunLocks, MayMove, SpotsOf;
    ms := ReaderCrosses(LocksOf(s), MapLock, Taking, PlaceOf(DoReader(s, Deliver).reader));
  }

  lemma BeginDrainIsMove(s: State) returns (ms: seq<Move>)
    requires ReaderEnabled(s, BeginDrain)
    ensures RunLocks(LocksOf(s), ms) == Some(LocksOf(DoReader(s, BeginDrain)))
  {
    hide RunLocks, MayMove, SpotsOf;
    ReaderTakesMap(LocksOf(s), s.writer, s.reader);
    ms := [ReaderGoes(Emptying, Take(MapLock))];
  }

  lemma EndDrainIsMove(s: State) returns (ms: seq<Move>)
    requires ReaderEnabled(s, EndDrain)
    ensures RunLocks(LocksOf(s), ms) == Some(LocksOf(DoReader(s, EndDrain)))
  {
    hide RunLocks, MayMove, SpotsOf;
    ReaderGivesMap(LocksOf(s), s.writer);
    ms := [ReaderGoes(Ended, Give(MapLock))];
  }

  lemma OtherReaderStepIsMoves(s: State, step: Step) returns (ms: seq<Move>)
    requires ReaderEnabled(s, step) && !step.LookupPending? && !step.SettleUnlinkCall? && !step.Deliver?
    requires !step.BeginDrain? && !step.EndDrain?
    ensures RunLocks(LocksOf(s), ms) == Some(LocksOf(DoReader(s, step)))
  {
    hide RunLocks, MayMove, U32At, RetSubmitFrom, RetUnlinkFrom, SpotsOf;
    var t, u := LocksOf(s), DoReader(s, step);
    if PlaceOf(u.reader) == PlaceOf(s.reader) {
      ms := Stays(t, u);
    } else {
      ReaderGoesFreely(t, PlaceOf(u.reader));
      ms := [ReaderGoes(PlaceOf(u.reader), Free)];
    }
  }

  lemma ReaderGoesFreely(t: Locks, to: Place)
    requires ReaderMay(t.reader, to, Free)
    ensures RunLocks(t, [ReaderGoes(to, Free)]) == Some(t.(reader := to))
  {
    OneMove(t, ReaderGoes(to, Free));
  }

  lemma ReaderTakesMap(t: Locks, writer: Option<Chan>, reader: Reader)
    requires t.reader.Ending? && reader.Stopping? && t.owner == OwnersOf(writer, reader)
    ensures RunLocks(t, [ReaderGoes(Emptying, Take(MapLock))])
         == Some(t.(reader := Emptying, owner := OwnersOf(writer, Draining)))
  {
    OneMove(t, ReaderGoes(Emptying, Take(MapLock)));
  }

  lemma ReaderGivesMap(t: Locks, writer: Option<Chan>)
    requires t.reader.Emptying? && t.owner == OwnersOf(writer, Draining)
    ensures RunLocks(t, [ReaderGoes(Ended, Give(MapLock))])
         == Some(t.(reader := Ended, owner := OwnersOf(writer, Stopped)))
  {
    OneMove(t, ReaderGoes(Ended, Give(MapLock)));
    assert OwnersOf(writer, Draining) - {MapLock} == OwnersOf(writer, Stopped);
  }

  lemma ServerStaysOut(s: State, step: Step)
    requires ServerEnabled(s, step)
    ensures LocksOf(DoServer(s, step)) == LocksOf(s)
  {
    hide Reply.AsBytes;
  }

  /** Every schedule of the bridge is a run of acquisitions and releases. */
  lemma {:induction false} RunIsMoves(s: State, steps: seq<Step>) returns (ms: seq<Move>)
    requires Inv(s) && Run(s, steps).Some?
    ensures RunLocks(LocksOf(s), ms) == Some(LocksOf(Run(s, steps).value))
    decreases |steps|
  {
    if steps == [] {
      ms := [];
    } else {
      var step := steps[0];
      var first := StepIsMoves(s, step);
      StepKeeps(s, step);
      hide Inv, Do, Enabled;
      var more := RunIsMoves(Do(s, step), steps[1..]);
      MovesAppend(LocksOf(s), first, more);
      ms := first + more;
    }
  }

  lemma StepIsMoves(s: State, step: Step) returns (ms: seq<Move>)
    requires Inv(s) && Enabled(s, step)
    ensures RunLocks(LocksOf(s), ms) == Some(LocksOf(Do(s, step)))
  {
    hide ThreadEnabled, ReaderEnabled, ServerEnabled, DoThread, DoReader, DoServer, LocksOf, WriterInv;
    if ThreadEnabled(s, step) {
      ms := CallStepIsMoves(s, step);
    } else if ReaderEnabled(s, step) {
      ms := ReaderStepIsMoves(s, step);
    } else {
      ServerStaysOut(s, step);
      ms := [];
    }
  }

  /** So the bridge, at any moment, is in a state that acquisitions and releases lead to. */
  lemma BridgeIsLockRun(devid: u32, steps: seq<Step>, s: State) returns (ms: seq<Move>)
    requires Run(Init(devid), steps) == Some(s)
    ensures RunLocks(NOBODY, ms) == Some(LocksOf(s))
  {
    InitInv(devid);
    assert LocksOf(Init(devid)) == NOBODY;
    hide Inv, RunLocks, Run, Init;
    ms := RunIsMoves(Init(devid), steps);
  }
}
