/**
  Whole runs of calls: requests, answers, expiry, undelivered announcements, sweeps and signals in any order.
  What a record says about a call is compared with what the run did to it.
 */
module CallRuns {
  import opened Wrappers
  import opened Calls
  import opened CallWorld

  datatype Step =
    | Acts(id: CallId, user: UserId, wish: Wish, now: int)
    | Starts(request: Request, now: int)
    | Undelivered(id: CallId, now: int)
    | Sweeps(claimed: seq<CallId>, now: int)
    | Signals(id: CallId, user: UserId, signalId: Option<SignalId>, body: Body, now: int)

  /** The clock does not go back, identifiers of new calls are new, and nobody rings himself. */
  predicate Possible(w: World, step: Step) {
    && w.clock <= step.now
    && (step.Starts? ==> step.request.newId !in w.calls && step.request.caller != step.request.callee)
  }

  ghost function Next(w: World, step: Step): World {
    match step
    case Acts(id, user, wish, now) => AfterWish(w, id, user, wish, now)
    case Starts(request, now) => AfterStart(w, request, now)
    case Undelivered(id, now) => Aborted(w, id, now)
    case Sweeps(claimed, now) => Swept(w, claimed, now)
    case Signals(id, user, signalId, body, now) => AfterSignal(w, id, user, signalId, body, now)
  }

  function Opening(clock: int): World { World(map[], {}, map[], map[], clock) }

  ghost function Run(clock: int, steps: seq<Step>): World {
    if steps == [] then Opening(clock) else Next(Run(clock, steps[..|steps| - 1]), steps[|steps| - 1])
  }

  ghost predicate Legal(clock: int, steps: seq<Step>) {
    steps != [] ==> Legal(clock, steps[..|steps| - 1]) && Possible(Run(clock, steps[..|steps| - 1]), steps[|steps| - 1])
  }

  lemma StepKeepsSound(w: World, step: Step)
    requires Sound(w) && Possible(w, step)
    ensures Sound(Next(w, step))
  {
    match step
    case Acts(id, user, wish, now) => WishKeepsSound(w, id, user, wish, now);
    case Starts(request, now) => StartKeepsSound(w, request, now);
    case Undelivered(id, now) => AbortKeepsSound(w, id, now);
    case Sweeps(claimed, now) => SweepKeepsSound(w, claimed, now); PurgeKeepsSound(SweptCalls(w, claimed, now), now);
    case Signals(id, user, signalId, body, now) => SignalKeepsSound(w, id, user, signalId, body, now);
  }

  lemma {:induction false} RunKeepsSound(clock: int, steps: seq<Step>)
    requires Legal(clock, steps)
    ensures Sound(Run(clock, steps))
  {
    if steps != [] {
      RunKeepsSound(clock, steps[..|steps| - 1]);
      StepKeepsSound(Run(clock, steps[..|steps| - 1]), steps[|steps| - 1]);
    }
  }

  // ----- One line per person -----

  ghost function LinesOf(w: World, id: CallId): set<UserId> {
    set p | p in w.participants && p.call == id :: p.user
  }

  /**
    Whatever happened, nobody is in two live calls, a live call takes exactly the lines of its two parties,
    an ended one takes none, and it has exactly one summary while a live one has none.
   */
  lemma OneLinePerPerson(clock: int, steps: seq<Step>, id: CallId, other: CallId)
    requires Legal(clock, steps)
    ensures var w := Run(clock, steps);
            && (id in w.calls && !w.calls[id].state.Ended? ==>
                  LinesOf(w, id) == {w.calls[id].caller, w.calls[id].callee} && Entries(w, id) == [])
            && (id in w.calls && w.calls[id].state.Ended? ==>
                  w.calls[id].endReason.Some? && LinesOf(w, id) == {} && Entries(w, id) == [SummaryOf(w.calls[id])])
            && (id !in w.calls ==> LinesOf(w, id) == {} && Entries(w, id) == [])
            && (id != other ==> LinesOf(w, id) !! LinesOf(w, other))
  {
    RunKeepsSound(clock, steps);
    var w := Run(clock, steps);
    if id in w.calls && !w.calls[id].state.Ended? {
      assert Participant(id, w.calls[id].caller) in w.participants && Participant(id, w.calls[id].callee) in w.participants;
    }
    assert forall u | u in LinesOf(w, id) :: Participant(id, u) in w.participants;
    assert forall u | u in LinesOf(w, other) :: Participant(other, u) in w.participants;
  }

  // ----- One move at a time -----

  /** Only the bookkeeping of a live call differs: its keepalive and its route. */
  predicate Kept(a: Call, b: Call) {
    && b == a.(lastKeepaliveAt := b.lastKeepaliveAt, route := b.route)
    && (a.state.Ended? ==> b == a)
  }

  /** A live, accepted call has given out the next signal number. */
  predicate Numbered(a: Call, b: Call) {
    (a.state.Accepted? || a.state.Active?) && b == a.(signalSeq := a.signalSeq + 1)
  }

  /** One lawful move of the automaton; nobody is missed before the ringing ran out. */
  predicate MovedOnce(a: Call, b: Call) {
    && Lawful(a.state, To(b.state, b.endReason))
    && b == Applied(a, b.state, b.endReason, b.acceptedBy, b.lastKeepaliveAt).(route := b.route)
    && (b.endReason == Some(Missed) ==> RangOut(b))
  }

  predicate RangOut(call: Call) {
    call.endedAt.Some? && call.endedAt.value - call.createdAt > RING_SECONDS * SECOND
  }

  predicate Newborn(call: Call) {
    || call == NewCall(call.conversation, call.caller, call.callee, call.kind, call.createdAt)
    || ((call.endReason == Some(Busy) || call.endReason == Some(Unavailable))
        && call == StillbornCall(call.conversation, call.caller, call.callee, call.kind, call.endReason.value, call.createdAt))
  }

  ghost predicate MovesAtMostOnce(w: World, d: World) {
    && (forall id | id in w.calls :: id in d.calls && (Kept(w.calls[id], d.calls[id]) || MovedOnce(w.calls[id], d.calls[id])))
    && (forall id | id in d.calls && id !in w.calls :: Newborn(d.calls[id]))
  }

  ghost predicate MovesOrNumbers(w: World, d: World) {
    && (forall id | id in w.calls :: id in d.calls &&
          (Kept(w.calls[id], d.calls[id]) || MovedOnce(w.calls[id], d.calls[id]) || Numbered(w.calls[id], d.calls[id])))
    && (forall id | id in d.calls && id !in w.calls :: Newborn(d.calls[id]))
  }

  /** The same calls, some of which have ended. */
  ghost predicate OnlyEnds(w: World, d: World) {
    && d.calls.Keys == w.calls.Keys
    && forall id | id in w.calls ::
         d.calls[id] == w.calls[id] || (MovedOnce(w.calls[id], d.calls[id]) && d.calls[id].state.Ended?)
  }

  lemma OnlyEndsTwice(a: World, b: World, c: World)
    requires OnlyEnds(a, b) && OnlyEnds(b, c)
    ensures OnlyEnds(a, c)
  {
    forall id | id in a.calls
      ensures id in c.calls && (c.calls[id] == a.calls[id] || (MovedOnce(a.calls[id], c.calls[id]) && c.calls[id].state.Ended?))
    {
      assert id in b.calls.Keys && id in c.calls.Keys;
    }
  }

  lemma FreshenOnlyEnds(w: World, id: CallId, now: int)
    requires id in w.calls
    ensures OnlyEnds(w, Freshened(w, id, now))
  {
    EveryChangeIsLawful(w.calls[id], 0, None, now);
    assert Due(w, id, now) ==> Expire(w.calls[id], now).state.Ended?;
  }

  lemma BothFreshenOnlyEnds(w: World, r: Request, now: int)
    ensures OnlyEnds(w, BothFreshened(w, r, now))
  {
    var one := LineFreshened(w, r.caller, now);
    if LineOf(w, r.caller).Some? { FreshenOnlyEnds(w, LineOf(w, r.caller).value, now); }
    if LineOf(one, r.callee).Some? { FreshenOnlyEnds(one, LineOf(one, r.callee).value, now); }
    OnlyEndsTwice(w, one, BothFreshened(w, r, now));
  }

  lemma {:induction false} SweepOnlyEnds(w: World, claimed: seq<CallId>, now: int)
    ensures OnlyEnds(w, SweptCalls(w, claimed, now))
  {
    if claimed != [] {
      var before, id := SweptCalls(w, claimed[..|claimed| - 1], now), claimed[|claimed| - 1];
      SweepOnlyEnds(w, claimed[..|claimed| - 1], now);
      if id in before.calls {
        FreshenOnlyEnds(before, id, now);
        OnlyEndsTwice(w, before, Freshened(before, id, now));
      }
    }
  }

  lemma TransitionMovesOnce(w: World, id: CallId, change: Change, tab: Option<Tab>, now: int)
    requires id in w.calls && change.To? && Lawful(w.calls[id].state, change) && change.reason != Some(Missed)
    ensures MovesAtMostOnce(w, Transition(w, id, change, tab, now))
  {
  }

  lemma WishMovesOnce(w: World, id: CallId, user: UserId, wish: Wish, now: int)
    ensures MovesAtMostOnce(w, AfterWish(w, id, user, wish, now))
  {
    if id in w.calls && w.calls[id].Involves(user) {
      var change := ChangeFor(w.calls[id], user, wish);
      if Due(w, id, now) {
        FreshenOnlyEnds(w, id, now);
      } else if change.To? {
        ChangeForIsLawful(w.calls[id], user, wish);
        assert change.reason != Some(Missed);
        MovesThenRoutes(w, id, change, wish, now);
      } else if change.Noop? {
        TouchKeeps(w.calls[id], wish, now);
      }
    }
  }

  lemma TouchKeeps(call: Call, wish: Wish, now: int)
    requires wish.ReportConnected? ==> !call.state.Ended?
    ensures Kept(call, Touched(call, wish, now))
  {
  }

  lemma MovesThenRoutes(w: World, id: CallId, change: Change, wish: Wish, now: int)
    requires id in w.calls && change.To? && Lawful(w.calls[id].state, change) && change.reason != Some(Missed)
    ensures var moved := Transition(w, id, change, TabOf(wish), now);
            MovesAtMostOnce(w, moved.(calls := moved.calls[id := Routed(moved.calls[id], wish)]))
  {
  }

  lemma CreatedOnlyAdds(f: World, r: Request)
    requires r.newId !in f.calls
    ensures var d := Created(f, r);
            && d.calls.Keys == f.calls.Keys + {r.newId} && Newborn(d.calls[r.newId])
            && forall id | id in f.calls :: d.calls[id] == f.calls[id]
  {
    assert Newborn(NewCall(r.conversation, r.caller, r.callee, r.kind, f.clock));
    assert Newborn(StillbornCall(r.conversation, r.caller, r.callee, r.kind, Busy, f.clock));
    assert Newborn(StillbornCall(r.conversation, r.caller, r.callee, r.kind, Unavailable, f.clock));
  }

  lemma EndsThenAdds(w: World, f: World, d: World, id: CallId)
    requires OnlyEnds(w, f) && d.calls.Keys == f.calls.Keys + {id} && id !in f.calls && Newborn(d.calls[id])
    requires forall other | other in f.calls :: d.calls[other] == f.calls[other]
    ensures MovesAtMostOnce(w, d)
  {
    assert forall other | other in w.calls :: other in f.calls.Keys;
  }

  lemma EndsThenMoves(w: World, f: World, id: CallId, now: int)
    requires OnlyEnds(w, f) && id in f.calls && f.calls[id].state.Ringing?
    ensures MovesAtMostOnce(w, Transition(f, id, To(Accepted, None), None, now))
  {
    assert id in w.calls.Keys && f.calls[id] == w.calls[id];
    TransitionMovesOnce(w, id, To(Accepted, None), None, now);
    assert Transition(f, id, To(Accepted, None), None, now).calls.Keys == f.calls.Keys;
  }

  lemma StartMovesOnce(w: World, r: Request, now: int)
    requires r.newId !in w.calls
    ensures MovesAtMostOnce(w, AfterStart(w, r, now))
  {
    if r.gate.None? {
      BothFreshenOnlyEnds(w, r, now);
      var f := BothFreshened(w, r, now);
      var mine := LineOf(f, r.caller);
      if mine.None? {
        assert r.newId !in f.calls.Keys;
        CreatedOnlyAdds(f, r);
        EndsThenAdds(w, f, Created(f, r), r.newId);
      } else if f.calls[mine.value].state.Ringing? {
        EndsThenMoves(w, f, mine.value, now);
      }
    }
  }

  lemma SignalMovesNothing(w: World, id: CallId, user: UserId, signalId: Option<SignalId>, body: Body, now: int)
    ensures MovesOrNumbers(w, AfterSignal(w, id, user, signalId, body, now))
  {
    if id in w.calls && Due(w, id, now) { FreshenOnlyEnds(w, id, now); }
  }

  /**
    Every transaction makes at most one lawful move in a call, and leaves an ended call exactly as it is;
    only a signal advances the counter, by one, and then it moves nothing.
   */
  lemma StepMovesOnce(w: World, step: Step)
    requires Possible(w, step)
    ensures MovesOrNumbers(w, Next(w, step))
    ensures !step.Signals? ==> MovesAtMostOnce(w, Next(w, step))
  {
    match step
    case Acts(id, user, wish, now) => WishMovesOnce(w, id, user, wish, now);
    case Starts(request, now) => StartMovesOnce(w, request, now);
    case Undelivered(id, now) =>
      if id in w.calls && !w.calls[id].state.Ended? { TransitionMovesOnce(w, id, End(Failed), None, now); }
    case Sweeps(claimed, now) => SweepOnlyEnds(w, claimed, now);
    case Signals(id, user, signalId, body, now) => SignalMovesNothing(w, id, user, signalId, body, now);
  }

  // ----- What a record says of the run -----

  /** At some moment of the run the call was in this state. */
  ghost predicate EverWas(clock: int, steps: seq<Step>, id: CallId, state: CallState) {
    || (id in Run(clock, steps).calls && Run(clock, steps).calls[id].state == state)
    || (steps != [] && EverWas(clock, steps[..|steps| - 1], id, state))
  }

  /** At some moment of the run the call held somebody's line. */
  ghost predicate EverHeldALine(clock: int, steps: seq<Step>, id: CallId) {
    || LinesOf(Run(clock, steps), id) != {}
    || (steps != [] && EverHeldALine(clock, steps[..|steps| - 1], id))
  }

  predicate Stillborn(call: Call) { call.endReason == Some(Busy) || call.endReason == Some(Unavailable) }

  ghost predicate RecordAgrees(clock: int, steps: seq<Step>, id: CallId) {
    var w := Run(clock, steps);
    if id in w.calls then
      && (w.calls[id].acceptedAt.Some? <==> EverWas(clock, steps, id, Accepted))
      && (w.calls[id].activeAt.Some? <==> EverWas(clock, steps, id, Active))
      && (!Stillborn(w.calls[id]) <==> EverWas(clock, steps, id, Ringing))
      && (!Stillborn(w.calls[id]) <==> EverHeldALine(clock, steps, id))
      && (w.calls[id].endReason == Some(Missed) ==> RangOut(w.calls[id]))
    else
      !EverHeldALine(clock, steps, id) && forall s :: !EverWas(clock, steps, id, s)
  }

  lemma NowOrBefore(clock: int, steps: seq<Step>, id: CallId, s: CallState)
    requires steps != []
    ensures EverWas(clock, steps, id, s) <==>
            || EverWas(clock, steps[..|steps| - 1], id, s)
            || (id in Run(clock, steps).calls && Run(clock, steps).calls[id].state == s)
  {
  }

  lemma HoldsWhileLive(w: World, id: CallId)
    requires Sound(w)
    ensures LinesOf(w, id) != {} <==> id in w.calls && !w.calls[id].state.Ended?
  {
    if id in w.calls && !w.calls[id].state.Ended? {
      assert Participant(id, w.calls[id].caller) in w.participants;
      assert w.calls[id].caller in LinesOf(w, id);
    }
    if u :| u in LinesOf(w, id) { assert Participant(id, u) in w.participants; }
  }

  /** The dates and the reason of a record are exactly the history of the call. */
  lemma {:induction false} RecordTellsHistory(clock: int, steps: seq<Step>, id: CallId)
    requires Legal(clock, steps)
    ensures RecordAgrees(clock, steps, id)
  {
    RunKeepsSound(clock, steps);
    if steps != [] {
      var was := steps[..|steps| - 1];
      RecordTellsHistory(clock, was, id);
      RunKeepsSound(clock, was);
      StepMovesOnce(Run(clock, was), steps[|steps| - 1]);
      HoldsWhileLive(Run(clock, steps), id);
      forall s ensures EverWas(clock, steps, id, s) <==>
            || EverWas(clock, was, id, s)
            || (id in Run(clock, steps).calls && Run(clock, steps).calls[id].state == s)
      { NowOrBefore(clock, steps, id, s); }
      var w, d := Run(clock, was), Run(clock, steps);
      if id in w.calls {
        RecordGainsHistory(w.calls[id], d.calls[id], w.clock, d.clock);
      } else if id in d.calls {
        assert Newborn(d.calls[id]);
      }
    }
  }

  /** A move leaves in the record exactly the mark of the state entered. */
  lemma RecordGainsHistory(a: Call, b: Call, clock: int, now: int)
    requires Coherent(a, clock) && Coherent(b, now) && (Kept(a, b) || MovedOnce(a, b) || Numbered(a, b))
    ensures b.acceptedAt.Some? <==> a.acceptedAt.Some? || b.state.Accepted?
    ensures b.activeAt.Some? <==> a.activeAt.Some? || b.state.Active?
    ensures Stillborn(a) <==> Stillborn(b)
    ensures Stillborn(a) ==> a.state.Ended? && b.state.Ended?
    ensures (a.endReason == Some(Missed) ==> RangOut(a)) ==> b.endReason == Some(Missed) ==> RangOut(b)
  {
  }

  /** The reason an ended call gives is true of everything that happened to it. */
  lemma EndReasonTellsTheTruth(clock: int, steps: seq<Step>, id: CallId)
    requires Legal(clock, steps) && id in Run(clock, steps).calls && Run(clock, steps).calls[id].endReason.Some?
    ensures var reason := Run(clock, steps).calls[id].endReason.value;
            && (reason == Completed ==> EverWas(clock, steps, id, Active))
            && (reason == Missed || reason == Declined ==>
                  EverWas(clock, steps, id, Ringing) && !EverWas(clock, steps, id, Accepted))
            && (reason == Missed ==> RangOut(Run(clock, steps).calls[id]))
            && (reason == Cancelled ==> EverWas(clock, steps, id, Ringing) && !EverWas(clock, steps, id, Active))
            && (reason == Busy || reason == Unavailable <==> !EverHeldALine(clock, steps, id))
  {
    RunKeepsSound(clock, steps);
    RecordTellsHistory(clock, steps, id);
    assert Coherent(Run(clock, steps).calls[id], Run(clock, steps).clock);
  }

  // ----- What stays as it is -----

  /** How a record may look later. */
  predicate Grown(a: Call, b: Call) {
    && a.version <= b.version <= 4 && Rank(a.state) <= Rank(b.state)
    && (a.version == b.version <==> a.state == b.state)
    && (a.state.Ended? ==> a == b)
    && (a.acceptedBy.Some? ==> b.acceptedBy == a.acceptedBy)
    && (!a.state.Ringing? ==> b.acceptedBy == a.acceptedBy && b.acceptedAt == a.acceptedAt)
    && a.signalSeq <= b.signalSeq
    && (a.caller, a.callee, a.conversation, a.kind, a.createdAt) == (b.caller, b.callee, b.conversation, b.kind, b.createdAt)
  }

  lemma GrownOnce(a: Call, b: Call, clock: int, now: int)
    requires Coherent(a, clock) && Coherent(b, now) && (Kept(a, b) || MovedOnce(a, b) || Numbered(a, b))
    ensures Grown(a, b)
  {
  }

  lemma GrownTwice(a: Call, b: Call, c: Call)
    requires Grown(a, b) && Grown(b, c)
    ensures Grown(a, c)
  {
  }

  /** From any moment of a run to its end, versions and ranks only rise, and an ended call does not change at all. */
  lemma {:induction false} RecordsOnlyGrow(clock: int, steps: seq<Step>, k: nat, id: CallId)
    requires Legal(clock, steps) && k <= |steps| && id in Run(clock, steps[..k]).calls
    ensures id in Run(clock, steps).calls && Grown(Run(clock, steps[..k]).calls[id], Run(clock, steps).calls[id])
    decreases |steps|
  {
    RunKeepsSound(clock, steps);
    if k == |steps| {
      assert steps[..k] == steps;
      assert Coherent(Run(clock, steps).calls[id], Run(clock, steps).clock);
    } else {
      var was := steps[..|steps| - 1];
      assert was[..k] == steps[..k];
      var w, d := Run(clock, was), Run(clock, steps);
      RecordsOnlyGrow(clock, was, k, id);
      RunKeepsSound(clock, was);
      StepMovesOnce(w, steps[|steps| - 1]);
      GrownOnce(w.calls[id], d.calls[id], w.clock, d.clock);
      GrownTwice(Run(clock, steps[..k]).calls[id], w.calls[id], d.calls[id]);
    }
  }

  /** How many times the state of the call changed. */
  ghost function ChangesOf(clock: int, steps: seq<Step>, id: CallId): nat {
    if steps == [] then 0
    else
      var w, d := Run(clock, steps[..|steps| - 1]), Run(clock, steps);
      ChangesOf(clock, steps[..|steps| - 1], id) +
      (if id in w.calls && id in d.calls && w.calls[id].state != d.calls[id].state then 1 else 0)
  }

  /** The version of a call counts its changes of state, and there are never more than three. */
  lemma {:induction false} VersionCountsChanges(clock: int, steps: seq<Step>, id: CallId)
    requires Legal(clock, steps)
    ensures ChangesOf(clock, steps, id) <= 3
    ensures ChangesOf(clock, steps, id) == if id in Run(clock, steps).calls then Run(clock, steps).calls[id].version - 1 else 0
  {
    RunKeepsSound(clock, steps);
    if steps != [] {
      var was := steps[..|steps| - 1];
      VersionCountsChanges(clock, was, id);
      RunKeepsSound(clock, was);
      StepMovesOnce(Run(clock, was), steps[|steps| - 1]);
    }
    if id in Run(clock, steps).calls {
      assert Coherent(Run(clock, steps).calls[id], Run(clock, steps).clock);
    }
  }

  // ----- The tab that answered -----

  /** Once a tab's label is recorded, no other label is ever answered with success. */
  lemma OnlyTheRecordedTabIsAnswered(clock: int, steps: seq<Step>, k: nat, id: CallId, user: UserId, other: Tab, now: int)
    requires Legal(clock, steps) && k <= |steps| && id in Run(clock, steps[..k]).calls
    requires var recorded := Run(clock, steps[..k]).calls[id].acceptedBy; recorded.Some? && recorded != Some(other)
    ensures ReplyToWish(Run(clock, steps), id, user, Answer(Some(other)), now).Rejected?
  {
    RecordsOnlyGrow(clock, steps, k, id);
    RunKeepsSound(clock, steps);
    assert Coherent(Run(clock, steps).calls[id], Run(clock, steps).clock);
  }

  /** The tab whose answer a ringing call takes keeps the call: it is told so, and from then on no other tab is. */
  lemma TheFirstTabKeepsTheCall(clock: int, steps: seq<Step>, k: nat, id: CallId, user: UserId, tab: Tab, other: Tab, at: int, now: int)
    requires Legal(clock, steps) && k < |steps| && steps[k] == Acts(id, user, Answer(Some(tab)), at) && other != tab
    requires var w := Run(clock, steps[..k]);
             id in w.calls && w.calls[id].state.Ringing? && ReplyToWish(w, id, user, Answer(Some(tab)), at).Ok?
    ensures var d := Run(clock, steps[..k + 1]);
            id in d.calls && ReplyToWish(Run(clock, steps[..k]), id, user, Answer(Some(tab)), at) == Ok(d.calls[id])
    ensures id in Run(clock, steps).calls && Run(clock, steps).calls[id].acceptedBy == Some(tab)
    ensures ReplyToWish(Run(clock, steps), id, user, Answer(Some(other)), now).Rejected?
  {
    assert steps[..k + 1][..k] == steps[..k];
    RecordsOnlyGrow(clock, steps, k + 1, id);
    OnlyTheRecordedTabIsAnswered(clock, steps, k + 1, id, user, other, now);
  }

  /** A call accepted by ringing each other has no label, and then every tab of the callee is told it answered. */
  lemma AnsweredWithSuccessExactlyWhen(clock: int, steps: seq<Step>, id: CallId, user: UserId, tab: Tab, now: int)
    requires Legal(clock, steps) && id in Run(clock, steps).calls
    ensures var w := Run(clock, steps);
            ReplyToWish(w, id, user, Answer(Some(tab)), now).Ok? <==>
              && user == w.calls[id].callee && !w.calls[id].state.Ended? && !Due(w, id, now)
              && (w.calls[id].acceptedBy.None? || w.calls[id].acceptedBy == Some(tab))
  {
    RunKeepsSound(clock, steps);
    assert Coherent(Run(clock, steps).calls[id], Run(clock, steps).clock);
  }
}
