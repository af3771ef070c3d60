/**
  What each request does to the tables and what it is answered, told in terms of the tables alone: who may do what in
  which state, what is refused and how, which lines are freed and which summary is posted.
 */
module CallOutcomes {
  import opened Wrappers
  import opened Calls
  import opened CallWorld
  import opened CallRuns
  import opened CallSignals
  import opened CallSweeper
  import opened CallReplies

  /** Nothing but the clock moved. */
  predicate Nothing(w: World, d: World, now: int) { d == w.(clock := now) }

  /** No other call, line or summary, and no signal, is touched. */
  ghost predicate Elsewhere(w: World, d: World, id: CallId) {
    && d.signals == w.signals && d.calls.Keys == w.calls.Keys
    && (forall other | other in w.calls && other != id :: d.calls[other] == w.calls[other])
    && (forall p: Participant | p.call != id :: p in d.participants <==> p in w.participants)
    && (forall other | other != id :: Entries(d, other) == Entries(w, other))
  }

  /** Whole milliseconds of talk, if there was at least one. */
  function TalkTime(c: Call, reason: EndReason, now: int): Option<int> {
    if reason == Completed && c.activeAt.Some? && now - c.activeAt.value >= 1000 then Some((now - c.activeAt.value) / 1000) else None
  }

  /** The call is over for this reason, both lines are free, and its one summary is posted. */
  ghost predicate EndedAs(w: World, d: World, id: CallId, reason: EndReason, now: int) {
    && id in w.calls && id in d.calls && d.clock == now && Elsewhere(w, d, id)
    && var c := w.calls[id];
       && d.calls[id] == c.(state := Ended, endReason := Some(reason), endedAt := Some(now), version := c.version + 1, lastKeepaliveAt := now)
       && LinesOf(d, id) == {}
       && Entries(d, id) == [Summary(c.caller, c.kind, reason, TalkTime(c, reason, now))]
  }

  /** A live call is now this record; its lines are still taken and nothing is posted. */
  ghost predicate NowIs(w: World, d: World, id: CallId, call: Call, now: int) {
    && id in w.calls && d == w.(clock := now, calls := w.calls[id := call])
  }

  lemma TransitionEnds(w: World, id: CallId, reason: EndReason, now: int)
    requires Sound(w) && w.clock <= now && id in w.calls && !w.calls[id].state.Ended?
    requires reason == Completed ==> w.calls[id].state.Active?
    ensures EndedAs(w, Transition(w, id, End(reason), None, now), id, reason, now)
  {
    var d := Transition(w, id, End(reason), None, now);
    assert Coherent(w.calls[id], w.clock);
    assert TimelineSound(w);
    assert Entries(w, id) == [] && Entries(d, id) == [] + [SummaryOf(d.calls[id])];
  }

  /** A party of a call that is not past its deadline makes a wish. */
  ghost predicate Timely(w: World, id: CallId, user: UserId, now: int) {
    && Sound(w) && w.clock <= now && id in w.calls
    && (user == w.calls[id].caller || user == w.calls[id].callee) && WithinDeadline(w.calls[id], now)
  }

  /** A wish that ends the call is the transition, neither more nor less. */
  lemma WishEnds(w: World, id: CallId, user: UserId, wish: Wish, reason: EndReason, now: int)
    requires Timely(w, id, user, now) && !w.calls[id].state.Ended? && !wish.ReportConnected?
    requires ChangeFor(w.calls[id], user, wish) == End(reason) && (reason == Completed ==> w.calls[id].state.Active?)
    ensures EndedAs(w, AfterWish(w, id, user, wish, now), id, reason, now)
    ensures ReplyToWish(w, id, user, wish, now) == Ok(AfterWish(w, id, user, wish, now).calls[id])
  {
    DueMeansOverDeadline(w, id, now);
    TransitionEnds(w, id, reason, now);
    var moved := Transition(w, id, End(reason), TabOf(wish), now);
    assert moved == Transition(w, id, End(reason), None, now);
    assert moved.calls[id := moved.calls[id]] == moved.calls;
  }

  lemma WishDoesNothing(w: World, id: CallId, user: UserId, wish: Wish, now: int)
    requires Timely(w, id, user, now) && !ChangeFor(w.calls[id], user, wish).To?
    requires ChangeFor(w.calls[id], user, wish).Noop? ==> Touched(w.calls[id], wish, now) == w.calls[id]
    ensures Nothing(w, AfterWish(w, id, user, wish, now), now)
  {
    DueMeansOverDeadline(w, id, now);
    assert w.calls[id := w.calls[id]] == w.calls;
  }

  /** Only the callee declines, and only what still rings; a repeat is content, everything else comes too late. */
  lemma TurnDownOutcome(w: World, id: CallId, user: UserId, now: int)
    requires Timely(w, id, user, now)
    ensures var c, d, reply := w.calls[id], AfterWish(w, id, user, TurnDown, now), ReplyToWish(w, id, user, TurnDown, now);
            && (user == c.callee && c.state.Ringing? ==> EndedAs(w, d, id, Declined, now) && reply == Ok(d.calls[id]))
            && (user == c.callee && c.endReason == Some(Declined) ==> Nothing(w, d, now) && reply == Ok(c))
            && (user == c.callee && !c.state.Ringing? && c.endReason != Some(Declined) ==> Nothing(w, d, now) && reply == Rejected(CallEnded))
            && (user == c.caller ==> Nothing(w, d, now) && reply == Rejected(CallNotFound))
  {
    var c := w.calls[id];
    assert Coherent(c, w.clock);
    DueMeansOverDeadline(w, id, now);
    if user == c.callee && c.state.Ringing? {
      WishEnds(w, id, user, TurnDown, Declined, now);
    } else {
      WishDoesNothing(w, id, user, TurnDown, now);
    }
  }

  /** Either party hangs up at any time; what that means depends on how far the call got and, while it rings, on who it was. */
  lemma HangUpOutcome(w: World, id: CallId, user: UserId, now: int)
    requires Timely(w, id, user, now)
    ensures var c, d, reply := w.calls[id], AfterWish(w, id, user, HangUp, now), ReplyToWish(w, id, user, HangUp, now);
            && (c.state.Ringing? && user == c.caller ==> EndedAs(w, d, id, Cancelled, now) && reply == Ok(d.calls[id]))
            && (c.state.Ringing? && user == c.callee ==> EndedAs(w, d, id, Declined, now) && reply == Ok(d.calls[id]))
            && (c.state.Accepted? ==> EndedAs(w, d, id, Cancelled, now) && reply == Ok(d.calls[id]))
            && (c.state.Active? ==> EndedAs(w, d, id, Completed, now) && reply == Ok(d.calls[id]))
            && (c.state.Ended? ==> Nothing(w, d, now) && reply == Ok(c))
  {
    var c := w.calls[id];
    assert Coherent(c, w.clock);
    DueMeansOverDeadline(w, id, now);
    if c.state.Ended? {
      WishDoesNothing(w, id, user, HangUp, now);
    } else if c.state.Active? {
      WishEnds(w, id, user, HangUp, Completed, now);
    } else if c.state.Ringing? && user == c.callee {
      WishEnds(w, id, user, HangUp, Declined, now);
    } else {
      WishEnds(w, id, user, HangUp, Cancelled, now);
    }
  }

  /** Either party reports a failure once the call was answered. */
  lemma GiveUpOutcome(w: World, id: CallId, user: UserId, now: int)
    requires Timely(w, id, user, now)
    ensures var c, d, reply := w.calls[id], AfterWish(w, id, user, GiveUp, now), ReplyToWish(w, id, user, GiveUp, now);
            && (c.state.Accepted? || c.state.Active? ==> EndedAs(w, d, id, Failed, now) && reply == Ok(d.calls[id]))
            && (c.state.Ended? ==> Nothing(w, d, now) && reply == Ok(c))
            && (c.state.Ringing? ==> Nothing(w, d, now) && reply == Rejected(CallEnded))
  {
    var c := w.calls[id];
    DueMeansOverDeadline(w, id, now);
    if c.state.Accepted? || c.state.Active? {
      WishEnds(w, id, user, GiveUp, Failed, now);
    } else {
      WishDoesNothing(w, id, user, GiveUp, now);
    }
  }

  /** Only the callee answers; while it rings the answering tab takes the call, later another labelled tab is refused. */
  lemma AnswerOutcome(w: World, id: CallId, user: UserId, tab: Option<Tab>, now: int)
    requires Timely(w, id, user, now)
    ensures var c, d, reply := w.calls[id], AfterWish(w, id, user, Answer(tab), now), ReplyToWish(w, id, user, Answer(tab), now);
            && (user == c.caller ==> Nothing(w, d, now) && reply == Rejected(CallNotFound))
            && (user == c.callee && c.state.Ringing? ==>
                  && NowIs(w, d, id, c.(state := Accepted, version := c.version + 1, acceptedAt := Some(now), acceptedBy := tab, lastKeepaliveAt := now), now)
                  && reply == Ok(d.calls[id]))
            && (user == c.callee && (c.state.Accepted? || c.state.Active?) ==>
                  && Nothing(w, d, now)
                  && reply == if tab.Some? && c.acceptedBy.Some? && tab != c.acceptedBy then Rejected(CallTaken) else Ok(c))
            && (user == c.callee && c.state.Ended? ==> Nothing(w, d, now) && reply == Rejected(CallEnded))
  {
    var c := w.calls[id];
    assert Coherent(c, w.clock);
    DueMeansOverDeadline(w, id, now);
    if user == c.callee && c.state.Ringing? {
      var moved := Transition(w, id, To(Accepted, None), tab, now);
      assert moved.calls[id := moved.calls[id]] == moved.calls;
    } else {
      WishDoesNothing(w, id, user, Answer(tab), now);
    }
  }

  /** The path a call is known by: relayed once a relay was ever reported, direct while only that was. */
  function WorstOf(known: Option<Route>, reported: Option<Route>): Option<Route> {
    if known == Some(Relay) || reported == Some(Relay) then Some(Relay)
    else if known == Some(Direct) || reported == Some(Direct) then Some(Direct)
    else None
  }

  lemma RecordedIsWorst(known: Option<Route>, reported: Option<Route>)
    ensures RecordedRoute(known, reported) == WorstOf(known, reported)
  {
    assert known.Some? ==> known.value == Direct || known.value == Relay;
    assert reported.Some? ==> reported.value == Direct || reported.value == Relay;
  }

  /** The first report of an accepted call makes it active, later ones are signs of life; both note the path. */
  lemma ReportConnectedOutcome(w: World, id: CallId, user: UserId, reported: Option<Route>, now: int)
    requires Timely(w, id, user, now)
    ensures var c, d := w.calls[id], AfterWish(w, id, user, ReportConnected(reported), now);
            var reply := ReplyToWish(w, id, user, ReportConnected(reported), now);
            && (c.state.Accepted? ==>
                  var active := c.(state := Active, version := c.version + 1, activeAt := Some(now), lastKeepaliveAt := now);
                  NowIs(w, d, id, active.(route := WorstOf(c.route, reported)), now) && reply == Ok(active))
            && (c.state.Active? ==> NowIs(w, d, id, c.(lastKeepaliveAt := now, route := WorstOf(c.route, reported)), now) && reply == Ok(c))
            && (c.state.Ringing? || c.state.Ended? ==> Nothing(w, d, now) && reply == Rejected(CallEnded))
  {
    assert Coherent(w.calls[id], w.clock);
    DueMeansOverDeadline(w, id, now);
    var c := w.calls[id];
    RecordedIsWorst(c.route, reported);
    if c.state.Accepted? {
      var active := c.(state := Active, version := c.version + 1, activeAt := Some(now), lastKeepaliveAt := now);
      assert Transition(w, id, To(Active, None), None, now) == w.(clock := now, calls := w.calls[id := active]);
      var routed := active.(route := WorstOf(c.route, reported));
      assert w.calls[id := active][id := routed] == w.calls[id := routed];
    } else if !c.state.Active? {
      WishDoesNothing(w, id, user, ReportConnected(reported), now);
    }
  }

  lemma KeepAliveOutcome(w: World, id: CallId, user: UserId, now: int)
    requires Timely(w, id, user, now)
    ensures var c, d := w.calls[id], AfterWish(w, id, user, KeepAlive, now);
            && ReplyToWish(w, id, user, KeepAlive, now) == Ok(c)
            && (if c.state.Ended? then Nothing(w, d, now) else NowIs(w, d, id, c.(lastKeepaliveAt := now), now))
  {
    DueMeansOverDeadline(w, id, now);
    if w.calls[id].state.Ended? { WishDoesNothing(w, id, user, KeepAlive, now); }
  }

  /** Whatever a party wishes of a call past its deadline, the call ends: missed if it still rang, failed otherwise. */
  lemma OverdueOutcome(w: World, id: CallId, user: UserId, wish: Wish, now: int)
    requires Sound(w) && w.clock <= now && id in w.calls && !WithinDeadline(w.calls[id], now)
    requires user == w.calls[id].caller || user == w.calls[id].callee
    ensures var d := AfterWish(w, id, user, wish, now);
            && EndedAs(w, d, id, if w.calls[id].state.Ringing? then Missed else Failed, now)
            && ReplyToWish(w, id, user, wish, now) ==
               if wish.HangUp? || wish.GiveUp? || wish.KeepAlive? then Ok(d.calls[id]) else Rejected(CallEnded)
  {
    assert Coherent(w.calls[id], w.clock);
    DueMeansOverDeadline(w, id, now);
    TransitionEnds(w, id, if w.calls[id].state.Ringing? then Missed else Failed, now);
  }

  /** To those it does not concern a call does not exist. */
  lemma OutsiderOutcome(w: World, id: CallId, user: UserId, wish: Wish, signalId: Option<SignalId>, body: Body, now: int)
    requires id !in w.calls || (user != w.calls[id].caller && user != w.calls[id].callee)
    ensures Nothing(w, AfterWish(w, id, user, wish, now), now) && ReplyToWish(w, id, user, wish, now) == Rejected(CallNotFound)
    ensures Nothing(w, AfterSignal(w, id, user, signalId, body, now), now) && ReplyToSignal(w, id, user, now) == Rejected(CallNotFound)
    ensures PublishedSignal(w, id, user, signalId, body, now).None?
  {
  }

  lemma UndeliveredOutcome(w: World, id: CallId, now: int)
    requires Sound(w) && w.clock <= now
    ensures if id in w.calls && !w.calls[id].state.Ended? then EndedAs(w, Aborted(w, id, now), id, Failed, now)
            else Nothing(w, Aborted(w, id, now), now)
  {
    if id in w.calls && !w.calls[id].state.Ended? { TransitionEnds(w, id, Failed, now); }
  }

  /** Signals pass between the parties of an answered call; before it is too early, afterwards too late. */
  lemma SignalOutcome(w: World, id: CallId, user: UserId, signalId: Option<SignalId>, body: Body, now: int)
    requires Timely(w, id, user, now)
    ensures var c, d := w.calls[id], AfterSignal(w, id, user, signalId, body, now);
            var reply, published := ReplyToSignal(w, id, user, now), PublishedSignal(w, id, user, signalId, body, now);
            var known := signalId.Some? && exists n :: HoldsSignal(w, id, user, signalId, n);
            && (c.state.Ringing? ==> Nothing(w, d, now) && published.None? && reply == Rejected(CallNotReady))
            && (c.state.Ended? ==> Nothing(w, d, now) && published.None? && reply == Rejected(CallEnded))
            && ((c.state.Accepted? || c.state.Active?) && known ==>
                  && Nothing(w, d, now) && reply == Ok(c) && published.Some?
                  && HoldsSignal(w, id, user, signalId, published.value.seqNo)
                  && published.value.body == w.signals[SignalKey(id, published.value.seqNo)].body)
            && ((c.state.Accepted? || c.state.Active?) && !known ==>
                  && reply == Ok(c) && published == Some(Publication(c.signalSeq + 1, body))
                  && d == w.(clock := now, calls := w.calls[id := c.(signalSeq := c.signalSeq + 1)],
                             signals := w.signals[SignalKey(id, c.signalSeq + 1) := Signal(user, signalId, body, now + 60_000_000)]))
  {
    assert Coherent(w.calls[id], w.clock);
    DueMeansOverDeadline(w, id, now);
  }

  /** A signal for a call past its deadline ends the call instead. */
  lemma OverdueSignalOutcome(w: World, id: CallId, user: UserId, signalId: Option<SignalId>, body: Body, now: int)
    requires Sound(w) && w.clock <= now && id in w.calls && !WithinDeadline(w.calls[id], now)
    requires user == w.calls[id].caller || user == w.calls[id].callee
    ensures EndedAs(w, AfterSignal(w, id, user, signalId, body, now), id, if w.calls[id].state.Ringing? then Missed else Failed, now)
    ensures ReplyToSignal(w, id, user, now) == Rejected(CallEnded) && PublishedSignal(w, id, user, signalId, body, now).None?
  {
    assert Coherent(w.calls[id], w.clock);
    DueMeansOverDeadline(w, id, now);
    TransitionEnds(w, id, if w.calls[id].state.Ringing? then Missed else Failed, now);
  }

  // ----- Starting a call -----

  /** A record past its deadline, ended now for the reason that goes with its state. */
  function EndedByClock(c: Call, now: int): Call {
    c.(state := Ended, endReason := Some(if c.state.Ringing? then Missed else Failed), endedAt := Some(now),
       version := c.version + 1, lastKeepaliveAt := now)
  }

  /** The clock ends this user's call if it is past its deadline, and nothing else. */
  ghost predicate ClockEnds(w: World, f: World, users: set<UserId>, now: int) {
    && f.calls.Keys == w.calls.Keys
    && forall id | id in w.calls ::
         f.calls[id] == if !WithinDeadline(w.calls[id], now) && (w.calls[id].caller in users || w.calls[id].callee in users)
                        then EndedByClock(w.calls[id], now) else w.calls[id]
  }

  lemma LineFreshenedTables(w: World, user: UserId, now: int)
    requires Sound(w)
    ensures ClockEnds(w, LineFreshened(w, user, now), {user}, now)
  {
    var f := LineFreshened(w, user, now);
    LineFreshenKeepsLines(w, user, now);
    if LineOf(w, user).Some? { FreshenOneCall(w, LineOf(w, user).value, now); }
    forall id | id in w.calls
      ensures f.calls[id] == if !WithinDeadline(w.calls[id], now) && (w.calls[id].caller == user || w.calls[id].callee == user)
                             then EndedByClock(w.calls[id], now) else w.calls[id]
    {
      DueMeansOverDeadline(w, id, now);
      OnTheLine(w, id, user);
    }
  }

  lemma ClockEndsBoth(w: World, one: World, f: World, a: UserId, b: UserId, now: int)
    requires ClockEnds(w, one, {a}, now) && ClockEnds(one, f, {b}, now)
    ensures ClockEnds(w, f, {a, b}, now)
  {
    forall id | id in w.calls
      ensures f.calls[id] == if !WithinDeadline(w.calls[id], now) && (w.calls[id].caller in {a, b} || w.calls[id].callee in {a, b})
                             then EndedByClock(w.calls[id], now) else w.calls[id]
    {
      assert id in one.calls.Keys;
    }
  }

  lemma BothFreshenedTables(w: World, r: Request, now: int)
    requires Sound(w) && w.clock <= now
    ensures ClockEnds(w, BothFreshened(w, r, now), {r.caller, r.callee}, now)
  {
    var one := LineFreshened(w, r.caller, now);
    LineFreshenKeepsSound(w, r.caller, now);
    LineFreshenedTables(w, r.caller, now);
    LineFreshenedTables(one, r.callee, now);
    ClockEndsBoth(w, one, BothFreshened(w, r, now), r.caller, r.callee, now);
  }

  /** The record of a request: first version, no signals, nothing answered. */
  function RequestRecord(r: Request, now: int, stillborn: Option<EndReason>): Call {
    Call(r.conversation, r.caller, r.callee, r.kind, if stillborn.Some? then Ended else Ringing, 1, 0, stillborn, now,
         None, None, if stillborn.Some? then Some(now) else None, now, None, None)
  }

  /** Lines and summaries as the records demand. */
  lemma LinesAndSummaries(w: World, id: CallId)
    requires Sound(w)
    ensures LinesOf(w, id) == if id in w.calls && !w.calls[id].state.Ended? then {w.calls[id].caller, w.calls[id].callee} else {}
    ensures id in w.calls && w.calls[id].state.Ended? && w.calls[id].endReason.Some? && w.calls[id].endReason != Some(Completed) ==>
              Entries(w, id) == [Summary(w.calls[id].caller, w.calls[id].kind, w.calls[id].endReason.value, None)]
    ensures id !in w.calls || !w.calls[id].state.Ended? ==> Entries(w, id) == []
  {
    if id in w.calls && !w.calls[id].state.Ended? {
      assert Participant(id, w.calls[id].caller) in w.participants && Participant(id, w.calls[id].callee) in w.participants;
    }
    assert forall u | u in LinesOf(w, id) :: Participant(id, u) in w.participants;
    assert TimelineSound(w);
  }

  /** Why a request of a free user does not ring. */
  ghost function StillbornFor(w: World, r: Request, now: int): Option<EndReason> {
    if Busies(w, r.callee, now) then Some(Busy)
    else if !r.reachable then Some(Unavailable)
    else if r.raced then Some(Busy)
    else None
  }

  /**
    A request of a free user leaves a record with everything that was asked for: ringing on both lines, or over from the
    start with its summary. The overdue calls of the two are ended on the way and no other call is touched.
   */
  lemma FreeCallerTables(w: World, r: Request, now: int)
    requires Sound(w) && w.clock <= now && r.newId !in w.calls && r.caller != r.callee && r.gate.None? && !Busies(w, r.caller, now)
    ensures var d, reason := AfterStart(w, r, now), StillbornFor(w, r, now);
            && Sound(d) && d.clock == now && d.signals == w.signals
            && r.newId in d.calls && d.calls[r.newId] == RequestRecord(r, now, reason)
            && ClockEnds(w, d.(calls := d.calls - {r.newId}), {r.caller, r.callee}, now)
            && LinesOf(d, r.newId) == (if reason.None? then {r.caller, r.callee} else {})
            && Entries(d, r.newId) == (if reason.None? then [] else [Summary(r.caller, r.kind, reason.value, None)])
            && ReplyToStart(w, r, now) == Ok(d.calls[r.newId])
  {
    var f, d := BothFreshened(w, r, now), AfterStart(w, r, now);
    StartKeepsSound(w, r, now);
    StartKeepsSignals(w, r, now);
    StartClock(w, r, now);
    LineTakenWhenBusy(w, r, r.caller, now);
    LineTakenWhenBusy(w, r, r.callee, now);
    CreationTables(w, f, r, now);
    LinesAndSummaries(d, r.newId);
  }

  lemma CreatedRecord(f: World, r: Request, now: int, reason: Option<EndReason>)
    requires LinesSound(f) && f.clock == now && LineOf(f, r.caller).None?
    requires reason == if LineOf(f, r.callee).Some? then Some(Busy) else if !r.reachable then Some(Unavailable)
                       else if r.raced then Some(Busy) else None
    ensures Created(f, r).calls == f.calls[r.newId := RequestRecord(r, now, reason)]
  {
    if LineOf(f, r.callee).None? { FreeWhenNoLines(f, r); }
  }

  lemma ClockEndsBesides(w: World, f: World, d: World, id: CallId, users: set<UserId>, call: Call, now: int)
    requires ClockEnds(w, f, users, now) && id !in w.calls && d.calls == f.calls[id := call]
    ensures ClockEnds(w, d.(calls := d.calls - {id}), users, now)
  {
    assert id !in f.calls.Keys;
    assert d.calls - {id} == f.calls;
  }

  lemma CreationTables(w: World, f: World, r: Request, now: int)
    requires Sound(w) && w.clock <= now && f == BothFreshened(w, r, now) && LineOf(f, r.caller).None? && r.newId !in w.calls
    requires LineOf(f, r.callee).Some? <==> Busies(w, r.callee, now)
    ensures var d := Created(f, r);
            && r.newId in d.calls && d.calls[r.newId] == RequestRecord(r, now, StillbornFor(w, r, now))
            && ClockEnds(w, d.(calls := d.calls - {r.newId}), {r.caller, r.callee}, now)
  {
    BothFreshenKeepsSound(w, r, now);
    BothFreshenedTables(w, r, now);
    CreatedRecord(f, r, now, StillbornFor(w, r, now));
    ClockEndsBesides(w, f, Created(f, r), r.newId, {r.caller, r.callee}, RequestRecord(r, now, StillbornFor(w, r, now)), now);
  }

  /** The state in which the caller's own call is met: what the request does and answers then. */
  lemma BusyCallerStep(w: World, r: Request, id: CallId, now: int)
    requires Sound(w) && r.gate.None? && InCall(w, id, r.caller, now)
    ensures var f, c := BothFreshened(w, r, now), w.calls[id];
            var meets := c.state.Ringing? && c.caller == r.callee && c.callee == r.caller && c.conversation == r.conversation;
            var answered := c.(state := Accepted, version := c.version + 1, acceptedAt := Some(now), acceptedBy := None, lastKeepaliveAt := now);
            && id in f.calls && f.calls[id] == c
            && AfterStart(w, r, now).calls == (if meets then f.calls[id := answered] else f.calls)
            && ReplyToStart(w, r, now) == if meets then Ok(answered) else Rejected(AlreadyInCall)
  {
    LinesAreTheCalls(w, r, r.caller, id, now);
    assert Coherent(w.calls[id], w.clock);
  }

  /** A request of a user in a call makes no record: it answers the callee's ringing, or is refused. */
  lemma BusyCallerTables(w: World, r: Request, id: CallId, now: int)
    requires Sound(w) && w.clock <= now && r.newId !in w.calls && r.caller != r.callee && r.gate.None? && InCall(w, id, r.caller, now)
    ensures var c, d, reply := w.calls[id], AfterStart(w, r, now), ReplyToStart(w, r, now);
            var meets := c.state.Ringing? && c.caller == r.callee && c.callee == r.caller && c.conversation == r.conversation;
            var answered := c.(state := Accepted, version := c.version + 1, acceptedAt := Some(now), acceptedBy := None, lastKeepaliveAt := now);
            && Sound(d) && d.clock == now && d.signals == w.signals && id in d.calls
            && d.calls[id] == (if meets then answered else c)
            && ClockEnds(w, d.(calls := d.calls[id := c]), {r.caller, r.callee}, now)
            && reply == if meets then Ok(answered) else Rejected(AlreadyInCall)
  {
    StartKeepsSound(w, r, now);
    StartKeepsSignals(w, r, now);
    StartClock(w, r, now);
    BusyCallerStep(w, r, id, now);
    BothFreshenedTables(w, r, now);
    ClockEndsApart(w, BothFreshened(w, r, now), AfterStart(w, r, now), id, {r.caller, r.callee}, now);
  }

  lemma ClockEndsApart(w: World, f: World, d: World, id: CallId, users: set<UserId>, now: int)
    requires ClockEnds(w, f, users, now) && id in w.calls && f.calls[id] == w.calls[id]
    requires d.calls == f.calls || (id in d.calls && d.calls == f.calls[id := d.calls[id]])
    ensures ClockEnds(w, d.(calls := d.calls[id := w.calls[id]]), users, now)
  {
    assert id in f.calls.Keys;
    assert d.calls[id := w.calls[id]] == f.calls;
  }

  lemma RefusedStartTables(w: World, r: Request, now: int)
    requires r.gate.Some?
    ensures Nothing(w, AfterStart(w, r, now), now) && ReplyToStart(w, r, now) == Rejected(r.gate.value)
  {
  }

  // ----- Sweeping and recovering -----

  /** A sweep ends exactly the claimed calls past their deadline, for the reason of their state, and forgets exactly the expired signals. */
  lemma SweepTables(w: World, claimed: seq<CallId>, now: int)
    requires Sound(w) && w.clock <= now
    ensures var d := Swept(w, claimed, now);
            && Sound(d) && d.clock == now && d.calls.Keys == w.calls.Keys
            && (forall id | id in w.calls ::
                  d.calls[id] == if id in claimed && !WithinDeadline(w.calls[id], now) then EndedByClock(w.calls[id], now) else w.calls[id])
            && (forall k :: k in d.signals <==> k in w.signals && now < w.signals[k].expiresAt)
            && (forall k | k in d.signals :: d.signals[k] == w.signals[k])
  {
    StepKeepsSound(w, Sweeps(claimed, now));
    SweepKeepsSignals(w, claimed, now);
    SweptClock(w, claimed, now);
    SweptCallsTables(w, claimed, now);
  }

  lemma {:induction false} SweptCallsTables(w: World, claimed: seq<CallId>, now: int)
    requires Sound(w) && w.clock <= now
    ensures var d := SweptCalls(w, claimed, now);
            && d.calls.Keys == w.calls.Keys
            && forall id | id in w.calls ::
                 d.calls[id] == if id in claimed && !WithinDeadline(w.calls[id], now) then EndedByClock(w.calls[id], now) else w.calls[id]
  {
    if claimed != [] {
      var n := |claimed| - 1;
      var before := SweptCalls(w, claimed[..n], now);
      SweptCallsTables(w, claimed[..n], now);
      SweepKeepsSound(w, claimed[..n], now);
      assert forall id :: id in claimed <==> id in claimed[..n] || id == claimed[n];
      if claimed[n] in before.calls {
        FreshenOneCall(before, claimed[n], now);
        DueMeansOverDeadline(before, claimed[n], now);
        assert claimed[n] in w.calls.Keys;
      }
    }
  }

  /** What the loop over the pages recovers is told by the table: the peer's rows of the call, unexpired, above the start. */
  lemma RecoveredFromTable(w: World, id: CallId, user: UserId, after: nat, now: int, n: nat)
    requires Sound(w) && id in w.calls && (user == w.calls[id].caller || user == w.calls[id].callee)
    ensures var peer := if user == w.calls[id].caller then w.calls[id].callee else w.calls[id].caller;
            n in Recovered(w, id, user, after, now) <==>
              && SignalKey(id, n) in w.signals && w.signals[SignalKey(id, n)].sender == peer
              && n > after && now < w.signals[SignalKey(id, n)].expiresAt
  {
    RecoveryIsComplete(w, id, user, after, now);
    assert n in Recovered(w, id, user, after, now) <==> n in Elements(Recovered(w, id, user, after, now));
    assert SignalsSound(w);
    assert w.calls[id].caller != w.calls[id].callee by { assert Coherent(w.calls[id], w.clock); }
    if SignalKey(id, n) in w.signals { assert w.calls[id].Involves(w.signals[SignalKey(id, n)].sender); }
  }

  /** A page holds the least of them, never more than two hundred; anybody else is told that the call does not exist. */
  lemma ListingFromTable(w: World, id: CallId, user: UserId, after: int, now: int)
    ensures var reply := ListSignals(w, id, user, after, now);
            && (reply.NotFound? <==> id !in w.calls || (user != w.calls[id].caller && user != w.calls[id].callee))
            && (reply.Listed? ==> |reply.numbers| <= 200 && StrictlyAscending(reply.numbers))
  {
    var reply := ListSignals(w, id, user, after, now);
    var unheard := Unheard(w, id, user, if after > 0 then after else 0, now);
    if reply.Listed? && unheard != {} { AscendingPage(unheard, SIGNALS_PAGE); }
  }
}
