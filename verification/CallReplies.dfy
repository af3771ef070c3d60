/** What the users are told: the outcome of a request to call somebody, and of asking for the same thing twice. */
module CallReplies {
  import opened Wrappers
  import opened Calls
  import opened CallWorld
  import opened CallSweeper

  /** The user takes part in this call, and the clock has not yet ended it. */
  predicate InCall(w: World, id: CallId, user: UserId, now: int) {
    id in w.calls && !w.calls[id].state.Ended? && w.calls[id].Involves(user) && !Due(w, id, now)
  }

  ghost predicate SettledOnly(w: World, f: World, now: int) {
    f.calls.Keys == w.calls.Keys
    && forall id | id in w.calls :: f.calls[id] == w.calls[id] || f.calls[id] == Settled(w.calls[id], now)
  }

  lemma SettlesOnce(c: Call, now: int)
    ensures Settled(Settled(c, now), now) == Settled(c, now)
  {
  }

  lemma LineFreshenSettles(w: World, user: UserId, now: int)
    ensures SettledOnly(w, LineFreshened(w, user, now), now)
  {
    if LineOf(w, user).Some? { FreshenOneCall(w, LineOf(w, user).value, now); }
  }

  lemma BothFreshenSettle(w: World, r: Request, now: int)
    ensures SettledOnly(w, BothFreshened(w, r, now), now)
  {
    var one, f := LineFreshened(w, r.caller, now), BothFreshened(w, r, now);
    LineFreshenSettles(w, r.caller, now);
    LineFreshenSettles(one, r.callee, now);
    forall id | id in w.calls ensures f.calls[id] == w.calls[id] || f.calls[id] == Settled(w.calls[id], now) {
      assert id in one.calls.Keys;
      SettlesOnce(w.calls[id], now);
    }
  }

  /** After the lazy expiry the line of a user is the call the user really is in. */
  lemma LineIsTheCall(w: World, f: World, user: UserId, id: CallId, now: int)
    requires SettledOnly(w, f, now) && LinesSound(f) && Current(f, user, now)
    ensures LineOf(f, user) == Some(id) <==> InCall(w, id, user, now)
    ensures LineOf(f, user) == Some(id) ==> f.calls[id] == w.calls[id]
  {
    assert id in w.calls.Keys <==> id in f.calls.Keys;
    if id in w.calls {
      OnTheLine(f, id, user);
      SettledIsNotDue(w.calls[id], now);
    }
  }

  lemma LinesAreTheCalls(w: World, r: Request, user: UserId, id: CallId, now: int)
    requires LinesSound(w) && (user == r.caller || user == r.callee)
    ensures var f := BothFreshened(w, r, now);
            && (LineOf(f, user) == Some(id) <==> InCall(w, id, user, now))
            && (LineOf(f, user) == Some(id) ==> id in f.calls && id in w.calls && f.calls[id] == w.calls[id])
  {
    var one, f := LineFreshened(w, r.caller, now), BothFreshened(w, r, now);
    LineFreshenKeepsLines(w, r.caller, now);
    LineFreshenKeepsLines(one, r.callee, now);
    FreshenedLineIsCurrent(w, r.caller, r.caller, now);
    FreshenedLineIsCurrent(one, r.callee, r.caller, now);
    BothFreshenSettle(w, r, now);
    LineIsTheCall(w, f, user, id, now);
  }

  ghost predicate Busies(w: World, user: UserId, now: int) {
    exists id :: InCall(w, id, user, now)
  }

  lemma LineTakenWhenBusy(w: World, r: Request, user: UserId, now: int)
    requires LinesSound(w) && (user == r.caller || user == r.callee)
    ensures LineOf(BothFreshened(w, r, now), user).Some? <==> Busies(w, user, now)
  {
    var f := BothFreshened(w, r, now);
    if LineOf(f, user).Some? { LinesAreTheCalls(w, r, user, LineOf(f, user).value, now); }
    if id :| InCall(w, id, user, now) { LinesAreTheCalls(w, r, user, id, now); }
  }

  datatype Outcome = Rings | Meets | FoundBusy | FoundUnavailable | Refused(reason: Rejection)

  /** The outcome as a caller sees it in the reply. */
  predicate Shows(reply: Reply, outcome: Outcome) {
    match outcome
    case Rings => reply.Ok? && reply.call.state.Ringing? && reply.call.version == 1
    case Meets => reply.Ok? && reply.call.state.Accepted? && reply.call.acceptedBy.None?
    case FoundBusy => reply.Ok? && reply.call.endReason == Some(Busy)
    case FoundUnavailable => reply.Ok? && reply.call.endReason == Some(Unavailable)
    case Refused(reason) => reply == Rejected(reason)
  }

  /** The call in which the callee is already ringing the caller back. */
  ghost predicate Met(w: World, r: Request, now: int) {
    exists id :: InCall(w, id, r.caller, now) && IsCounterCall(w.calls[id], r) && w.calls[id].state.Ringing?
  }

  /**
    A request by a free user rings exactly when the callee is free and reachable and no other transaction was
    faster; it is recorded as busy or unavailable otherwise; a user already in a call is refused, unless that
    call is the callee ringing him in the same conversation, which is answered. Overdue calls count for nothing.
   */
  lemma StartOutcome(w: World, r: Request, now: int)
    requires Sound(w) && r.newId !in w.calls && r.caller != r.callee
    ensures var reply := ReplyToStart(w, r, now);
            && (r.gate.Some? ==> Shows(reply, Refused(r.gate.value)))
            && (r.gate.None? && Busies(w, r.caller, now) && Met(w, r, now) ==> Shows(reply, Meets) && IsCounterCall(reply.call, r))
            && (r.gate.None? && Busies(w, r.caller, now) && !Met(w, r, now) ==> Shows(reply, Refused(AlreadyInCall)))
            && (r.gate.None? && !Busies(w, r.caller, now) ==>
                  Shows(reply, if Busies(w, r.callee, now) then FoundBusy
                               else if !r.reachable then FoundUnavailable
                               else if r.raced then FoundBusy else Rings))
  {
    if r.gate.None? {
      var f := BothFreshened(w, r, now);
      LineTakenWhenBusy(w, r, r.caller, now);
      LineTakenWhenBusy(w, r, r.callee, now);
      if LineOf(f, r.caller).Some? {
        BusyCallerOutcome(w, r, now);
      } else {
        CreationOutcome(w, f, r, now);
      }
    }
  }

  lemma BusyCallerOutcome(w: World, r: Request, now: int)
    requires Sound(w) && r.gate.None? && LineOf(BothFreshened(w, r, now), r.caller).Some?
    ensures var reply := ReplyToStart(w, r, now);
            if Met(w, r, now) then Shows(reply, Meets) && IsCounterCall(reply.call, r) else Shows(reply, Refused(AlreadyInCall))
  {
    var mine := LineOf(BothFreshened(w, r, now), r.caller).value;
    LinesAreTheCalls(w, r, r.caller, mine, now);
    assert w.calls[mine].acceptedBy.None? || !w.calls[mine].state.Ringing? by { assert Coherent(w.calls[mine], w.clock); }
    forall id | InCall(w, id, r.caller, now) ensures id == mine { LinesAreTheCalls(w, r, r.caller, id, now); }
  }

  lemma CreationOutcome(w: World, f: World, r: Request, now: int)
    requires LinesSound(w) && f == BothFreshened(w, r, now) && LineOf(f, r.caller).None?
    ensures Shows(Ok(Created(f, r).calls[r.newId]),
                  if LineOf(f, r.callee).Some? then FoundBusy
                  else if !r.reachable then FoundUnavailable
                  else if r.raced then FoundBusy else Rings)
  {
    LineFreshenKeepsLines(w, r.caller, now);
    LineFreshenKeepsLines(LineFreshened(w, r.caller, now), r.callee, now);
    if LineOf(f, r.callee).None? { FreeWhenNoLines(f, r); }
  }

  // ----- Asking twice -----

  lemma RepeatOnOneCall(call: Call, user: UserId, wish: Wish, now: int, later: int)
    requires call.caller != call.callee && CallReply(call, user, wish, now).Ok?
    ensures var again := CallAfterWish(call, user, wish, now);
            && again.Involves(user) && ChangeFor(again, user, wish).Noop?
            && (CallReply(again, user, wish, later).Ok? <==> !Expire(again, later).To? || AnsweredAfterExpiry(wish))
            && (!Expire(again, later).To? ==>
                  && CallReply(again, user, wish, later) == Ok(again)
                  && Touched(again, wish, later) == again.(lastKeepaliveAt := Touched(again, wish, later).lastKeepaliveAt))
  {
  }

  /**
    A wish granted once may be asked for again whenever the answer was lost. The repeat is granted too if and only if
    the call has not become overdue meanwhile, or the wish is one that is content with an ended call; and while it has
    not, the repeat changes nothing of the call but the time of its last sign of life.
   */
  lemma GrantedWishMayBeRepeated(w: World, id: CallId, user: UserId, wish: Wish, now: int, later: int)
    requires Sound(w) && ReplyToWish(w, id, user, wish, now).Ok?
    ensures var d := AfterWish(w, id, user, wish, now);
            && id in d.calls
            && (ReplyToWish(d, id, user, wish, later).Ok? <==> !Due(d, id, later) || AnsweredAfterExpiry(wish))
            && (!Due(d, id, later) ==>
                  && ReplyToWish(d, id, user, wish, later) == Ok(d.calls[id])
                  && OnlySignOfLife(d, AfterWish(d, id, user, wish, later), id))
  {
    assert Coherent(w.calls[id], w.clock);
    var d := AfterWish(w, id, user, wish, now);
    WishOnOneCall(w, id, user, wish, now);
    RepeatOnOneCall(w.calls[id], user, wish, now, later);
    WishOnOneCall(d, id, user, wish, later);
  }

  /** Nothing differs but the clock and, perhaps, when the call last gave a sign of life. */
  ghost predicate OnlySignOfLife(d: World, e: World, id: CallId) {
    && id in d.calls && id in e.calls
    && e == d.(clock := e.clock, calls := d.calls[id := d.calls[id].(lastKeepaliveAt := e.calls[id].lastKeepaliveAt)])
  }

  // ----- Deadlines -----

  /** What the rules allow a live call: half a minute to be answered, half a minute to connect, then a sign of life in every ninety seconds. */
  predicate WithinDeadline(call: Call, now: int) {
    && (call.state.Ringing? ==> now - call.createdAt <= 30_000_000)
    && (call.state.Accepted? ==> call.acceptedAt.Some? && now - call.acceptedAt.value <= 30_000_000)
    && (call.state.Active? ==> now - call.lastKeepaliveAt <= 90_000_000)
  }

  lemma DueMeansOverDeadline(w: World, id: CallId, now: int)
    requires CallsSound(w) && id in w.calls
    ensures Due(w, id, now) <==> !WithinDeadline(w.calls[id], now)
  {
    assert Coherent(w.calls[id], w.clock);
  }

  lemma {:induction false} SweepSettles(w: World, claimed: seq<CallId>, now: int)
    ensures var d := SweptCalls(w, claimed, now);
            && SettledOnly(w, d, now)
            && forall id | id in w.calls && id in claimed :: d.calls[id] == Settled(w.calls[id], now)
  {
    if claimed != [] {
      var n := |claimed| - 1;
      var before := SweptCalls(w, claimed[..n], now);
      SweepSettles(w, claimed[..n], now);
      assert forall id :: id in claimed <==> id in claimed[..n] || id == claimed[n];
      if claimed[n] in before.calls {
        FreshenOneCall(before, claimed[n], now);
        assert claimed[n] in w.calls.Keys;
        SettlesOnce(w.calls[claimed[n]], now);
      }
    }
  }

  /** After a sweep no claimed call is past its deadline, and a claimed call within its deadline was not touched. */
  lemma SweepEndsExactlyTheOverdue(w: World, claimed: seq<CallId>, now: int, id: CallId)
    requires Sound(w) && w.clock <= now && id in w.calls && id in claimed
    ensures var d := Swept(w, claimed, now);
            && id in d.calls && WithinDeadline(d.calls[id], now)
            && (WithinDeadline(w.calls[id], now) ==> d.calls[id] == w.calls[id])
            && (!WithinDeadline(w.calls[id], now) ==> d.calls[id].state.Ended?)
  {
    SweepSettles(w, claimed, now);
    SweepKeepsSound(w, claimed, now);
    var d := SweptCalls(w, claimed, now);
    assert id in d.calls.Keys;
    DueMeansOverDeadline(w, id, now);
    DueMeansOverDeadline(d, id, now);
    SettledIsNotDue(w.calls[id], now);
  }

  /** A sign of life from either party keeps an active call for another ninety seconds; it buys no time to connect. */
  lemma SignOfLife(w: World, id: CallId, user: UserId, wish: Wish, now: int, later: int)
    requires id in w.calls && ReplyToWish(w, id, user, wish, now).Ok? && (wish.KeepAlive? || wish.ReportConnected?)
    ensures var d := AfterWish(w, id, user, wish, now);
            && id in d.calls
            && (d.calls[id].state.Active? ==> (Due(d, id, later) <==> later - now > 90_000_000))
            && (d.calls[id].state.Accepted? ==> Due(d, id, later) == Due(w, id, later))
  {
    WishOnOneCall(w, id, user, wish, now);
  }
}
