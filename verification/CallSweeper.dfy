/**
  What the background sweeper changes: next to nothing of what users are answered and what signals reach their peers,
  since every action first ends an overdue call itself. A run with sweeps woven in and the same run without them are
  related as a simulation, and the steps that can tell them apart are named exactly. The announcement of an ended
  call, which a sweep makes earlier, is not among the things compared.
 */
module CallSweeper {
  import opened Wrappers
  import opened Calls
  import opened CallWorld
  import opened CallRuns
  import opened CallSignals

  /** The same record, save for the time it ended when that was not a conversation completed. */
  predicate Same(c: Call, d: Call) {
    && d == c.(endedAt := d.endedAt, lastKeepaliveAt := d.lastKeepaliveAt)
    && (!c.state.Ended? || c.endReason == Some(Completed) ==>
          d.endedAt == c.endedAt && d.lastKeepaliveAt == c.lastKeepaliveAt)
  }

  function Expired(c: Call, now: int): Call
    requires Expire(c, now).To?
  {
    Applied(c, Ended, Expire(c, now).reason, None, now)
  }

  /** Either the same record, or one overdue on the left that a sweep has already ended on the right. */
  predicate Alike(c: Call, d: Call, now: int) {
    Same(c, d) || (Expire(c, now).To? && d.state.Ended? && Same(Expired(c, now), d))
  }

  ghost predicate AlikeCalls(a: map<CallId, Call>, b: map<CallId, Call>, now: int) {
    a.Keys == b.Keys && forall id | id in a :: Alike(a[id], b[id], now)
  }

  /** The same stored signals, save for some on the left that have expired. */
  ghost predicate AlikeSignals(a: map<SignalKey, Signal>, b: map<SignalKey, Signal>, now: int) {
    && (forall k | k in b :: k in a && a[k] == b[k])
    && (forall k | k in a && k !in b :: a[k].expiresAt <= now)
  }

  /** The world on the right is the one on the left with some overdue calls already ended and some expired signals forgotten. */
  ghost predicate Related(w: World, d: World) {
    && Sound(w) && Sound(d) && w.clock <= d.clock
    && AlikeCalls(w.calls, d.calls, d.clock) && AlikeSignals(w.signals, d.signals, d.clock)
  }

  predicate AlikeReplies(a: Option<Reply>, b: Option<Reply>) {
    match (a, b)
    case (None, None) => true
    case (Some(Ok(c)), Some(Ok(d))) => Same(c, d)
    case (Some(Rejected(r)), Some(Rejected(s))) => r == s
    case _ => false
  }

  ghost function ReplyTo(w: World, step: Step): Option<Reply> {
    match step
    case Acts(id, user, wish, now) => Some(ReplyToWish(w, id, user, wish, now))
    case Starts(request, now) => Some(ReplyToStart(w, request, now))
    case Signals(id, user, _, _, now) => Some(ReplyToSignal(w, id, user, now))
    case _ => None
  }

  /** What comes of a step for the users: a reply to the one, and a signal handed over for the other. */
  datatype Told = Told(reply: Option<Reply>, publication: Option<Publication>)

  ghost function ToldBy(w: World, step: Step): Told { Told(ReplyTo(w, step), PublishedBy(w, step)) }

  predicate ToldAlike(a: Told, b: Told) { AlikeReplies(a.reply, b.reply) && a.publication == b.publication }

  /** A named signal is sent again whose row is stored but has expired: until it is purged the repeat still finds it. */
  ghost predicate RepeatsExpired(w: World, id: CallId, user: UserId, signalId: Option<SignalId>, now: int) {
    && Talking(w, id, user, now) && FoundSignal(w, id, user, signalId).Some?
    && w.signals[SignalKey(id, FoundSignal(w, id, user, signalId).value)].expiresAt <= now
  }

  /**
    The steps to which the sweeper is invisible. Outside are only the caller answering or declining his own overdue
    call, an undelivered announcement withdrawn after the ringing should already have been given up, and the repeat
    of a signal that has expired.
   */
  ghost predicate Blind(w: World, step: Step) {
    match step
    case Acts(id, user, wish, now) =>
      (wish.Answer? || wish.TurnDown?) && id in w.calls && Due(w, id, now) ==> user != w.calls[id].caller
    case Undelivered(id, now) => id in w.calls && Due(w, id, now) ==> !w.calls[id].state.Ringing?
    case Signals(id, user, signalId, _, now) => !RepeatsExpired(w, id, user, signalId, now)
    case Sweeps(_, _) => false
    case Starts(_, _) => true
  }

  // ----- One record -----

  lemma AlikeLater(c: Call, d: Call, now: int, later: int)
    requires Alike(c, d, now) && now <= later
    ensures Alike(c, d, later)
  {
    if Expire(c, now).To? { ExpiryIsMonotone(c, now, later); }
  }

  lemma SameExpires(c: Call, d: Call, now: int)
    requires Same(c, d)
    ensures Expire(c, now) == Expire(d, now)
    ensures Expire(c, now).To? ==> Same(Expired(c, now), Expired(d, now))
  {
  }

  function CallAfterWish(c: Call, user: UserId, wish: Wish, now: int): Call {
    if !c.Involves(user) then c
    else if Expire(c, now).To? then Expired(c, now)
    else
      var change := ChangeFor(c, user, wish);
      match change
      case Noop => Touched(c, wish, now)
      case To(_, _) => Routed(Applied(c, change.state, change.reason, TabOf(wish), now), wish)
      case _ => c
  }

  function CallReply(c: Call, user: UserId, wish: Wish, now: int): Reply {
    if !c.Involves(user) then Rejected(CallNotFound)
    else if Expire(c, now).To? then
      if AnsweredAfterExpiry(wish) then Ok(Expired(c, now)) else Rejected(CallEnded)
    else
      var change := ChangeFor(c, user, wish);
      match change
      case Denied => Rejected(CallNotFound)
      case Taken => Rejected(CallTaken)
      case Gone => Rejected(CallEnded)
      case Noop => Ok(c)
      case To(_, _) => Ok(Applied(c, change.state, change.reason, TabOf(wish), now))
  }

  lemma WishOnOneCall(w: World, id: CallId, user: UserId, wish: Wish, now: int)
    requires id in w.calls
    ensures AfterWish(w, id, user, wish, now).calls == w.calls[id := CallAfterWish(w.calls[id], user, wish, now)]
    ensures ReplyToWish(w, id, user, wish, now) == CallReply(w.calls[id], user, wish, now)
    ensures AfterWish(w, id, user, wish, now).clock == now
  {
    EveryChangeIsLawful(w.calls[id], user, None, now);
  }

  lemma SameWish(c: Call, d: Call, user: UserId, wish: Wish, now: int)
    requires Same(c, d)
    ensures Same(CallAfterWish(c, user, wish, now), CallAfterWish(d, user, wish, now))
    ensures AlikeReplies(Some(CallReply(c, user, wish, now)), Some(CallReply(d, user, wish, now)))
  {
    SameExpires(c, d, now);
    ChangeForIsLawful(c, user, wish);
    assert ChangeFor(c, user, wish) == ChangeFor(d, user, wish);
  }

  lemma AheadWish(c: Call, d: Call, user: UserId, wish: Wish, now: int)
    requires Expire(c, now).To? && Same(Expired(c, now), d)
    requires (wish.Answer? || wish.TurnDown?) ==> user != c.caller
    ensures Alike(CallAfterWish(c, user, wish, now), CallAfterWish(d, user, wish, now), now)
    ensures AlikeReplies(Some(CallReply(c, user, wish, now)), Some(CallReply(d, user, wish, now)))
  {
    assert d.state.Ended? && (d.endReason == Some(Missed) || d.endReason == Some(Failed));
  }

  // ----- The calls of two worlds -----

  lemma AlikeCallsLater(a: map<CallId, Call>, b: map<CallId, Call>, now: int, later: int)
    requires AlikeCalls(a, b, now) && now <= later
    ensures AlikeCalls(a, b, later)
  {
    forall id | id in a ensures Alike(a[id], b[id], later) { AlikeLater(a[id], b[id], now, later); }
  }

  lemma AlikeCallsUpdate(a: map<CallId, Call>, b: map<CallId, Call>, now: int, id: CallId, c: Call, d: Call)
    requires AlikeCalls(a, b, now) && Alike(c, d, now)
    ensures AlikeCalls(a[id := c], b[id := d], now)
  {
  }

  lemma AlikeWish(w: World, d: World, id: CallId, user: UserId, wish: Wish, now: int)
    requires AlikeCalls(w.calls, d.calls, now) && Blind(w, Acts(id, user, wish, now))
    ensures AlikeCalls(AfterWish(w, id, user, wish, now).calls, AfterWish(d, id, user, wish, now).calls, now)
    ensures AlikeReplies(Some(ReplyToWish(w, id, user, wish, now)), Some(ReplyToWish(d, id, user, wish, now)))
  {
    assert id in w.calls <==> id in d.calls.Keys;
    if id in w.calls {
      var c, e := w.calls[id], d.calls[id];
      assert Alike(c, e, now);
      WishOnOneCall(w, id, user, wish, now);
      WishOnOneCall(d, id, user, wish, now);
      if Same(c, e) { SameWish(c, e, user, wish, now); } else { AheadWish(c, e, user, wish, now); }
      AlikeCallsUpdate(w.calls, d.calls, now, id, CallAfterWish(c, user, wish, now), CallAfterWish(e, user, wish, now));
    }
  }

  function Settled(c: Call, now: int): Call { if Expire(c, now).To? then Expired(c, now) else c }

  lemma AlikeSettled(c: Call, d: Call, now: int)
    requires Alike(c, d, now)
    ensures Alike(c, Settled(d, now), now) && Same(Settled(c, now), Settled(d, now))
  {
    if Same(c, d) { SameExpires(c, d, now); }
  }

  lemma FreshenOneCall(w: World, id: CallId, now: int)
    requires id in w.calls
    ensures Freshened(w, id, now).calls == w.calls[id := Settled(w.calls[id], now)] && Freshened(w, id, now).clock == now
    ensures Freshened(w, id, now).participants <= w.participants
  {
  }

  /** A sweep on the right goes unnoticed. */
  lemma {:induction false} AlikeSweep(a: map<CallId, Call>, d: World, claimed: seq<CallId>, now: int)
    requires AlikeCalls(a, d.calls, now)
    ensures AlikeCalls(a, SweptCalls(d, claimed, now).calls, now) && SweptCalls(d, claimed, now).clock == now
  {
    if claimed != [] {
      var before, id := SweptCalls(d, claimed[..|claimed| - 1], now), claimed[|claimed| - 1];
      AlikeSweep(a, d, claimed[..|claimed| - 1], now);
      if id in before.calls {
        assert id in a.Keys;
        FreshenOneCall(before, id, now);
        AlikeSettled(a[id], before.calls[id], now);
        AlikeCallsUpdate(a, before.calls, now, id, a[id], Settled(before.calls[id], now));
        assert a[id := a[id]] == a;
      }
    }
  }

  function CallAfterAbort(c: Call, now: int): Call {
    if c.state.Ended? then c else Applied(c, Ended, Some(Failed), None, now)
  }

  lemma AlikeAbort(w: World, d: World, id: CallId, now: int)
    requires AlikeCalls(w.calls, d.calls, now) && Blind(w, Undelivered(id, now))
    ensures AlikeCalls(Aborted(w, id, now).calls, Aborted(d, id, now).calls, now)
  {
    assert id in w.calls <==> id in d.calls.Keys;
    if id in w.calls {
      assert Alike(w.calls[id], d.calls[id], now);
      AlikeCallsUpdate(w.calls, d.calls, now, id, CallAfterAbort(w.calls[id], now), CallAfterAbort(d.calls[id], now));
      assert Aborted(w, id, now).calls == w.calls[id := CallAfterAbort(w.calls[id], now)];
      assert Aborted(d, id, now).calls == d.calls[id := CallAfterAbort(d.calls[id], now)];
    }
  }

  // ----- Signals -----

  lemma SameFound(w: World, d: World, id: CallId, user: UserId, signalId: Option<SignalId>, now: int)
    requires SignalsSound(w) && SignalsSound(d) && AlikeSignals(w.signals, d.signals, now)
    requires FoundSignal(w, id, user, signalId).Some? ==>
               w.signals[SignalKey(id, FoundSignal(w, id, user, signalId).value)].expiresAt > now
    ensures FoundSignal(d, id, user, signalId) == FoundSignal(w, id, user, signalId)
    ensures FoundSignal(w, id, user, signalId).Some? ==>
              var k := SignalKey(id, FoundSignal(w, id, user, signalId).value); k in d.signals && d.signals[k] == w.signals[k]
  {
    var found, other := FoundSignal(w, id, user, signalId), FoundSignal(d, id, user, signalId);
    assert other.Some? ==> HoldsSignal(w, id, user, signalId, other.value);
    if found.Some? {
      assert HoldsSignal(d, id, user, signalId, found.value);
    }
  }

  lemma AlikeSignalsUpdate(a: map<SignalKey, Signal>, b: map<SignalKey, Signal>, now: int, key: SignalKey, signal: Signal)
    requires AlikeSignals(a, b, now)
    ensures AlikeSignals(a[key := signal], b[key := signal], now)
  {
  }

  /** The same record and the same stored row, hence the same number and body. */
  lemma SamePublication(w: World, d: World, id: CallId, user: UserId, signalId: Option<SignalId>, body: Body, now: int)
    requires Talking(w, id, user, now) && id in d.calls && d.calls[id] == w.calls[id]
    requires FoundSignal(d, id, user, signalId) == FoundSignal(w, id, user, signalId)
    requires FoundSignal(w, id, user, signalId).Some? ==>
               var k := SignalKey(id, FoundSignal(w, id, user, signalId).value); k in d.signals && d.signals[k] == w.signals[k]
    ensures PublishedSignal(w, id, user, signalId, body, now) == PublishedSignal(d, id, user, signalId, body, now)
  {
  }

  lemma SameNewSignal(w: World, d: World, id: CallId, user: UserId, signalId: Option<SignalId>, body: Body, now: int)
    requires AlikeCalls(w.calls, d.calls, now) && AlikeSignals(w.signals, d.signals, now)
    requires Talking(w, id, user, now) && id in d.calls && d.calls[id] == w.calls[id]
    requires FoundSignal(w, id, user, signalId).None? && FoundSignal(d, id, user, signalId).None?
    ensures var v, e := AfterSignal(w, id, user, signalId, body, now), AfterSignal(d, id, user, signalId, body, now);
            AlikeCalls(v.calls, e.calls, now) && AlikeSignals(v.signals, e.signals, now)
  {
    var call := w.calls[id].(signalSeq := w.calls[id].signalSeq + 1);
    NewSignalRow(w, id, user, signalId, body, now);
    NewSignalRow(d, id, user, signalId, body, now);
    assert Alike(call, call, now);
    AlikeCallsUpdate(w.calls, d.calls, now, id, call, call);
    AlikeSignalsUpdate(w.signals, d.signals, now, SignalKey(id, call.signalSeq),
                       Signal(user, signalId, body, now + SIGNAL_TTL_SECONDS * SECOND));
  }

  lemma AlikeTalk(w: World, d: World, id: CallId, user: UserId, signalId: Option<SignalId>, body: Body, now: int)
    requires AlikeCalls(w.calls, d.calls, now) && AlikeSignals(w.signals, d.signals, now) && SignalsSound(w) && SignalsSound(d)
    requires Talking(w, id, user, now) && !RepeatsExpired(w, id, user, signalId, now)
    ensures var v, e := AfterSignal(w, id, user, signalId, body, now), AfterSignal(d, id, user, signalId, body, now);
            AlikeCalls(v.calls, e.calls, now) && AlikeSignals(v.signals, e.signals, now)
    ensures PublishedSignal(w, id, user, signalId, body, now) == PublishedSignal(d, id, user, signalId, body, now)
  {
    TalkAlike(w, d, id, user, now);
    SameWhileTalking(w.calls[id], d.calls[id], now);
    SameFound(w, d, id, user, signalId, now);
    SamePublication(w, d, id, user, signalId, body, now);
    if FoundSignal(w, id, user, signalId).None? { SameNewSignal(w, d, id, user, signalId, body, now); }
  }

  lemma SameWhileTalking(c: Call, d: Call, now: int)
    requires Alike(c, d, now) && !Expire(c, now).To? && !c.state.Ended?
    ensures c == d
  {
  }

  /** A signal that is refused only makes an overdue call end. */
  lemma RefusedSignal(w: World, id: CallId, user: UserId, signalId: Option<SignalId>, body: Body, now: int)
    requires !Talking(w, id, user, now)
    ensures var v := AfterSignal(w, id, user, signalId, body, now);
            && v.signals == w.signals
            && v.calls == if id in w.calls && w.calls[id].Involves(user) then w.calls[id := Settled(w.calls[id], now)] else w.calls
  {
    if id in w.calls {
      FreshenOneCall(w, id, now);
      assert w.calls[id := w.calls[id]] == w.calls;
    }
  }

  lemma TalkAlike(w: World, d: World, id: CallId, user: UserId, now: int)
    requires AlikeCalls(w.calls, d.calls, now)
    ensures Talking(w, id, user, now) <==> Talking(d, id, user, now)
    ensures id in w.calls <==> id in d.calls
    ensures id in w.calls ==> w.calls[id].Involves(user) == d.calls[id].Involves(user)
  {
    assert id in w.calls <==> id in d.calls.Keys;
    if id in w.calls { AlikeParties(w.calls[id], d.calls[id], now); }
  }

  lemma AlikeRefusal(w: World, d: World, id: CallId, user: UserId, signalId: Option<SignalId>, body: Body, now: int)
    requires AlikeCalls(w.calls, d.calls, now) && !Talking(w, id, user, now)
    ensures AlikeCalls(AfterSignal(w, id, user, signalId, body, now).calls, AfterSignal(d, id, user, signalId, body, now).calls, now)
    ensures AfterSignal(w, id, user, signalId, body, now).signals == w.signals
    ensures AfterSignal(d, id, user, signalId, body, now).signals == d.signals
    ensures !Talking(d, id, user, now)
  {
    TalkAlike(w, d, id, user, now);
    RefusedSignal(w, id, user, signalId, body, now);
    RefusedSignal(d, id, user, signalId, body, now);
    if id in w.calls && w.calls[id].Involves(user) {
      AlikeSettled(w.calls[id], d.calls[id], now);
      AlikeCallsUpdate(w.calls, d.calls, now, id, Settled(w.calls[id], now), Settled(d.calls[id], now));
    }
  }

  lemma AlikeSignal(w: World, d: World, id: CallId, user: UserId, signalId: Option<SignalId>, body: Body, now: int)
    requires AlikeCalls(w.calls, d.calls, now) && AlikeSignals(w.signals, d.signals, now) && SignalsSound(w) && SignalsSound(d)
    requires !RepeatsExpired(w, id, user, signalId, now)
    ensures var v, e := AfterSignal(w, id, user, signalId, body, now), AfterSignal(d, id, user, signalId, body, now);
            AlikeCalls(v.calls, e.calls, now) && AlikeSignals(v.signals, e.signals, now)
    ensures AlikeReplies(Some(ReplyToSignal(w, id, user, now)), Some(ReplyToSignal(d, id, user, now)))
    ensures PublishedSignal(w, id, user, signalId, body, now) == PublishedSignal(d, id, user, signalId, body, now)
  {
    assert id in w.calls <==> id in d.calls.Keys;
    if Talking(w, id, user, now) {
      AlikeTalk(w, d, id, user, signalId, body, now);
    } else {
      AlikeRefusal(w, d, id, user, signalId, body, now);
    }
    if id in w.calls { SignalReply(w.calls[id], d.calls[id], user, now); }
  }

  function CallReplyToSignal(c: Call, user: UserId, now: int): Reply {
    if !c.Involves(user) then Rejected(CallNotFound)
    else if Expire(c, now).To? || c.state.Ended? then Rejected(CallEnded)
    else if c.state.Ringing? then Rejected(CallNotReady)
    else Ok(c)
  }

  lemma SignalReply(c: Call, d: Call, user: UserId, now: int)
    requires Alike(c, d, now)
    ensures AlikeReplies(Some(CallReplyToSignal(c, user, now)), Some(CallReplyToSignal(d, user, now)))
  {
    if Same(c, d) { SameExpires(c, d, now); }
  }

  // ----- Starting a call -----

  /** Alike calls, and lines that tell which of them are live. */
  ghost predicate AlikeLines(w: World, d: World, now: int) {
    AlikeCalls(w.calls, d.calls, now) && LinesSound(w) && LinesSound(d)
  }

  lemma TheLine(w: World, user: UserId)
    requires LinesSound(w)
    ensures forall id: CallId :: LineOf(w, user) == Some(id) <==> Participant(id, user) in w.participants
    ensures LineOf(w, user).Some? ==>
              var id := LineOf(w, user).value; !w.calls[id].state.Ended? && w.calls[id].Involves(user)
  {
    if LineOf(w, user).Some? { assert Participant(LineOf(w, user).value, user) in w.participants; }
    forall id: CallId | Participant(id, user) in w.participants ensures LineOf(w, user) == Some(id) {
      assert Participant(id, user).call in w.calls;
      assert LineOf(w, user).Some? && Participant(LineOf(w, user).value, user) in w.participants;
    }
  }

  /** The user's line, if taken at all, is taken by a call that is not overdue. */
  ghost predicate Current(w: World, user: UserId, now: int) {
    LineOf(w, user).Some? ==> !Due(w, LineOf(w, user).value, now)
  }

  lemma OnTheLine(w: World, id: CallId, user: UserId)
    requires LinesSound(w) && id in w.calls
    ensures LineOf(w, user) == Some(id) <==> !w.calls[id].state.Ended? && w.calls[id].Involves(user)
  {
    TheLine(w, user);
    assert Participant(id, user) in w.participants <==> !w.calls[id].state.Ended? && w.calls[id].Involves(user);
  }

  lemma AlikeParties(c: Call, d: Call, now: int)
    requires Alike(c, d, now)
    ensures d.caller == c.caller && d.callee == c.callee && (c.state.Ended? ==> d.state.Ended?)
    ensures d.state.Ended? && !c.state.Ended? ==> Expire(c, now).To?
    ensures !Expire(c, now).To? ==> Same(c, d)
  {
  }

  lemma SameLine(w: World, d: World, user: UserId, now: int)
    requires AlikeLines(w, d, now) && Current(w, user, now)
    ensures LineOf(d, user) == LineOf(w, user)
    ensures LineOf(w, user).Some? ==> Same(w.calls[LineOf(w, user).value], d.calls[LineOf(w, user).value])
  {
    if LineOf(w, user).Some? {
      var id := LineOf(w, user).value;
      assert id in d.calls.Keys;
      AlikeParties(w.calls[id], d.calls[id], now);
      OnTheLine(w, id, user);
      OnTheLine(d, id, user);
    } else if LineOf(d, user).Some? {
      LineOnTheLeft(w, d, user, now);
    }
  }

  lemma LineOnTheLeft(w: World, d: World, user: UserId, now: int)
    requires AlikeLines(w, d, now) && LineOf(d, user).Some?
    ensures LineOf(w, user) == LineOf(d, user)
  {
    var id := LineOf(d, user).value;
    assert id in w.calls.Keys;
    AlikeParties(w.calls[id], d.calls[id], now);
    OnTheLine(w, id, user);
    OnTheLine(d, id, user);
  }

  lemma SettledIsNotDue(c: Call, now: int)
    ensures !Expire(Settled(c, now), now).To?
  {
  }

  lemma FreshenedLineIsCurrent(w: World, user: UserId, other: UserId, now: int)
    requires LinesSound(w)
    ensures var f := LineFreshened(w, user, now); Current(f, user, now) && (Current(w, other, now) ==> Current(f, other, now))
  {
    var f := LineFreshened(w, user, now);
    LineFreshenKeepsLines(w, user, now);
    if LineOf(w, user).Some? {
      FreshenOneCall(w, LineOf(w, user).value, now);
      SettledIsNotDue(w.calls[LineOf(w, user).value], now);
    }
    LineWasThere(w, f, user);
    LineWasThere(w, f, other);
  }

  lemma LineWasThere(w: World, f: World, user: UserId)
    requires LinesSound(w) && LinesSound(f) && f.participants <= w.participants
    ensures LineOf(f, user).Some? ==> LineOf(w, user) == LineOf(f, user)
  {
    TheLine(w, user);
    TheLine(f, user);
    if LineOf(f, user).Some? { assert Participant(LineOf(f, user).value, user) in w.participants; }
  }

  /** The call on the left is overdue: on the right it is overdue too, or a sweep has already ended it. */
  lemma SweptLine(w: World, d: World, user: UserId, now: int)
    requires AlikeLines(w, d, now) && LineOf(w, user).Some? && LineOf(d, user).None?
    ensures var id := LineOf(w, user).value; id in d.calls && Settled(d.calls[id], now) == d.calls[id]
  {
    var id := LineOf(w, user).value;
    assert id in d.calls.Keys;
    AlikeParties(w.calls[id], d.calls[id], now);
    OnTheLine(w, id, user);
    OnTheLine(d, id, user);
  }

  lemma AlikeLineFreshen(w: World, d: World, user: UserId, now: int)
    requires AlikeLines(w, d, now)
    ensures AlikeLines(LineFreshened(w, user, now), LineFreshened(d, user, now), now)
  {
    LineFreshenKeepsLines(w, user, now);
    LineFreshenKeepsLines(d, user, now);
    if LineOf(w, user).Some? {
      var id := LineOf(w, user).value;
      assert id in d.calls.Keys;
      var c, e := w.calls[id], d.calls[id];
      FreshenOneCall(w, id, now);
      AlikeSettled(c, e, now);
      AlikeCallsUpdate(w.calls, d.calls, now, id, Settled(c, now), Settled(e, now));
      if LineOf(d, user).Some? {
        LineOnTheLeft(w, d, user, now);
        FreshenOneCall(d, id, now);
      } else {
        SweptLine(w, d, user, now);
        assert d.calls[id := e] == d.calls;
      }
    } else if LineOf(d, user).Some? {
      LineOnTheLeft(w, d, user, now);
    }
  }

  lemma AlikeBothFreshened(w: World, d: World, r: Request, now: int)
    requires AlikeLines(w, d, now)
    ensures var v, e := BothFreshened(w, r, now), BothFreshened(d, r, now);
            && AlikeLines(v, e, now) && v.clock == now && e.clock == now && v.calls.Keys == w.calls.Keys
            && Current(v, r.caller, now) && Current(v, r.callee, now)
  {
    var v, e := LineFreshened(w, r.caller, now), LineFreshened(d, r.caller, now);
    AlikeLineFreshen(w, d, r.caller, now);
    AlikeLineFreshen(v, e, r.callee, now);
    LineFreshenKeepsLines(w, r.caller, now);
    LineFreshenKeepsLines(v, r.callee, now);
    LineFreshenKeepsLines(e, r.callee, now);
    FreshenedLineIsCurrent(w, r.caller, r.caller, now);
    FreshenedLineIsCurrent(v, r.callee, r.caller, now);
  }

  lemma FreeWhenNoLines(w: World, r: Request)
    requires LinesSound(w) && LineOf(w, r.caller).None? && LineOf(w, r.callee).None?
    ensures LinesFree(w, r)
  {
    TheLine(w, r.caller);
    TheLine(w, r.callee);
    forall p | p in w.participants ensures p.user != r.caller && p.user != r.callee {
      assert p == Participant(p.call, p.user);
    }
  }

  /** The record a request creates depends only on the clock and on whether the callee's line is taken. */
  lemma SameCreation(w: World, d: World, r: Request)
    requires LinesSound(w) && LinesSound(d) && w.clock == d.clock
    requires LineOf(w, r.caller).None? && LineOf(d, r.caller).None? && LineOf(w, r.callee) == LineOf(d, r.callee)
    ensures var c := Created(w, r).calls; r.newId in c && c == w.calls[r.newId := c[r.newId]]
    ensures var c := Created(d, r).calls; r.newId in c && c == d.calls[r.newId := c[r.newId]]
    ensures Created(w, r).calls[r.newId] == Created(d, r).calls[r.newId]
  {
    if LineOf(w, r.callee).None? { FreeWhenNoLines(w, r); FreeWhenNoLines(d, r); }
  }

  lemma SameMeeting(c: Call, d: Call, now: int)
    requires Same(c, d) && c.state.Ringing?
    ensures Same(Applied(c, Accepted, None, None, now), Applied(d, Accepted, None, None, now))
  {
  }

  lemma AlikeStart(w: World, d: World, r: Request, now: int)
    requires AlikeLines(w, d, now) && r.gate.None?
    ensures AlikeCalls(AfterStart(w, r, now).calls, AfterStart(d, r, now).calls, now)
    ensures AlikeReplies(Some(ReplyToStart(w, r, now)), Some(ReplyToStart(d, r, now)))
  {
    AlikeBothFreshened(w, d, r, now);
    var v, e := BothFreshened(w, r, now), BothFreshened(d, r, now);
    SameLine(v, e, r.caller, now);
    SameLine(v, e, r.callee, now);
    if LineOf(v, r.caller).None? {
      SameCreation(v, e, r);
      var c := Created(v, r).calls[r.newId];
      assert Alike(c, c, now);
      AlikeCallsUpdate(v.calls, e.calls, now, r.newId, c, c);
    } else {
      AlikeMeeting(v, e, r, LineOf(v, r.caller).value, now);
    }
  }

  lemma AlikeMeeting(v: World, e: World, r: Request, id: CallId, now: int)
    requires AlikeCalls(v.calls, e.calls, now) && id in v.calls && id in e.calls && Same(v.calls[id], e.calls[id])
    ensures IsCounterCall(v.calls[id], r) == IsCounterCall(e.calls[id], r) && v.calls[id].state == e.calls[id].state
    ensures v.calls[id].state.Ringing? ==>
              var m, n := Transition(v, id, To(Accepted, None), None, now), Transition(e, id, To(Accepted, None), None, now);
              AlikeCalls(m.calls, n.calls, now) && Same(m.calls[id], n.calls[id])
  {
    if v.calls[id].state.Ringing? {
      var c, d := Applied(v.calls[id], Accepted, None, None, now), Applied(e.calls[id], Accepted, None, None, now);
      SameMeeting(v.calls[id], e.calls[id], now);
      AlikeCallsUpdate(v.calls, e.calls, now, id, c, d);
    }
  }

  // ----- One step, and whole runs -----

  lemma StartClock(w: World, r: Request, now: int)
    requires LinesSound(w)
    ensures AfterStart(w, r, now).clock == now
  {
    var one := LineFreshened(w, r.caller, now);
    LineFreshenKeepsLines(w, r.caller, now);
    LineFreshenKeepsLines(one, r.callee, now);
    var f := BothFreshened(w, r, now);
    assert f.clock == now && Created(f, r).clock == f.clock;
  }

  lemma ClockAfter(w: World, step: Step)
    requires Possible(w, step) && LinesSound(w)
    ensures Next(w, step).clock == step.now
  {
    match step
    case Acts(id, user, wish, now) => if id in w.calls { WishOnOneCall(w, id, user, wish, now); }
    case Starts(r, now) => StartClock(w, r, now);
    case Sweeps(claimed, now) => SweptClock(w, claimed, now);
    case _ =>
  }

  lemma SweptClock(w: World, claimed: seq<CallId>, now: int)
    ensures SweptCalls(w, claimed, now).clock == now
  {
  }

  lemma AlikeStep(w: World, d: World, step: Step)
    requires AlikeLines(w, d, step.now) && Blind(w, step) && !step.Signals?
    ensures AlikeCalls(Next(w, step).calls, Next(d, step).calls, step.now) && AlikeReplies(ReplyTo(w, step), ReplyTo(d, step))
  {
    match step
    case Acts(id, user, wish, now) => AlikeWish(w, d, id, user, wish, now);
    case Starts(request, now) => if request.gate.None? { AlikeStart(w, d, request, now); }
    case Undelivered(id, now) => AlikeAbort(w, d, id, now);
  }

  lemma AlikeTold(w: World, d: World, step: Step)
    requires AlikeLines(w, d, step.now) && AlikeSignals(w.signals, d.signals, step.now) && SignalsSound(w) && SignalsSound(d)
    requires Blind(w, step)
    ensures AlikeCalls(Next(w, step).calls, Next(d, step).calls, step.now)
    ensures AlikeSignals(Next(w, step).signals, Next(d, step).signals, step.now)
    ensures ToldAlike(ToldBy(w, step), ToldBy(d, step))
  {
    if step.Signals? {
      AlikeSignal(w, d, step.id, step.user, step.signalId, step.body, step.now);
    } else {
      AlikeStep(w, d, step);
      RowsOfSignals(w, step);
      RowsOfSignals(d, step);
    }
  }

  /** Related worlds tell the users the same in every blind step, and stay related. */
  lemma RelatedStep(w: World, d: World, step: Step)
    requires Related(w, d) && Possible(d, step) && Blind(w, step)
    ensures Possible(w, step)
    ensures Related(Next(w, step), Next(d, step)) && ToldAlike(ToldBy(w, step), ToldBy(d, step))
  {
    assert step.Starts? ==> step.request.newId !in w.calls.Keys;
    AlikeCallsLater(w.calls, d.calls, d.clock, step.now);
    AlikeTold(w, d, step);
    StepKeepsSound(w, step);
    StepKeepsSound(d, step);
    ClockAfter(w, step);
    ClockAfter(d, step);
  }

  lemma AlikePurge(a: map<SignalKey, Signal>, d: World, claimed: seq<CallId>, now: int)
    requires AlikeSignals(a, d.signals, now)
    ensures AlikeSignals(a, Swept(d, claimed, now).signals, now)
  {
    SweepKeepsSignals(d, claimed, now);
  }

  lemma RelatedSweep(w: World, d: World, claimed: seq<CallId>, now: int)
    requires Related(w, d) && d.clock <= now
    ensures Related(w, Swept(d, claimed, now))
  {
    AlikeCallsLater(w.calls, d.calls, d.clock, now);
    AlikeSweep(w.calls, d, claimed, now);
    AlikePurge(w.signals, d, claimed, now);
    StepKeepsSound(d, Sweeps(claimed, now));
  }

  lemma UnheardAlike(w: World, d: World, id: CallId, user: UserId, after: int, clock: int, now: int)
    requires AlikeSignals(w.signals, d.signals, clock) && clock <= now
    ensures Unheard(w, id, user, after, now) == Unheard(d, id, user, after, now)
  {
  }

  /** In related worlds a peer recovers the same signals: what was purged had expired. */
  lemma RelatedHearTheSame(w: World, d: World, id: CallId, user: UserId, after: int, now: int)
    requires Related(w, d) && d.clock <= now
    ensures ListSignals(w, id, user, after, now) == ListSignals(d, id, user, after, now)
  {
    assert id in w.calls <==> id in d.calls.Keys;
    if id in w.calls {
      AlikeParties(w.calls[id], d.calls[id], d.clock);
      UnheardAlike(w, d, id, user, if after > 0 then after else 0, d.clock, now);
    }
  }

  /** In related worlds a call that is not overdue holds the same lines and has posted the same summary. */
  lemma RelatedShowTheSame(w: World, d: World, id: CallId)
    requires Related(w, d) && id in w.calls && !Due(w, id, d.clock)
    ensures Same(w.calls[id], d.calls[id])
    ensures LinesOf(w, id) == LinesOf(d, id) && Entries(w, id) == Entries(d, id)
  {
    assert id in d.calls.Keys && Same(w.calls[id], d.calls[id]);
    assert w.calls[id].state.Ended? ==> SummaryOf(w.calls[id]) == SummaryOf(d.calls[id]);
    forall u ensures u in LinesOf(w, id) <==> u in LinesOf(d, id) {
      assert Participant(id, u) in w.participants <==> Participant(id, u) in d.participants;
      assert u in LinesOf(w, id) <==> Participant(id, u) in w.participants;
      assert u in LinesOf(d, id) <==> Participant(id, u) in d.participants;
    }
  }

  function Unswept(steps: seq<Step>): seq<Step> {
    if steps == [] then []
    else
      var before, last := Unswept(steps[..|steps| - 1]), steps[|steps| - 1];
      if last.Sweeps? then before else before + [last]
  }

  ghost predicate AllBlind(clock: int, steps: seq<Step>) {
    steps != [] ==> AllBlind(clock, steps[..|steps| - 1]) && Blind(Run(clock, steps[..|steps| - 1]), steps[|steps| - 1])
  }

  /** Everything the users were told, in order. */
  ghost function AllTold(clock: int, steps: seq<Step>): seq<Told> {
    if steps == [] then []
    else
      var before, last := steps[..|steps| - 1], steps[|steps| - 1];
      AllTold(clock, before) + (if last.Sweeps? then [] else [ToldBy(Run(clock, before), last)])
  }

  ghost predicate AllToldAlike(a: seq<Told>, b: seq<Told>) {
    |a| == |b| && forall k | 0 <= k < |a| :: ToldAlike(a[k], b[k])
  }

  /** Leaving out every sweep of a run changes nothing anybody is told, and the two runs end in related worlds. */
  lemma {:induction false} SweeperIsIrrelevant(clock: int, steps: seq<Step>)
    requires Legal(clock, steps) && AllBlind(clock, Unswept(steps))
    ensures Legal(clock, Unswept(steps))
    ensures Related(Run(clock, Unswept(steps)), Run(clock, steps))
    ensures AllToldAlike(AllTold(clock, Unswept(steps)), AllTold(clock, steps))
  {
    if steps == [] {
      assert Sound(Opening(clock));
    } else {
      var before, last := steps[..|steps| - 1], steps[|steps| - 1];
      var kept := Unswept(before);
      if last.Sweeps? {
        SweeperIsIrrelevant(clock, before);
        RelatedSweep(Run(clock, kept), Run(clock, before), last.claimed, last.now);
      } else {
        assert Unswept(steps)[..|Unswept(steps)| - 1] == kept;
        SweeperIsIrrelevant(clock, before);
        RelatedStep(Run(clock, kept), Run(clock, before), last);
      }
    }
  }

  // ----- The line drawn by Blind is exact -----

  /** No sweep just before the step can be told from the absence of one. */
  ghost predicate NeverShows(w: World, step: Step) {
    forall claimed, at | w.clock <= at <= step.now ::
      && ToldAlike(ToldBy(w, step), ToldBy(Swept(w, claimed, at), step))
      && Related(Next(w, step), Next(Swept(w, claimed, at), step))
  }

  lemma RelatedToItself(w: World)
    requires Sound(w)
    ensures Related(w, w)
  {
  }

  /** A sweep that ends the overdue call at the moment of the step shows in the reply, or in the reason recorded. */
  lemma EndingShows(w: World, step: Step)
    requires Sound(w) && Possible(w, step) && (step.Acts? || step.Undelivered?) && !Blind(w, step)
    ensures !NeverShows(w, step)
  {
    var id, now := step.id, step.now;
    var d := Swept(w, [id], now);
    var before := SweptCalls(w, [], now);
    assert [id][..0] == [];
    assert SweptCalls(w, [id], now) == Freshened(before, id, now);
    FreshenOneCall(before, id, now);
    assert d.calls[id] == Expired(w.calls[id], now);
    if step.Undelivered? {
      assert Next(d, step).calls[id].endReason == Some(Missed) && Next(w, step).calls[id].endReason == Some(Failed);
      assert !Alike(Next(w, step).calls[id], Next(d, step).calls[id], now);
      assert !Related(Next(w, step), Next(d, step));
    } else {
      assert w.calls[id].caller != w.calls[id].callee by { assert Coherent(w.calls[id], w.clock); }
      assert ReplyTo(w, step) == Some(Rejected(CallEnded)) && ReplyTo(d, step) == Some(Rejected(CallNotFound));
      assert !ToldAlike(ToldBy(w, step), ToldBy(d, step));
    }
  }

  /** A sweep that purges the expired row makes the repeat a new signal, under a new number. */
  lemma PurgeShows(w: World, id: CallId, user: UserId, signalId: Option<SignalId>, body: Body, now: int)
    requires Sound(w) && w.clock <= now && RepeatsExpired(w, id, user, signalId, now)
    ensures !NeverShows(w, Signals(id, user, signalId, body, now))
  {
    var step, d := Signals(id, user, signalId, body, now), Swept(w, [], now);
    var found := FoundSignal(w, id, user, signalId).value;
    assert SweptCalls(w, [], now) == Ticked(w, now);
    forall n ensures !HoldsSignal(d, id, user, signalId, n) {
      assert HoldsSignal(w, id, user, signalId, found);
      assert HoldsSignal(d, id, user, signalId, n) ==> HoldsSignal(w, id, user, signalId, n);
    }
    assert PublishedBy(w, step).value.seqNo == found <= w.calls[id].signalSeq;
    assert PublishedBy(d, step).value.seqNo == w.calls[id].signalSeq + 1;
    assert !ToldAlike(ToldBy(w, step), ToldBy(d, step));
  }

  /** The sweeper can be noticed by a step exactly when the step is one of the three kinds set apart. */
  lemma SweepShowsExactlyWhen(w: World, step: Step)
    requires Sound(w) && Possible(w, step) && !step.Sweeps?
    ensures NeverShows(w, step) <==> Blind(w, step)
  {
    if Blind(w, step) {
      forall claimed, at | w.clock <= at <= step.now
        ensures && ToldAlike(ToldBy(w, step), ToldBy(Swept(w, claimed, at), step))
                && Related(Next(w, step), Next(Swept(w, claimed, at), step))
      {
        RelatedToItself(w);
        RelatedSweep(w, w, claimed, at);
        SweepKeepsSound(w, claimed, at);
        assert step.Starts? ==> step.request.newId !in Swept(w, claimed, at).calls.Keys;
        RelatedStep(w, Swept(w, claimed, at), step);
      }
    } else if step.Signals? {
      PurgeShows(w, step.id, step.user, step.signalId, step.body, step.now);
    } else {
      EndingShows(w, step);
    }
  }
}
