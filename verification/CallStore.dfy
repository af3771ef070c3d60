/**
  The tables of calls as they are changed in place, row by row (`repositories/calls.py`), and the scenarios that change
  them (`services/calls.py`). Every scenario is proved to be the one atomic step that the rest of the model reasons about.
 */
module CallStore {
  import opened Wrappers
  import opened Calls
  import opened CallWorld

  class Tables {
    var calls: map<CallId, Call>
    var participants: set<Participant>
    var timeline: map<CallId, seq<Summary>>
    var signals: map<SignalKey, Signal>

    /** What a transaction at `now` sees. */
    function Seen(now: int): World
      reads this
    {
      World(calls, participants, timeline, signals, now)
    }

    constructor ()
      ensures forall now :: Seen(now) == World(map[], {}, map[], map[], now)
    {
      calls, participants, timeline, signals := map[], {}, map[], map[];
    }

    // ----- Rows -----

    /** The insert fails when one of the two lines is taken, here or by a transaction not yet visible. */
    method InsertLive(r: Request, now: int) returns (inserted: bool)
      requires r.newId !in calls
      modifies this`calls, this`participants
      ensures inserted == (!r.raced && old(LinesFree(Seen(now), r)))
      ensures Seen(now) == if inserted then old(Inserted(Seen(now), r)) else old(Seen(now))
    {
      inserted := !r.raced && (forall p | p in participants :: p.user != r.caller && p.user != r.callee);
      if inserted {
        calls := calls[r.newId := NewCall(r.conversation, r.caller, r.callee, r.kind, now)];
        participants := participants + {Participant(r.newId, r.caller), Participant(r.newId, r.callee)};
      }
    }

    method InsertEnded(r: Request, reason: EndReason, now: int)
      requires r.newId !in calls
      modifies this`calls
      ensures calls == old(calls)[r.newId := StillbornCall(r.conversation, r.caller, r.callee, r.kind, reason, now)]
    {
      calls := calls[r.newId := StillbornCall(r.conversation, r.caller, r.callee, r.kind, reason, now)];
    }

    method FetchLiveForUser(user: UserId, now: int) returns (id: Option<CallId>)
      requires LinesSound(Seen(now))
      ensures id == LineOf(Seen(now), user)
    {
      if p :| p in participants && p.user == user {
        id := Some(p.call);
        assert Participant(p.call, user) == p;
      } else {
        id := None;
      }
    }

    method Apply(id: CallId, state: CallState, reason: Option<EndReason>, acceptedBy: Option<Tab>, now: int)
      requires id in calls
      modifies this`calls, this`participants
      ensures calls == old(calls)[id := Applied(old(calls)[id], state, reason, acceptedBy, now)]
      ensures participants == if state.Ended? then set p | p in old(participants) && p.call != id else old(participants)
    {
      var row := calls[id];
      row := row.(state := state, endReason := reason, version := row.version + 1, lastKeepaliveAt := now);
      if state.Accepted? { row := row.(acceptedAt := Some(now), acceptedBy := acceptedBy); }
      if state.Active? { row := row.(activeAt := Some(now)); }
      if state.Ended? {
        row := row.(endedAt := Some(now));
        participants := set p | p in participants && p.call != id;
      }
      calls := calls[id := row];
    }

    method Touch(id: CallId, now: int)
      requires id in calls
      modifies this`calls
      ensures calls == old(calls)[id := old(calls)[id].(lastKeepaliveAt := now)]
    {
      calls := calls[id := calls[id].(lastKeepaliveAt := now)];
    }

    /** Notes the path of the connection: the first report, and later only a fall back to the relay. */
    method RecordConnection(id: CallId, reported: Option<Route>)
      requires id in calls
      modifies this`calls
      ensures calls == old(calls)[id := old(calls)[id].(route := RecordedRoute(old(calls)[id].route, reported))]
    {
      var row := calls[id];
      if reported.Some? {
        if row.route.None? {
          row := row.(route := reported);
        } else if row.route == Some(Direct) && reported == Some(Relay) {
          row := row.(route := Some(Relay));
        }
      }
      calls := calls[id := row];
    }

    method NextSignalSeq(id: CallId) returns (seqNo: nat)
      requires id in calls
      modifies this`calls
      ensures seqNo == old(calls)[id].signalSeq + 1
      ensures calls == old(calls)[id := old(calls)[id].(signalSeq := seqNo)]
    {
      seqNo := calls[id].signalSeq + 1;
      calls := calls[id := calls[id].(signalSeq := seqNo)];
    }

    method FindSignal(id: CallId, sender: UserId, signalId: Option<SignalId>, now: int) returns (seqNo: Option<nat>)
      requires SignalsSound(Seen(now))
      ensures seqNo == FoundSignal(Seen(now), id, sender, signalId)
    {
      seqNo := None;
      if signalId.Some? {
        if k :| k in signals && k.call == id && signals[k].sender == sender && signals[k].signalId == signalId {
          seqNo := Some(k.seqNo);
          assert HoldsSignal(Seen(now), id, sender, signalId, k.seqNo);
        } else {
          assert forall n :: SignalKey(id, n).call == id;
        }
      }
    }

    method PurgeSignals(now: int)
      modifies this`signals
      ensures Seen(now) == old(Purged(Seen(now), now))
    {
      signals := map k | k in signals && signals[k].expiresAt > now :: signals[k];
    }

    // ----- Building blocks of the scenarios -----

    /** The summary of an ended call is posted in the transaction that ended it. */
    method Summarize(id: CallId, now: int)
      requires id in calls
      modifies this`timeline
      ensures Seen(now) == old(WithSummary(Seen(now), id, calls[id]))
    {
      var call := calls[id];
      if call.endReason.Some? {
        var posted := if id in timeline then timeline[id] else [];
        timeline := timeline[id := posted + [Summary(call.caller, call.kind, call.endReason.value, DurationMs(call))]];
      }
    }

    method MoveCall(id: CallId, change: Change, acceptedBy: Option<Tab>, now: int)
      requires id in calls && change.To?
      modifies this`calls, this`participants, this`timeline
      ensures Seen(now) == old(Transition(Seen(now), id, change, acceptedBy, now))
    {
      Apply(id, change.state, change.reason, acceptedBy, now);
      if calls[id].state.Ended? { Summarize(id, now); }
    }

    method Fresh(id: CallId, now: int) returns (expired: bool)
      requires id in calls
      modifies this`calls, this`participants, this`timeline
      ensures expired == old(Due(Seen(now), id, now))
      ensures Seen(now) == old(Freshened(Seen(now), id, now))
    {
      var change := Expire(calls[id], now);
      expired := change.To?;
      if expired { MoveCall(id, change, None, now); }
    }

    /** Nothing is said about a call to those it does not concern. */
    method Open(id: CallId, user: UserId, now: int) returns (found: bool, expired: bool)
      modifies this`calls, this`participants, this`timeline
      ensures found == old(id in calls && calls[id].Involves(user))
      ensures expired == old(found && Due(Seen(now), id, now))
      ensures Seen(now) == if found then old(Freshened(Seen(now), id, now)) else old(Seen(now))
    {
      found, expired := id in calls && calls[id].Involves(user), false;
      if found { expired := Fresh(id, now); }
    }

    // ----- Scenarios -----

    method Accept(id: CallId, user: UserId, tab: Option<Tab>, now: int) returns (reply: Reply)
      modifies this`calls, this`participants, this`timeline
      ensures Seen(now) == old(AfterWish(Seen(now), id, user, Answer(tab), now))
      ensures reply == old(ReplyToWish(Seen(now), id, user, Answer(tab), now))
    {
      var found, expired := Open(id, user, now);
      if !found { return Rejected(CallNotFound); }
      if expired { return Rejected(CallEnded); }
      var change := Calls.Accept(calls[id], user, tab);
      match change {
        case Denied => reply := Rejected(CallNotFound);
        case Taken => reply := Rejected(CallTaken);
        case Gone => reply := Rejected(CallEnded);
        case Noop => reply := Ok(calls[id]);
        case To(_, _) =>
          MoveCall(id, change, tab, now);
          reply := Ok(calls[id]);
      }
    }

    /** Declining, hanging up and reporting a failure; the latter two are content with a call that has just expired. */
    method EndAction(id: CallId, user: UserId, wish: Wish, now: int) returns (reply: Reply)
      requires wish.TurnDown? || wish.HangUp? || wish.GiveUp?
      modifies this`calls, this`participants, this`timeline
      ensures Seen(now) == old(AfterWish(Seen(now), id, user, wish, now))
      ensures reply == old(ReplyToWish(Seen(now), id, user, wish, now))
    {
      var found, expired := Open(id, user, now);
      if !found { return Rejected(CallNotFound); }
      if expired {
        return if wish.TurnDown? then Rejected(CallEnded) else Ok(calls[id]);
      }
      var change := if wish.TurnDown? then Decline(calls[id], user)
                    else if wish.HangUp? then Hangup(calls[id], user)
                    else Fail(calls[id], user);
      match change {
        case Denied => reply := Rejected(CallNotFound);
        case Taken => reply := Rejected(CallTaken);
        case Gone => reply := Rejected(CallEnded);
        case Noop => reply := Ok(calls[id]);
        case To(_, _) =>
          MoveCall(id, change, None, now);
          reply := Ok(calls[id]);
      }
    }

    method ReportConnection(id: CallId, user: UserId, route: Option<Route>, now: int) returns (reply: Reply)
      modifies this`calls, this`participants, this`timeline
      ensures Seen(now) == old(AfterWish(Seen(now), id, user, ReportConnected(route), now))
      ensures reply == old(ReplyToWish(Seen(now), id, user, ReportConnected(route), now))
    {
      var found, expired := Open(id, user, now);
      if !found { return Rejected(CallNotFound); }
      if expired { return Rejected(CallEnded); }
      var change := Connected(calls[id], user);
      match change {
        case Denied => reply := Rejected(CallNotFound);
        case Taken => reply := Rejected(CallTaken);
        case Gone => reply := Rejected(CallEnded);
        case Noop =>
          reply := Ok(calls[id]);
          Touch(id, now);
          RecordConnection(id, route);
        case To(_, _) =>
          MoveCall(id, change, None, now);
          reply := Ok(calls[id]);
          RecordConnection(id, route);
      }
    }

    method StayOnTheLine(id: CallId, user: UserId, now: int) returns (reply: Reply)
      modifies this`calls, this`participants, this`timeline
      ensures Seen(now) == old(AfterWish(Seen(now), id, user, KeepAlive, now))
      ensures reply == old(ReplyToWish(Seen(now), id, user, KeepAlive, now))
    {
      var found, expired := Open(id, user, now);
      if !found { return Rejected(CallNotFound); }
      reply := Ok(calls[id]);
      if !calls[id].state.Ended? { Touch(id, now); }
    }

    method ExpireLive(user: UserId, now: int)
      requires LinesSound(Seen(now))
      modifies this`calls, this`participants, this`timeline
      ensures Seen(now) == old(LineFreshened(Seen(now), user, now))
      ensures LinesSound(Seen(now)) && calls.Keys == old(calls.Keys)
    {
      var id := FetchLiveForUser(user, now);
      LineFreshenKeepsLines(Seen(now), user, now);
      if id.Some? {
        var expired := Fresh(id.value, now);
      }
    }

    method RecordEnded(r: Request, reason: EndReason, now: int)
      requires r.newId !in calls
      modifies this`calls, this`timeline
      ensures Seen(now) == old(CallWorld.RecordedEnded(Seen(now), r, reason))
    {
      InsertEnded(r, reason, now);
      Summarize(r.newId, now);
    }

    method Create(r: Request, now: int)
      requires LinesSound(Seen(now)) && r.newId !in calls
      modifies this`calls, this`participants, this`timeline
      ensures Seen(now) == old(Created(Seen(now), r))
      ensures r.newId in calls
    {
      var theirs := FetchLiveForUser(r.callee, now);
      if theirs.Some? {
        RecordEnded(r, Busy, now);
      } else if !r.reachable {
        RecordEnded(r, Unavailable, now);
      } else {
        var inserted := InsertLive(r, now);
        if !inserted { RecordEnded(r, Busy, now); }
      }
    }

    /** Each called the other: the second request answers the first call, if that still rings. */
    method MeetCounterCall(id: CallId, now: int) returns (reply: Reply)
      requires id in calls
      modifies this`calls, this`participants
      ensures old(calls[id]).state.Ringing? ==>
                Seen(now) == old(Transition(Seen(now), id, To(Accepted, None), None, now)) && reply == Ok(calls[id])
      ensures !old(calls[id]).state.Ringing? ==> Seen(now) == old(Seen(now)) && reply == Rejected(AlreadyInCall)
    {
      if !calls[id].state.Ringing? { return Rejected(AlreadyInCall); }
      Apply(id, Accepted, None, None, now);
      reply := Ok(calls[id]);
    }

    method StartCall(r: Request, now: int) returns (reply: Reply)
      requires LinesSound(Seen(now)) && r.newId !in calls
      modifies this`calls, this`participants, this`timeline
      ensures Seen(now) == old(AfterStart(Seen(now), r, now))
      ensures reply == old(ReplyToStart(Seen(now), r, now))
    {
      if r.gate.Some? { return Rejected(r.gate.value); }
      ghost var before := Seen(now);
      ExpireLive(r.caller, now);
      ExpireLive(r.callee, now);
      assert Seen(now) == BothFreshened(before, r, now);
      assert r.newId !in calls.Keys;
      var mine := FetchLiveForUser(r.caller, now);
      if mine.None? {
        Create(r, now);
        reply := Ok(calls[r.newId]);
      } else if calls[mine.value].caller == r.callee && calls[mine.value].callee == r.caller &&
                calls[mine.value].conversation == r.conversation {
        reply := MeetCounterCall(mine.value, now);
      } else {
        reply := Rejected(AlreadyInCall);
      }
    }

    method AbortUndelivered(id: CallId, now: int)
      modifies this`calls, this`participants, this`timeline
      ensures Seen(now) == old(Aborted(Seen(now), id, now))
    {
      if id in calls && !calls[id].state.Ended? { MoveCall(id, End(Failed), None, now); }
    }

    method SendSignal(id: CallId, user: UserId, signalId: Option<SignalId>, body: Body, now: int)
      returns (reply: Reply, publication: Option<Publication>)
      requires SignalsSound(Seen(now))
      modifies this
      ensures Seen(now) == old(AfterSignal(Seen(now), id, user, signalId, body, now))
      ensures reply == old(ReplyToSignal(Seen(now), id, user, now))
      ensures publication == old(PublishedSignal(Seen(now), id, user, signalId, body, now))
    {
      publication := None;
      var found, expired := Open(id, user, now);
      if !found { return Rejected(CallNotFound), None; }
      if expired || calls[id].state.Ended? { return Rejected(CallEnded), None; }
      if calls[id].state.Ringing? { return Rejected(CallNotReady), None; }
      reply := Ok(calls[id]);
      var stored := FindSignal(id, user, signalId, now);
      if stored.Some? {
        publication := Some(Publication(stored.value, signals[SignalKey(id, stored.value)].body));
      } else {
        var seqNo := NextSignalSeq(id);
        signals := signals[SignalKey(id, seqNo) := Signal(user, signalId, body, now + SIGNAL_TTL_SECONDS * SECOND)];
        publication := Some(Publication(seqNo, body));
      }
    }

    /** Ends whatever of the claimed calls is overdue, then forgets the signals nobody can need. */
    method Sweep(claimed: seq<CallId>, now: int)
      modifies this
      ensures Seen(now) == old(Swept(Seen(now), claimed, now))
    {
      var k := 0;
      while k < |claimed|
        invariant 0 <= k <= |claimed|
        invariant Seen(now) == old(SweptCalls(Seen(now), claimed[..k], now))
      {
        assert claimed[..k + 1][..k] == claimed[..k];
        var id := claimed[k];
        if id in calls {
          var change := Expire(calls[id], now);
          if change.To? { MoveCall(id, change, None, now); }
        }
        k := k + 1;
      }
      assert claimed[..k] == claimed;
      PurgeSignals(now);
    }
  }
}
