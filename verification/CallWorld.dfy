/**
  The tables behind calls and the transactions that change them (`services/calls.py`, `repositories/calls.py`),
  each as one atomic step with one clock value.
 */
module CallWorld {
  import opened Wrappers
  import opened Calls

  type SignalId = nat
  type Body = nat

  const SIGNAL_TTL_SECONDS := 60

  /** A row of `call_participants`: the user's line is taken by the call. */
  datatype Participant = Participant(call: CallId, user: UserId)

  datatype Summary = Summary(sender: UserId, kind: Kind, reason: EndReason, durationMs: Option<int>)

  datatype SignalKey = SignalKey(call: CallId, seqNo: nat)

  datatype Signal = Signal(sender: UserId, signalId: Option<SignalId>, body: Body, expiresAt: int)

  /** `timeline` holds the summaries posted for each call. */
  datatype World = World(
    calls: map<CallId, Call>,
    participants: set<Participant>,
    timeline: map<CallId, seq<Summary>>,
    signals: map<SignalKey, Signal>,
    clock: int)

  datatype Rejection =
    | CallNotFound | CallTaken | CallEnded | CallNotReady | AlreadyInCall
    | ConversationNotFound | NotAMember | Blocked

  datatype Reply = Ok(call: Call) | Rejected(reason: Rejection)

  // ----- Building blocks -----

  function SummaryOf(call: Call): Summary
    requires call.endReason.Some?
  {
    Summary(call.caller, call.kind, call.endReason.value, DurationMs(call))
  }

  function Entries(w: World, id: CallId): seq<Summary> {
    if id in w.timeline then w.timeline[id] else []
  }

  function Ticked(w: World, now: int): World { w.(clock := now) }

  function WithSummary(w: World, id: CallId, call: Call): World {
    if call.endReason.None? then w else w.(timeline := w.timeline[id := Entries(w, id) + [SummaryOf(call)]])
  }

  /** Writes a transition; an ended call frees its lines and posts its summary in the same transaction. */
  function Transition(w: World, id: CallId, change: Change, tab: Option<Tab>, now: int): World
    requires id in w.calls && change.To?
  {
    var updated := Applied(w.calls[id], change.state, change.reason, tab, now);
    var moved := w.(calls := w.calls[id := updated], clock := now);
    if !updated.state.Ended? then moved
    else WithSummary(moved.(participants := set p | p in w.participants && p.call != id), id, updated)
  }

  predicate Due(w: World, id: CallId, now: int)
    requires id in w.calls
  {
    Expire(w.calls[id], now).To?
  }

  /** Lazy expiry: an overdue call is ended here and now. */
  function Freshened(w: World, id: CallId, now: int): World
    requires id in w.calls
  {
    if Due(w, id, now) then Transition(w, id, Expire(w.calls[id], now), None, now) else Ticked(w, now)
  }

  // ----- Acting on a call -----

  datatype Wish = Answer(tab: Option<Tab>) | TurnDown | HangUp | GiveUp | ReportConnected(route: Option<Route>) | KeepAlive

  function ChangeFor(call: Call, user: UserId, wish: Wish): Change {
    match wish
    case Answer(tab) => Accept(call, user, tab)
    case TurnDown => Decline(call, user)
    case HangUp => Hangup(call, user)
    case GiveUp => Fail(call, user)
    case ReportConnected(_) => Connected(call, user)
    case KeepAlive => Noop
  }

  /** Idempotent wishes are answered with the outcome of a call that had just expired. */
  predicate AnsweredAfterExpiry(wish: Wish) {
    wish.HangUp? || wish.GiveUp? || wish.KeepAlive?
  }

  /** What a wish that changes no state still writes. */
  function Touched(call: Call, wish: Wish, now: int): Call {
    match wish
    case KeepAlive => if call.state.Ended? then call else call.(lastKeepaliveAt := now)
    case ReportConnected(route) => call.(lastKeepaliveAt := now, route := RecordedRoute(call.route, route))
    case _ => call
  }

  function Routed(call: Call, wish: Wish): Call {
    if wish.ReportConnected? then call.(route := RecordedRoute(call.route, wish.route)) else call
  }

  function TabOf(wish: Wish): Option<Tab> { if wish.Answer? then wish.tab else None }

  function AfterWish(w: World, id: CallId, user: UserId, wish: Wish, now: int): World {
    if id !in w.calls || !w.calls[id].Involves(user) then Ticked(w, now)
    else if Due(w, id, now) then Freshened(w, id, now)
    else
      var change := ChangeFor(w.calls[id], user, wish);
      match change
      case Noop => Ticked(w, now).(calls := w.calls[id := Touched(w.calls[id], wish, now)])
      case To(_, _) =>
        var moved := Transition(w, id, change, TabOf(wish), now);
        moved.(calls := moved.calls[id := Routed(moved.calls[id], wish)])
      case _ => Ticked(w, now)
  }

  function ReplyToWish(w: World, id: CallId, user: UserId, wish: Wish, now: int): Reply {
    if id !in w.calls || !w.calls[id].Involves(user) then Rejected(CallNotFound)
    else if Due(w, id, now) then
      if AnsweredAfterExpiry(wish) then Ok(Freshened(w, id, now).calls[id]) else Rejected(CallEnded)
    else
      var change := ChangeFor(w.calls[id], user, wish);
      match change
      case Denied => Rejected(CallNotFound)
      case Taken => Rejected(CallTaken)
      case Gone => Rejected(CallEnded)
      case Noop => Ok(w.calls[id])
      case To(_, _) => Ok(Transition(w, id, change, TabOf(wish), now).calls[id])
  }

  // ----- Starting a call -----

  /** The call that holds the user's line. */
  ghost function LineOf(w: World, user: UserId): (id: Option<CallId>)
    ensures id.Some? ==> id.value in w.calls && Participant(id.value, user) in w.participants
    ensures id.None? ==> forall other | other in w.calls :: Participant(other, user) !in w.participants
  {
    if exists id :: id in w.calls && Participant(id, user) in w.participants then
      var id :| id in w.calls && Participant(id, user) in w.participants; Some(id)
    else None
  }

  ghost function LineFreshened(w: World, user: UserId, now: int): World {
    if LineOf(w, user).Some? then Freshened(w, LineOf(w, user).value, now) else Ticked(w, now)
  }

  function NewCall(conversation: ConversationId, caller: UserId, callee: UserId, kind: Kind, now: int): Call {
    Call(conversation, caller, callee, kind, Ringing, 1, 0, None, now, None, None, None, now, None, None)
  }

  function StillbornCall(conversation: ConversationId, caller: UserId, callee: UserId, kind: Kind, reason: EndReason, now: int): Call {
    NewCall(conversation, caller, callee, kind, now).(state := Ended, endReason := Some(reason), endedAt := Some(now))
  }

  /**
    A request to call somebody. `gate` is the refusal by the conversation, its membership or a block;
    `raced` says that between check and insert another transaction took one of the two lines.
   */
  datatype Request = Request(caller: UserId, callee: UserId, conversation: ConversationId, kind: Kind, newId: CallId,
                             gate: Option<Rejection>, reachable: bool, raced: bool)

  predicate LinesFree(w: World, r: Request) {
    forall p | p in w.participants :: p.user != r.caller && p.user != r.callee
  }

  function Inserted(w: World, r: Request): World {
    w.(calls := w.calls[r.newId := NewCall(r.conversation, r.caller, r.callee, r.kind, w.clock)],
       participants := w.participants + {Participant(r.newId, r.caller), Participant(r.newId, r.callee)})
  }

  function RecordedEnded(w: World, r: Request, reason: EndReason): World {
    var call := StillbornCall(r.conversation, r.caller, r.callee, r.kind, reason, w.clock);
    WithSummary(w.(calls := w.calls[r.newId := call]), r.newId, call)
  }

  ghost function Created(w: World, r: Request): World {
    if LineOf(w, r.callee).Some? then RecordedEnded(w, r, Busy)
    else if !r.reachable then RecordedEnded(w, r, Unavailable)
    else if r.raced || !LinesFree(w, r) then RecordedEnded(w, r, Busy)
    else Inserted(w, r)
  }

  /** The other party is already calling me in this conversation. */
  predicate IsCounterCall(call: Call, r: Request) {
    call.caller == r.callee && call.callee == r.caller && call.conversation == r.conversation
  }

  ghost function BothFreshened(w: World, r: Request, now: int): World {
    LineFreshened(LineFreshened(w, r.caller, now), r.callee, now)
  }

  ghost function AfterStart(w: World, r: Request, now: int): World {
    if r.gate.Some? then Ticked(w, now)
    else
      var f := BothFreshened(w, r, now);
      var mine := LineOf(f, r.caller);
      if mine.None? then Created(f, r)
      else if IsCounterCall(f.calls[mine.value], r) && f.calls[mine.value].state.Ringing? then
        Transition(f, mine.value, To(Accepted, None), None, now)
      else f
  }

  ghost function ReplyToStart(w: World, r: Request, now: int): Reply {
    if r.gate.Some? then Rejected(r.gate.value)
    else
      var f := BothFreshened(w, r, now);
      var mine := LineOf(f, r.caller);
      if mine.None? then Ok(Created(f, r).calls[r.newId])
      else if IsCounterCall(f.calls[mine.value], r) && f.calls[mine.value].state.Ringing? then
        Ok(AfterStart(w, r, now).calls[mine.value])
      else Rejected(AlreadyInCall)
  }

  /** The incoming call could not be announced: it is closed again, unless it has ended meanwhile. */
  function Aborted(w: World, id: CallId, now: int): World {
    if id in w.calls && !w.calls[id].state.Ended? then Transition(w, id, End(Failed), None, now) else Ticked(w, now)
  }

  // ----- Sweeping -----

  function SweptCalls(w: World, claimed: seq<CallId>, now: int): World {
    if claimed == [] then Ticked(w, now)
    else
      var before, id := SweptCalls(w, claimed[..|claimed| - 1], now), claimed[|claimed| - 1];
      if id in before.calls then Freshened(before, id, now) else before
  }

  function Purged(w: World, now: int): World {
    w.(signals := map k | k in w.signals && w.signals[k].expiresAt > now :: w.signals[k])
  }

  function Swept(w: World, claimed: seq<CallId>, now: int): World {
    Purged(SweptCalls(w, claimed, now), now)
  }

  // ----- Signals -----

  ghost predicate HoldsSignal(w: World, id: CallId, sender: UserId, signalId: Option<SignalId>, seqNo: nat) {
    && SignalKey(id, seqNo) in w.signals
    && w.signals[SignalKey(id, seqNo)].sender == sender && w.signals[SignalKey(id, seqNo)].signalId == signalId
  }

  /** The number already stored for a repeated signal; an unnamed signal is never a repeat. */
  ghost function FoundSignal(w: World, id: CallId, sender: UserId, signalId: Option<SignalId>): (seqNo: Option<nat>)
    ensures seqNo.Some? ==> signalId.Some? && HoldsSignal(w, id, sender, signalId, seqNo.value)
    ensures seqNo.None? && signalId.Some? ==> forall n :: !HoldsSignal(w, id, sender, signalId, n)
  {
    if signalId.Some? && exists n :: HoldsSignal(w, id, sender, signalId, n) then
      var n :| HoldsSignal(w, id, sender, signalId, n); Some(n)
    else None
  }

  datatype Publication = Publication(seqNo: nat, body: Body)

  predicate Talking(w: World, id: CallId, user: UserId, now: int) {
    id in w.calls && w.calls[id].Involves(user) && !Due(w, id, now) && (w.calls[id].state.Accepted? || w.calls[id].state.Active?)
  }

  ghost function AfterSignal(w: World, id: CallId, user: UserId, signalId: Option<SignalId>, body: Body, now: int): World {
    if id !in w.calls || !w.calls[id].Involves(user) then Ticked(w, now)
    else if Due(w, id, now) then Freshened(w, id, now)
    else if !Talking(w, id, user, now) || FoundSignal(w, id, user, signalId).Some? then Ticked(w, now)
    else
      var call := w.calls[id];
      var seqNo := call.signalSeq + 1;
      w.(clock := now, calls := w.calls[id := call.(signalSeq := seqNo)],
         signals := w.signals[SignalKey(id, seqNo) := Signal(user, signalId, body, now + SIGNAL_TTL_SECONDS * SECOND)])
  }

  /** What goes to the peer after the commit; a repeat publishes what was stored the first time. */
  ghost function PublishedSignal(w: World, id: CallId, user: UserId, signalId: Option<SignalId>, body: Body, now: int): Option<Publication> {
    if !Talking(w, id, user, now) then None
    else
      var found := FoundSignal(w, id, user, signalId);
      if found.Some? then Some(Publication(found.value, w.signals[SignalKey(id, found.value)].body))
      else Some(Publication(w.calls[id].signalSeq + 1, body))
  }

  ghost function ReplyToSignal(w: World, id: CallId, user: UserId, now: int): Reply {
    if id !in w.calls || !w.calls[id].Involves(user) then Rejected(CallNotFound)
    else if Due(w, id, now) || w.calls[id].state.Ended? then Rejected(CallEnded)
    else if w.calls[id].state.Ringing? then Rejected(CallNotReady)
    else Ok(w.calls[id])
  }

  // ----- Soundness of the tables -----

  ghost predicate CallsSound(w: World) {
    forall id | id in w.calls :: Coherent(w.calls[id], w.clock)
  }

  /** The lines taken are exactly those of the two parties of live calls, and nobody has two. */
  ghost predicate LinesSound(w: World) {
    && (forall p :: p in w.participants <==> p.call in w.calls && !w.calls[p.call].state.Ended? && w.calls[p.call].Involves(p.user))
    && (forall p, q | p in w.participants && q in w.participants && p.user == q.user :: p == q)
  }

  /** Every ended call has its one summary, no live call has any. */
  ghost predicate TimelineSound(w: World) {
    && (forall id | id in w.calls :: w.calls[id].state.Ended? ==> w.calls[id].endReason.Some? && Entries(w, id) == [SummaryOf(w.calls[id])])
    && (forall id | id !in w.calls || !w.calls[id].state.Ended? :: Entries(w, id) == [])
  }

  /** Signals belong to calls that were accepted, come from their parties, and are numbered by the call. */
  ghost predicate SignalsSound(w: World) {
    && (forall k | k in w.signals ::
          && k.call in w.calls && w.calls[k.call].acceptedAt.Some? && w.calls[k.call].Involves(w.signals[k].sender)
          && 1 <= k.seqNo <= w.calls[k.call].signalSeq)
    && forall id, sender, signalId: Option<SignalId>, m, n | signalId.Some? && HoldsSignal(w, id, sender, signalId, m) && HoldsSignal(w, id, sender, signalId, n) :: m == n
  }

  ghost predicate Sound(w: World) {
    CallsSound(w) && LinesSound(w) && TimelineSound(w) && SignalsSound(w)
  }

  lemma TickKeepsSound(w: World, now: int)
    requires Sound(w) && w.clock <= now
    ensures Sound(Ticked(w, now))
  {
    forall id | id in w.calls ensures Coherent(w.calls[id], now) { CoherentLater(w.calls[id], w.clock, now); }
    assert forall id :: Entries(Ticked(w, now), id) == Entries(w, id);
    assert forall id, s, i: Option<SignalId>, n :: HoldsSignal(Ticked(w, now), id, s, i, n) == HoldsSignal(w, id, s, i, n);
  }

  lemma SignalsUntouched(w: World, d: World)
    requires SignalsSound(w) && d.signals == w.signals
    requires forall id | id in w.calls ::
               && id in d.calls && d.calls[id].signalSeq >= w.calls[id].signalSeq
               && (w.calls[id].acceptedAt.Some? ==> d.calls[id].acceptedAt.Some?)
               && d.calls[id].caller == w.calls[id].caller && d.calls[id].callee == w.calls[id].callee
    ensures SignalsSound(d)
  {
    assert forall id, s, i: Option<SignalId>, n :: HoldsSignal(d, id, s, i, n) == HoldsSignal(w, id, s, i, n);
  }

  lemma LinesAfterTransition(w: World, id: CallId, change: Change, tab: Option<Tab>, now: int)
    requires LinesSound(w) && id in w.calls && change.To? && !w.calls[id].state.Ended?
    ensures LinesSound(Transition(w, id, change, tab, now))
  {
  }

  lemma LineFreshenKeepsLines(w: World, user: UserId, now: int)
    requires LinesSound(w)
    ensures var f := LineFreshened(w, user, now);
            LinesSound(f) && f.clock == now && f.calls.Keys == w.calls.Keys && f.participants <= w.participants
  {
    if LineOf(w, user).Some? {
      var id := LineOf(w, user).value;
      if Due(w, id, now) { LinesAfterTransition(w, id, Expire(w.calls[id], now), None, now); }
    }
  }

  lemma TimelineAfterTransition(w: World, id: CallId, change: Change, tab: Option<Tab>, now: int)
    requires TimelineSound(w) && id in w.calls && change.To? && !w.calls[id].state.Ended?
    requires change.state.Ended? ==> change.reason.Some?
    ensures TimelineSound(Transition(w, id, change, tab, now))
  {
    var d := Transition(w, id, change, tab, now);
    assert Entries(w, id) == [];
    forall other | other != id ensures Entries(d, other) == Entries(w, other) {}
    if change.state.Ended? {
      assert Entries(d, id) == [] + [SummaryOf(d.calls[id])];
    }
  }

  lemma TransitionKeepsSound(w: World, id: CallId, change: Change, tab: Option<Tab>, now: int)
    requires Sound(w) && id in w.calls && change.To? && Lawful(w.calls[id].state, change) && w.clock <= now
    ensures Sound(Transition(w, id, change, tab, now))
  {
    CallsAfterTransition(w, id, change, tab, now);
    LinesAfterTransition(w, id, change, tab, now);
    TimelineAfterTransition(w, id, change, tab, now);
    SignalsUntouched(w, Transition(w, id, change, tab, now));
  }

  lemma CallsAfterTransition(w: World, id: CallId, change: Change, tab: Option<Tab>, now: int)
    requires CallsSound(w) && id in w.calls && change.To? && Lawful(w.calls[id].state, change) && w.clock <= now
    ensures CallsSound(Transition(w, id, change, tab, now))
  {
    var d := Transition(w, id, change, tab, now);
    LawfulMoveKeepsCoherent(w.calls[id], change, tab, w.clock, now);
    forall other | other in d.calls ensures Coherent(d.calls[other], now) {
      if other != id { CoherentLater(w.calls[other], w.clock, now); }
    }
  }

  lemma FreshenKeepsSound(w: World, id: CallId, now: int)
    requires Sound(w) && id in w.calls && w.clock <= now
    ensures Sound(Freshened(w, id, now)) && Freshened(w, id, now).clock == now
  {
    EveryChangeIsLawful(w.calls[id], 0, None, now);
    if Due(w, id, now) { TransitionKeepsSound(w, id, Expire(w.calls[id], now), None, now); } else { TickKeepsSound(w, now); }
  }

  /** Rewriting bookkeeping fields of a live call, its keepalive, route or signal counter, disturbs nothing. */
  lemma RewriteKeepsSound(w: World, id: CallId, call: Call)
    requires Sound(w) && id in w.calls
    requires call == w.calls[id].(lastKeepaliveAt := call.lastKeepaliveAt, route := call.route, signalSeq := call.signalSeq)
    requires w.calls[id].signalSeq <= call.signalSeq && w.calls[id].lastKeepaliveAt <= call.lastKeepaliveAt <= w.clock
    ensures Sound(w.(calls := w.calls[id := call]))
  {
    var d := w.(calls := w.calls[id := call]);
    assert CallsSound(d);
    RewriteKeepsTimeline(w, id, call);
    SignalsUntouched(w, d);
  }

  lemma RewriteKeepsTimeline(w: World, id: CallId, call: Call)
    requires TimelineSound(w) && id in w.calls
    requires call == w.calls[id].(lastKeepaliveAt := call.lastKeepaliveAt, route := call.route, signalSeq := call.signalSeq)
    ensures TimelineSound(w.(calls := w.calls[id := call]))
  {
    assert forall other :: Entries(w.(calls := w.calls[id := call]), other) == Entries(w, other);
    assert call.state.Ended? ==> DurationMs(call) == DurationMs(w.calls[id]);
  }

  /** A wish that moves the call moves it, and then records the route. */
  lemma MoveKeepsSound(w: World, id: CallId, change: Change, wish: Wish, now: int)
    requires Sound(w) && id in w.calls && change.To? && Lawful(w.calls[id].state, change) && w.clock <= now
    ensures var moved := Transition(w, id, change, TabOf(wish), now);
            Sound(moved.(calls := moved.calls[id := Routed(moved.calls[id], wish)]))
  {
    TransitionKeepsSound(w, id, change, TabOf(wish), now);
    var moved := Transition(w, id, change, TabOf(wish), now);
    RewriteKeepsSound(moved, id, Routed(moved.calls[id], wish));
  }

  lemma TouchKeepsSound(w: World, id: CallId, wish: Wish, now: int)
    requires Sound(w) && id in w.calls && w.clock <= now
    ensures Sound(Ticked(w, now).(calls := w.calls[id := Touched(w.calls[id], wish, now)]))
  {
    TickKeepsSound(w, now);
    assert Coherent(w.calls[id], w.clock);
    RewriteKeepsSound(Ticked(w, now), id, Touched(w.calls[id], wish, now));
  }

  lemma ChangeForIsLawful(call: Call, user: UserId, wish: Wish)
    ensures Lawful(call.state, ChangeFor(call, user, wish))
  {
  }

  /**
    Who ended a call, and when, shows in the reason: only the callee accepts or declines, only the caller cancels the
    ringing, hanging up completes exactly a conversation that took place, only a report of failure fails a call.
   */
  lemma ReasonsTellWho(call: Call, user: UserId, wish: Wish)
    requires call.caller != call.callee
    ensures var change := ChangeFor(call, user, wish);
            && (change.To? ==> call.Involves(user))
            && (change.To? && change.state.Accepted? ==> user == call.callee)
            && (change.To? && change.reason == Some(Declined) ==> user == call.callee)
            && (change.To? && change.reason == Some(Cancelled) && call.state.Ringing? ==> user == call.caller)
            && (change.To? && change.reason == Some(Completed) <==> wish.HangUp? && call.Involves(user) && call.state.Active?)
            && (change.To? && change.reason == Some(Failed) ==> wish.GiveUp?)
            && (change.To? ==> change.reason != Some(Missed))
            && (wish.HangUp? && call.Involves(user) && !call.state.Ended? ==> change.To? && change.state.Ended?)
            && (wish.TurnDown? && user == call.callee && call.state.Ringing? ==> change == To(Ended, Some(Declined)))
            && (wish.GiveUp? && call.Involves(user) && (call.state.Accepted? || call.state.Active?)
                ==> change == To(Ended, Some(Failed)))
            && (wish.ReportConnected? && call.Involves(user) && call.state.Accepted? ==> change == To(Active, None))
            && (wish.Answer? && user == call.callee && call.state.Ringing? ==> change == To(Accepted, None))
            && (!call.Involves(user) && !wish.KeepAlive? ==> change.Denied?)
  {
  }

  lemma WishKeepsSound(w: World, id: CallId, user: UserId, wish: Wish, now: int)
    requires Sound(w) && w.clock <= now
    ensures Sound(AfterWish(w, id, user, wish, now))
  {
    if id !in w.calls || !w.calls[id].Involves(user) {
      TickKeepsSound(w, now);
    } else if Due(w, id, now) {
      FreshenKeepsSound(w, id, now);
    } else {
      var change := ChangeFor(w.calls[id], user, wish);
      if change.Noop? {
        TouchKeepsSound(w, id, wish, now);
      } else if change.To? {
        ChangeForIsLawful(w.calls[id], user, wish);
        MoveKeepsSound(w, id, change, wish, now);
      } else {
        TickKeepsSound(w, now);
      }
    }
  }

  lemma RecordEndedKeepsSound(w: World, r: Request, reason: EndReason)
    requires Sound(w) && r.newId !in w.calls && r.caller != r.callee && (reason == Busy || reason == Unavailable)
    ensures Sound(RecordedEnded(w, r, reason))
  {
    var d := RecordedEnded(w, r, reason);
    assert Entries(w, r.newId) == [];
    assert Entries(d, r.newId) == [] + [SummaryOf(d.calls[r.newId])];
    forall other | other != r.newId ensures Entries(d, other) == Entries(w, other) {}
    SignalsUntouched(w, d);
  }

  lemma InsertKeepsSound(w: World, r: Request)
    requires Sound(w) && r.newId !in w.calls && r.caller != r.callee && LinesFree(w, r)
    ensures Sound(Inserted(w, r))
  {
    assert forall other :: Entries(Inserted(w, r), other) == Entries(w, other);
    SignalsUntouched(w, Inserted(w, r));
  }

  lemma LineFreshenKeepsSound(w: World, user: UserId, now: int)
    requires Sound(w) && w.clock <= now
    ensures Sound(LineFreshened(w, user, now)) && LineFreshened(w, user, now).clock == now
    ensures LineFreshened(w, user, now).calls.Keys == w.calls.Keys
  {
    TickKeepsSound(w, now);
    if LineOf(w, user).Some? { FreshenKeepsSound(w, LineOf(w, user).value, now); }
  }

  lemma CreateKeepsSound(w: World, r: Request)
    requires Sound(w) && r.newId !in w.calls && r.caller != r.callee
    ensures Sound(Created(w, r))
  {
    if LineOf(w, r.callee).Some? || (r.reachable && (r.raced || !LinesFree(w, r))) {
      RecordEndedKeepsSound(w, r, Busy);
    } else if !r.reachable {
      RecordEndedKeepsSound(w, r, Unavailable);
    } else {
      InsertKeepsSound(w, r);
    }
  }

  lemma BothFreshenKeepsSound(w: World, r: Request, now: int)
    requires Sound(w) && w.clock <= now
    ensures Sound(BothFreshened(w, r, now)) && BothFreshened(w, r, now).clock == now
    ensures BothFreshened(w, r, now).calls.Keys == w.calls.Keys
  {
    LineFreshenKeepsSound(w, r.caller, now);
    LineFreshenKeepsSound(LineFreshened(w, r.caller, now), r.callee, now);
  }

  lemma StartKeepsSound(w: World, r: Request, now: int)
    requires Sound(w) && w.clock <= now && r.newId !in w.calls && r.caller != r.callee
    ensures Sound(AfterStart(w, r, now))
  {
    TickKeepsSound(w, now);
    BothFreshenKeepsSound(w, r, now);
    var f := BothFreshened(w, r, now);
    var mine := LineOf(f, r.caller);
    if mine.None? {
      assert r.newId !in f.calls.Keys;
      CreateKeepsSound(f, r);
    } else if f.calls[mine.value].state.Ringing? {
      TransitionKeepsSound(f, mine.value, To(Accepted, None), None, now);
    }
  }

  lemma AbortKeepsSound(w: World, id: CallId, now: int)
    requires Sound(w) && w.clock <= now
    ensures Sound(Aborted(w, id, now))
  {
    TickKeepsSound(w, now);
    if id in w.calls && !w.calls[id].state.Ended? { TransitionKeepsSound(w, id, End(Failed), None, now); }
  }

  lemma {:induction false} SweepKeepsSound(w: World, claimed: seq<CallId>, now: int)
    requires Sound(w) && w.clock <= now
    ensures Sound(SweptCalls(w, claimed, now)) && SweptCalls(w, claimed, now).clock == now
  {
    TickKeepsSound(w, now);
    if claimed != [] {
      SweepKeepsSound(w, claimed[..|claimed| - 1], now);
      var before, id := SweptCalls(w, claimed[..|claimed| - 1], now), claimed[|claimed| - 1];
      if id in before.calls { FreshenKeepsSound(before, id, now); }
    }
  }

  lemma PurgeKeepsSound(w: World, now: int)
    requires Sound(w)
    ensures Sound(Purged(w, now))
  {
    assert forall id :: Entries(Purged(w, now), id) == Entries(w, id);
    assert forall id, s, i: Option<SignalId>, n :: HoldsSignal(Purged(w, now), id, s, i, n) ==> HoldsSignal(w, id, s, i, n);
  }

  lemma StoredSignalKeepsSound(w: World, id: CallId, seqNo: nat, signal: Signal)
    requires SignalsSound(w) && id in w.calls && w.calls[id].Involves(signal.sender) && w.calls[id].acceptedAt.Some?
    requires 1 <= seqNo <= w.calls[id].signalSeq && SignalKey(id, seqNo) !in w.signals
    requires signal.signalId.Some? ==> forall n :: !HoldsSignal(w, id, signal.sender, signal.signalId, n)
    ensures SignalsSound(w.(signals := w.signals[SignalKey(id, seqNo) := signal]))
  {
    var d := w.(signals := w.signals[SignalKey(id, seqNo) := signal]);
    forall c, s, i: Option<SignalId>, m, n | i.Some? && HoldsSignal(d, c, s, i, m) && HoldsSignal(d, c, s, i, n)
      ensures m == n
    {
      assert SignalKey(c, m) != SignalKey(id, seqNo) ==> HoldsSignal(w, c, s, i, m);
      assert SignalKey(c, n) != SignalKey(id, seqNo) ==> HoldsSignal(w, c, s, i, n);
    }
  }

  function CountedOn(w: World, id: CallId, now: int): World
    requires id in w.calls
  {
    w.(clock := now, calls := w.calls[id := w.calls[id].(signalSeq := w.calls[id].signalSeq + 1)])
  }

  lemma CountingKeepsSound(w: World, id: CallId, now: int)
    requires Sound(w) && w.clock <= now && id in w.calls
    ensures Sound(CountedOn(w, id, now))
  {
    TickKeepsSound(w, now);
    assert Coherent(w.calls[id], w.clock);
    RewriteKeepsSound(Ticked(w, now), id, CountedOn(w, id, now).calls[id]);
  }

  lemma NextNumberIsFree(w: World, id: CallId, sender: UserId, signalId: Option<SignalId>, now: int)
    requires SignalsSound(w) && id in w.calls && FoundSignal(w, id, sender, signalId).None?
    ensures SignalKey(id, w.calls[id].signalSeq + 1) !in w.signals
    ensures signalId.Some? ==> forall n :: !HoldsSignal(CountedOn(w, id, now), id, sender, signalId, n)
  {
    assert forall n :: HoldsSignal(CountedOn(w, id, now), id, sender, signalId, n) == HoldsSignal(w, id, sender, signalId, n);
  }

  lemma SignalsAside(w: World, signals: map<SignalKey, Signal>)
    requires Sound(w) && SignalsSound(w.(signals := signals))
    ensures Sound(w.(signals := signals))
  {
    assert forall other :: Entries(w.(signals := signals), other) == Entries(w, other);
  }

  lemma NewSignalRow(w: World, id: CallId, user: UserId, signalId: Option<SignalId>, body: Body, now: int)
    requires Talking(w, id, user, now) && FoundSignal(w, id, user, signalId).None?
    ensures var d, key := CountedOn(w, id, now), SignalKey(id, w.calls[id].signalSeq + 1);
            AfterSignal(w, id, user, signalId, body, now) ==
            d.(signals := d.signals[key := Signal(user, signalId, body, now + SIGNAL_TTL_SECONDS * SECOND)])
  {
  }

  lemma NewSignalKeepsSound(w: World, id: CallId, user: UserId, signalId: Option<SignalId>, body: Body, now: int)
    requires Sound(w) && w.clock <= now && Talking(w, id, user, now) && FoundSignal(w, id, user, signalId).None?
    ensures Sound(AfterSignal(w, id, user, signalId, body, now))
  {
    NewSignalRow(w, id, user, signalId, body, now);
    assert w.calls[id].acceptedAt.Some? by { assert Coherent(w.calls[id], w.clock); }
    NextNumberIsFree(w, id, user, signalId, now);
    CountingKeepsSound(w, id, now);
    NumberedSignalKeepsSound(CountedOn(w, id, now), id, Signal(user, signalId, body, now + SIGNAL_TTL_SECONDS * SECOND));
  }

  lemma NumberedSignalKeepsSound(d: World, id: CallId, signal: Signal)
    requires Sound(d) && id in d.calls && d.calls[id].Involves(signal.sender) && d.calls[id].acceptedAt.Some?
    requires d.calls[id].signalSeq >= 1 && SignalKey(id, d.calls[id].signalSeq) !in d.signals
    requires signal.signalId.Some? ==> forall n :: !HoldsSignal(d, id, signal.sender, signal.signalId, n)
    ensures Sound(d.(signals := d.signals[SignalKey(id, d.calls[id].signalSeq) := signal]))
  {
    StoredSignalKeepsSound(d, id, d.calls[id].signalSeq, signal);
    SignalsAside(d, d.signals[SignalKey(id, d.calls[id].signalSeq) := signal]);
  }

  lemma SignalKeepsSound(w: World, id: CallId, user: UserId, signalId: Option<SignalId>, body: Body, now: int)
    requires Sound(w) && w.clock <= now
    ensures Sound(AfterSignal(w, id, user, signalId, body, now))
  {
    if id in w.calls && w.calls[id].Involves(user) && Due(w, id, now) {
      FreshenKeepsSound(w, id, now);
    } else if Talking(w, id, user, now) && FoundSignal(w, id, user, signalId).None? {
      NewSignalKeepsSound(w, id, user, signalId, body, now);
    } else {
      TickKeepsSound(w, now);
    }
  }
}
