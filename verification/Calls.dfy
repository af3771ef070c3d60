/** The call automaton of `domain/call.py`: what an actor's wish, or the clock, makes of a call. */
module Calls {
  import opened Wrappers

  type CallId = nat
  type ConversationId = nat
  type Tab = nat

  // Moments are microseconds of one clock.
  const SECOND := 1_000_000
  const RING_SECONDS := 30
  const SETUP_SECONDS := 30
  const STALE_SECONDS := 90

  datatype Kind = Audio | Video
  datatype CallState = Ringing | Accepted | Active | Ended
  datatype EndReason = Completed | Declined | Missed | Cancelled | Busy | Unavailable | Failed
  datatype Route = Direct | Relay

  datatype Call = Call(
    conversation: ConversationId,
    caller: UserId,
    callee: UserId,
    kind: Kind,
    state: CallState,
    version: nat,
    signalSeq: nat,
    endReason: Option<EndReason>,
    createdAt: int,
    acceptedAt: Option<int>,
    activeAt: Option<int>,
    endedAt: Option<int>,
    lastKeepaliveAt: int,
    acceptedBy: Option<Tab>,
    route: Option<Route>)
  {
    predicate Involves(user: UserId) { user == caller || user == callee }

    function PeerOf(user: UserId): UserId { if user == caller then callee else caller }
  }

  /** `Noop` repeats what is already done; `Taken` lost to another tab of the same person. */
  datatype Change = Noop | Denied | Gone | Taken | To(state: CallState, reason: Option<EndReason>)

  function End(reason: EndReason): Change { To(Ended, Some(reason)) }

  function Accept(call: Call, user: UserId, tab: Option<Tab>): Change {
    if user != call.callee then Denied
    else match call.state
      case Ringing => To(Accepted, None)
      case Ended => Gone
      case _ => if tab.Some? && call.acceptedBy.Some? && call.acceptedBy != tab then Taken else Noop
  }

  function Decline(call: Call, user: UserId): Change {
    if user != call.callee then Denied
    else if call.state.Ringing? then End(Declined)
    else if call.state.Ended? && call.endReason == Some(Declined) then Noop
    else Gone
  }

  function Hangup(call: Call, user: UserId): Change {
    if !call.Involves(user) then Denied
    else match call.state
      case Ended => Noop
      case Ringing => End(if user == call.caller then Cancelled else Declined)
      case Accepted => End(Cancelled)
      case Active => End(Completed)
  }

  function Fail(call: Call, user: UserId): Change {
    if !call.Involves(user) then Denied
    else match call.state
      case Ended => Noop
      case Ringing => Gone
      case _ => End(Failed)
  }

  function Connected(call: Call, user: UserId): Change {
    if !call.Involves(user) then Denied
    else match call.state
      case Accepted => To(Active, None)
      case Active => Noop
      case _ => Gone
  }

  /** What the clock does to a stuck call. */
  function Expire(call: Call, now: int): Change {
    match call.state
    case Ringing => if now - call.createdAt > RING_SECONDS * SECOND then End(Missed) else Noop
    case Accepted =>
      var started := if call.acceptedAt.Some? then call.acceptedAt.value else call.createdAt;
      if now - started > SETUP_SECONDS * SECOND then End(Failed) else Noop
    case Active => if now - call.lastKeepaliveAt > STALE_SECONDS * SECOND then End(Failed) else Noop
    case Ended => Noop
  }

  function TruncatedMillis(micros: int): int {
    if micros >= 0 then micros / 1000 else -((-micros) / 1000)
  }

  function DurationMs(call: Call): Option<int> {
    if call.endReason != Some(Completed) || call.activeAt.None? || call.endedAt.None? then None
    else
      var millis := TruncatedMillis(call.endedAt.value - call.activeAt.value);
      if millis > 0 then Some(millis) else None
  }

  // ----- What every transition obeys -----

  function Rank(s: CallState): nat {
    match s case Ringing => 0 case Accepted => 1 case Active => 2 case Ended => 3
  }

  /** The move raises the rank by the road drawn for it, and a reason given is true of the state left. */
  predicate Lawful(from: CallState, change: Change) {
    change.To? ==>
      && Rank(change.state) > Rank(from)
      && (change.state.Ended? <==> change.reason.Some?)
      && (change.state.Accepted? ==> from.Ringing?)
      && (change.state.Active? ==> from.Accepted?)
      && (change.reason == Some(Completed) ==> from.Active?)
      && (change.reason == Some(Missed) || change.reason == Some(Declined) ==> from.Ringing?)
      && (change.reason == Some(Cancelled) ==> !from.Active?)
      && change.reason != Some(Busy) && change.reason != Some(Unavailable)
  }

  lemma EveryChangeIsLawful(call: Call, user: UserId, tab: Option<Tab>, now: int)
    ensures Lawful(call.state, Accept(call, user, tab)) && Lawful(call.state, Decline(call, user))
    ensures Lawful(call.state, Hangup(call, user)) && Lawful(call.state, Fail(call, user))
    ensures Lawful(call.state, Connected(call, user)) && Lawful(call.state, Expire(call, now))
  {
  }

  /** Once due, an untouched call stays due, for the same reason. */
  lemma ExpiryIsMonotone(call: Call, now: int, later: int)
    requires now <= later && Expire(call, now).To?
    ensures Expire(call, later) == Expire(call, now)
  {
  }

  // ----- The record of a call -----

  /** How many moves a record has seen: its version counts them, from one. */
  function Moves(call: Call): nat {
    (if call.acceptedAt.Some? then 1 else 0) + (if call.activeAt.Some? then 1 else 0) +
    (if call.state.Ended? && call.endReason != Some(Busy) && call.endReason != Some(Unavailable) then 1 else 0)
  }

  predicate InOrder(a: Option<int>, b: Option<int>) {
    a.Some? && b.Some? ==> a.value <= b.value
  }

  /** The fields of a record agree with its state, and its reason with its history. */
  predicate Coherent(call: Call, clock: int) {
    && call.caller != call.callee
    && call.version == 1 + Moves(call)
    && (call.state.Ended? <==> call.endReason.Some?) && (call.state.Ended? <==> call.endedAt.Some?)
    && (call.state.Ringing? ==> call.acceptedAt.None?)
    && (call.state.Accepted? ==> call.acceptedAt.Some? && call.activeAt.None?)
    && (call.state.Active? ==> call.activeAt.Some?)
    && (call.activeAt.Some? ==> call.acceptedAt.Some?)
    && (call.acceptedBy.Some? ==> call.acceptedAt.Some?)
    && (call.endReason == Some(Completed) ==> call.activeAt.Some?)
    && (call.endReason == Some(Missed) || call.endReason == Some(Declined) ==> call.acceptedAt.None?)
    && (call.endReason == Some(Cancelled) ==> call.activeAt.None?)
    && (call.endReason == Some(Busy) || call.endReason == Some(Unavailable) ==> call.acceptedAt.None?)
    && TimesInOrder(call, clock)
  }

  predicate TimesInOrder(call: Call, clock: int) {
    && call.createdAt <= call.lastKeepaliveAt <= clock
    && InOrder(Some(call.createdAt), call.acceptedAt) && InOrder(call.acceptedAt, call.activeAt)
    && InOrder(call.activeAt, call.endedAt) && InOrder(call.acceptedAt, call.endedAt)
    && InOrder(Some(call.createdAt), call.endedAt)
    && InOrder(call.acceptedAt, Some(clock)) && InOrder(call.activeAt, Some(clock)) && InOrder(call.endedAt, Some(clock))
  }

  /** The row after a transition is written at `now`. */
  function Applied(call: Call, state: CallState, reason: Option<EndReason>, acceptedBy: Option<Tab>, now: int): Call {
    call.(state := state,
          endReason := reason,
          version := call.version + 1,
          acceptedAt := if state.Accepted? then Some(now) else call.acceptedAt,
          activeAt := if state.Active? then Some(now) else call.activeAt,
          endedAt := if state.Ended? then Some(now) else call.endedAt,
          lastKeepaliveAt := now,
          acceptedBy := if state.Accepted? then acceptedBy else call.acceptedBy)
  }

  /** A lawful move keeps a record coherent, adds one to its version and raises its rank. */
  lemma LawfulMoveKeepsCoherent(call: Call, change: Change, tab: Option<Tab>, clock: int, now: int)
    requires Coherent(call, clock) && clock <= now && change.To? && Lawful(call.state, change)
    ensures Coherent(Applied(call, change.state, change.reason, tab, now), now)
    ensures Applied(call, change.state, change.reason, tab, now).version == call.version + 1 <= 4
    ensures Rank(Applied(call, change.state, change.reason, tab, now).state) > Rank(call.state)
  {
  }

  lemma CoherentLater(call: Call, clock: int, now: int)
    requires Coherent(call, clock) && clock <= now
    ensures Coherent(call, now)
  {
  }

  /** Only a conversation that took place has a duration, and it is positive. */
  lemma DurationOnlyOfCompleted(call: Call, clock: int)
    requires Coherent(call, clock)
    ensures DurationMs(call).Some? ==> call.endReason == Some(Completed) && DurationMs(call).value > 0
    ensures DurationMs(call).Some? <==>
            call.endReason == Some(Completed) && call.endedAt.value - call.activeAt.value >= 1000
  {
  }

  /** The path of the connection only ever worsens: once relayed, a call stays known as relayed. */
  function RecordedRoute(previous: Option<Route>, reported: Option<Route>): Option<Route> {
    match reported
    case None => previous
    case Some(r) => if previous.None? || (previous == Some(Direct) && r == Relay) then Some(r) else previous
  }
}
