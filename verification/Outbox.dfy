/**
  The transactional outbox: leases taken by any number of relays, publication, marking and back-off
  (`repositories/outbox.py`, `domain/outbox.py`, driven by `services/outbox_relay.py`).
 */
module Outbox {
  import opened Sets
  import opened Wrappers

  type RecordId = nat
  type Owner = nat

  /** Times are whole seconds of one database clock. */
  datatype Row = Row(routable: bool, attempts: nat, publishedAt: Option<int>, leaseOwner: Option<Owner>, leaseUntil: Option<int>)

  type Rows = map<RecordId, Row>

  const MIN_BACKOFF := 1
  const MAX_BACKOFF := 300
  const UNROUTABLE_BACKOFF := 3600

  function Pow2(n: nat): nat { if n == 0 then 1 else 2 * Pow2(n - 1) }

  function Min(a: int, b: int): int { if a <= b then a else b }

  function BackoffFor(attempts: int): int {
    if attempts <= 0 then MIN_BACKOFF
    else Min(MIN_BACKOFF * Pow2(Min(attempts - 1, 20)), MAX_BACKOFF)
  }

  lemma {:induction false} Pow2Grows(a: nat, b: nat)
    requires a <= b
    ensures 1 <= Pow2(a) <= Pow2(b)
  {
    if a < b { Pow2Grows(a, b - 1); } else if a > 0 { Pow2Grows(a - 1, a - 1); }
  }

  /** Retries wait between a second and five minutes, never less after more attempts. */
  lemma BackoffMonotone(fewer: int, more: int)
    requires fewer <= more
    ensures MIN_BACKOFF <= BackoffFor(fewer) <= BackoffFor(more) <= MAX_BACKOFF
  {
    if fewer > 0 {
      Pow2Grows(Min(fewer - 1, 20), Min(more - 1, 20));
    } else if more > 0 {
      Pow2Grows(0, Min(more - 1, 20));
    }
  }

  lemma EnoughDoublings()
    ensures Pow2(8) == 256 && Pow2(9) == 512
  {
    assert Pow2(4) == 16;
    assert Pow2(6) == 64;
  }

  /** One second after the first failure, twice as long after each further one, five minutes at most. */
  lemma BackoffDoubles(attempts: int)
    ensures attempts <= 1 ==> BackoffFor(attempts) == 1
    ensures attempts >= 1 ==> BackoffFor(attempts + 1) == Min(2 * BackoffFor(attempts), 300)
  {
    EnoughDoublings();
    if attempts > 9 {
      Pow2Grows(9, Min(attempts - 1, 20));
      Pow2Grows(9, Min(attempts, 20));
    }
  }

  // ----- The statements -----

  predicate Claimable(r: Row, now: int) {
    r.publishedAt.None? && (r.leaseUntil.None? || r.leaseUntil.value < now)
  }

  function Claimed(rows: Rows, ids: set<RecordId>, owner: Owner, until: int): Rows {
    map id | id in rows :: if id in ids then rows[id].(leaseOwner := Some(owner), leaseUntil := Some(until)) else rows[id]
  }

  predicate MayFinish(r: Row, owner: Owner) {
    r.publishedAt.None? && r.leaseOwner == Some(owner)
  }

  function Marked(rows: Rows, ids: set<RecordId>, owner: Owner, now: int): Rows {
    map id | id in rows ::
      if id in ids && MayFinish(rows[id], owner)
      then rows[id].(publishedAt := Some(now), leaseOwner := None, leaseUntil := None)
      else rows[id]
  }

  function Failed(rows: Rows, failed: RecordId, owner: Owner, until: int): Rows {
    map id | id in rows ::
      if id == failed && MayFinish(rows[id], owner)
      then rows[id].(attempts := rows[id].attempts + 1, leaseUntil := Some(until))
      else rows[id]
  }

  predicate Ascending(ids: seq<RecordId>) {
    forall i, j | 0 <= i < j < |ids| :: ids[i] < ids[j]
  }

  class Table {
    var rows: Rows

    constructor ()
      ensures rows == map[]
    {
      rows := map[];
    }

    method InsertEvent(id: RecordId, routable: bool)
      requires id !in rows
      modifies this
      ensures rows.Keys == old(rows).Keys + {id} && forall other | other in old(rows) :: rows[other] == old(rows)[other]
      ensures rows[id].routable == routable && rows[id].attempts == 0 && rows[id].publishedAt.None?
      ensures forall now :: Claimable(rows[id], now)
    {
      rows := rows[id := Row(routable, 0, None, None, None)];
    }

    /**
      Leases the oldest claimable records, at most `limit`, passing over those locked by a concurrent claim.
      A record left behind is younger than every one taken, and only for lack of room.
     */
    method ClaimBatch(owner: Owner, limit: nat, leaseSeconds: nat, now: int, lockedByOthers: set<RecordId>) returns (ids: seq<RecordId>)
      modifies this
      ensures rows.Keys == old(rows).Keys
      ensures forall id | id in rows ::
                if id in ids
                then rows[id].leaseOwner == Some(owner) && rows[id].leaseUntil == Some(now + leaseSeconds) && rows[id].publishedAt.None?
                     && rows[id].routable == old(rows)[id].routable && rows[id].attempts == old(rows)[id].attempts
                else rows[id] == old(rows)[id]
      ensures Ascending(ids) && |ids| <= limit
      ensures forall id | id in ids ::
                && id in old(rows) && id !in lockedByOthers
                && old(rows)[id].publishedAt.None? && (old(rows)[id].leaseUntil.None? || old(rows)[id].leaseUntil.value < now)
      ensures forall id | id in old(rows) && id !in lockedByOthers && id !in ids
                          && old(rows)[id].publishedAt.None? && (old(rows)[id].leaseUntil.None? || old(rows)[id].leaseUntil.value < now) ::
                |ids| == limit && forall taken | taken in ids :: taken < id
    {
      ids := [];
      var left := set id | id in rows && Claimable(rows[id], now) && id !in lockedByOthers;
      while left != {} && |ids| < limit
        invariant rows == old(rows) && Ascending(ids) && |ids| <= limit
        invariant forall id | id in ids :: id in rows && Claimable(rows[id], now) && id !in lockedByOthers
        invariant forall id :: id in rows && Claimable(rows[id], now) && id !in lockedByOthers && id !in ids <==> id in left
        invariant forall id, taken | id in left && taken in ids :: taken < id
        decreases left
      {
        var next := PickLeast(left);
        assert forall i | 0 <= i < |ids| :: ids[i] in ids;
        ids := ids + [next];
        left := left - {next};
      }
      rows := Claimed(rows, (set id | id in ids), owner, now + leaseSeconds);
    }

    /** Marks the named records that are still unpublished and still leased to this owner; says how many. */
    method MarkPublished(ids: set<RecordId>, owner: Owner, now: int) returns (count: nat)
      modifies this
      ensures rows.Keys == old(rows).Keys
      ensures forall id | id in rows ::
                if id in ids && old(rows)[id].publishedAt.None? && old(rows)[id].leaseOwner == Some(owner)
                then rows[id].publishedAt == Some(now) && rows[id].leaseOwner.None? && rows[id].leaseUntil.None?
                     && rows[id].routable == old(rows)[id].routable && rows[id].attempts == old(rows)[id].attempts
                else rows[id] == old(rows)[id]
      ensures count == |set id | id in rows && rows[id] != old(rows)[id]|
    {
      var marked := set id | id in ids && id in rows && MayFinish(rows[id], owner);
      count := |marked|;
      rows := Marked(rows, ids, owner, now);
      assert marked == set id | id in rows && rows[id] != old(rows)[id];
    }

    method RecordFailure(id: RecordId, owner: Owner, now: int, retryAfter: nat)
      modifies this
      ensures rows.Keys == old(rows).Keys && forall other | other in rows && other != id :: rows[other] == old(rows)[other]
      ensures id in rows ==>
                if old(rows)[id].publishedAt.None? && old(rows)[id].leaseOwner == Some(owner)
                then rows[id].attempts == old(rows)[id].attempts + 1 && rows[id].leaseUntil == Some(now + retryAfter)
                     && rows[id].publishedAt.None? && rows[id].leaseOwner == Some(owner) && rows[id].routable == old(rows)[id].routable
                else rows[id] == old(rows)[id]
    {
      rows := Failed(rows, id, owner, now + retryAfter);
    }
  }

  // ----- Relays -----

  /** A relay between two claims: the batch with the attempts it read, and what it has published of it. */
  datatype Relay = Relay(batch: map<RecordId, nat>, published: set<RecordId>)

  const IDLE := Relay(map[], {})
  const OPENING := State(map[], [], map[], 0)

  datatype State = State(rows: Rows, stream: seq<RecordId>, relays: map<Owner, Relay>, clock: int)

  datatype Step =
    | Insert(id: RecordId, routable: bool)
    | Claim(owner: Owner, ids: set<RecordId>, lease: nat, now: int)
    | Publish(owner: Owner, id: RecordId, now: int)
    | PublishFailed(owner: Owner, id: RecordId, reachedBroker: bool, now: int)
    | Unroutable(owner: Owner, id: RecordId, now: int)
    | Mark(owner: Owner, now: int)
    | Crash(owner: Owner)

  function RelayOf(s: State, owner: Owner): Relay {
    if owner in s.relays then s.relays[owner] else IDLE
  }

  /** The record's type has a topic; nothing ever changes that. */
  predicate Routable(s: State, id: RecordId) { id in s.rows && s.rows[id].routable }

  /** A relay goes through its batch in the order of the numbers. */
  predicate IsNext(s: State, owner: Owner, id: RecordId) {
    id in RelayOf(s, owner).batch && forall other | other in RelayOf(s, owner).batch :: id <= other
  }

  /** A relay claims only between batches, publishes only what it claimed, marks once it is through, and time does not go back. */
  predicate Possible(s: State, step: Step) {
    match step
    case Insert(id, _) => id !in s.rows
    case Claim(owner, ids, _, now) =>
      now >= s.clock && RelayOf(s, owner) == IDLE && forall id | id in ids :: id in s.rows && Claimable(s.rows[id], now)
    case Publish(owner, id, now) => now >= s.clock && IsNext(s, owner, id) && Routable(s, id)
    case PublishFailed(owner, id, _, now) => now >= s.clock && IsNext(s, owner, id) && Routable(s, id)
    case Unroutable(owner, id, now) => now >= s.clock && IsNext(s, owner, id) && !Routable(s, id)
    case Mark(owner, now) => now >= s.clock && RelayOf(s, owner).batch == map[]
    case Crash(_) => true
  }

  function Next(s: State, step: Step): State
    requires Possible(s, step)
  {
    match step
    case Insert(id, routable) => s.(rows := s.rows[id := Row(routable, 0, None, None, None)])
    case Claim(owner, ids, lease, now) =>
      s.(rows := Claimed(s.rows, ids, owner, now + lease), clock := now,
         relays := s.relays[owner := Relay(map id | id in ids && id in s.rows :: s.rows[id].attempts, {})])
    case Publish(owner, id, now) =>
      var r := RelayOf(s, owner);
      s.(stream := s.stream + [id], clock := now, relays := s.relays[owner := Relay(r.batch - {id}, r.published + {id})])
    case PublishFailed(owner, id, reachedBroker, now) =>
      // The rest of the batch is left to the end of its lease, so that order survives the retry.
      var r := RelayOf(s, owner);
      s.(rows := Failed(s.rows, id, owner, now + BackoffFor(r.batch[id] + 1)), clock := now,
         stream := if reachedBroker then s.stream + [id] else s.stream,
         relays := s.relays[owner := Relay(map[], r.published)])
    case Unroutable(owner, id, now) =>
      var r := RelayOf(s, owner);
      s.(rows := Failed(s.rows, id, owner, now + UNROUTABLE_BACKOFF), clock := now,
         relays := s.relays[owner := Relay(r.batch - {id}, r.published)])
    case Mark(owner, now) =>
      s.(rows := Marked(s.rows, RelayOf(s, owner).published, owner, now), clock := now, relays := s.relays[owner := IDLE])
    case Crash(owner) => s.(relays := s.relays[owner := IDLE])
  }

  ghost function Run(s: State, steps: seq<Step>): State
    requires Legal(s, steps)
    decreases |steps|, 1
  {
    if steps == [] then s else Next(Run(s, steps[..|steps| - 1]), steps[|steps| - 1])
  }

  ghost predicate Legal(s: State, steps: seq<Step>)
    decreases |steps|, 0
  {
    steps == [] || (Legal(s, steps[..|steps| - 1]) && Possible(Run(s, steps[..|steps| - 1]), steps[|steps| - 1]))
  }

  ghost predicate Started(s: State) {
    s.rows == map[] && s.stream == [] && s.relays == map[]
  }

  lemma OneMore(start: State, steps: seq<Step>, step: Step) returns (longer: seq<Step>)
    requires Legal(start, steps) && Possible(Run(start, steps), step)
    ensures longer == steps + [step] && Legal(start, longer) && Run(start, longer) == Next(Run(start, steps), step)
  {
    longer := steps + [step];
    assert longer[..|steps|] == steps;
  }

  // ----- History, read off the steps alone -----

  /** Who claimed the record last. */
  ghost function LatestClaimant(steps: seq<Step>, id: RecordId): Option<Owner> {
    if steps == [] then None
    else
      var step := steps[|steps| - 1];
      if step.Claim? && id in step.ids then Some(step.owner) else LatestClaimant(steps[..|steps| - 1], id)
  }

  /** Until when the latest claimant was promised the record: its lease, or the back-off of its own failure. */
  ghost function PromisedUntil(start: State, steps: seq<Step>, id: RecordId): Option<int>
    requires Legal(start, steps)
  {
    if steps == [] then None
    else
      var before, step := steps[..|steps| - 1], steps[|steps| - 1];
      if step.Claim? && id in step.ids then Some(step.now + step.lease)
      else if step.PublishFailed? && step.id == id && LatestClaimant(before, id) == Some(step.owner) then
        Some(step.now + BackoffFor(RelayOf(Run(start, before), step.owner).batch[id] + 1))
      else if step.Unroutable? && step.id == id && LatestClaimant(before, id) == Some(step.owner) then
        Some(step.now + UNROUTABLE_BACKOFF)
      else PromisedUntil(start, before, id)
  }

  /** An unpublished row stores exactly its latest claimant and what that claimant was promised. */
  ghost predicate Faithful(start: State, steps: seq<Step>, id: RecordId)
    requires Legal(start, steps)
  {
    var rows := Run(start, steps).rows;
    && (id !in rows ==> LatestClaimant(steps, id).None? && PromisedUntil(start, steps, id).None?)
    && (id in rows && rows[id].publishedAt.None? ==>
          rows[id].leaseOwner == LatestClaimant(steps, id) && rows[id].leaseUntil == PromisedUntil(start, steps, id))
  }

  ghost predicate BatchesExist(s: State) {
    forall owner | owner in s.relays :: s.relays[owner].batch.Keys <= s.rows.Keys
  }

  lemma {:induction false} RowsTellHistory(start: State, steps: seq<Step>, id: RecordId)
    requires Started(start) && Legal(start, steps)
    ensures Faithful(start, steps, id) && BatchesExist(Run(start, steps))
  {
    if steps != [] {
      RowsTellHistory(start, steps[..|steps| - 1], id);
    }
  }

  /**
    A record is claimed again only after what its latest claimant was promised ran out; in particular
    two owners never hold an unexpired promise on one record.
   */
  lemma ClaimsDoNotOverlap(start: State, before: seq<Step>, claim: Step, id: RecordId)
    requires Started(start) && Legal(start, before + [claim]) && claim.Claim? && id in claim.ids
    ensures Legal(start, before)
    ensures PromisedUntil(start, before, id).Some? ==> PromisedUntil(start, before, id).value < claim.now
    ensures LatestClaimant(before + [claim], id) == Some(claim.owner)
  {
    assert (before + [claim])[..|before|] == before;
    RowsTellHistory(start, before, id);
  }

  /** What is left of the batch the relay is going through. */
  ghost function InHand(steps: seq<Step>, owner: Owner): set<RecordId> {
    if steps == [] then {}
    else
      var before, step := steps[..|steps| - 1], steps[|steps| - 1];
      if step.Insert? || step.owner != owner then InHand(before, owner)
      else
        match step
        case Claim(_, ids, _, _) => ids
        case Publish(_, id, _) => InHand(before, owner) - {id}
        case Unroutable(_, id, _) => InHand(before, owner) - {id}
        case _ => {}
  }

  /** What the relay has published of its batch and is yet to mark. */
  ghost function PublishedOf(steps: seq<Step>, owner: Owner): set<RecordId> {
    if steps == [] then {}
    else
      var before, step := steps[..|steps| - 1], steps[|steps| - 1];
      if step.Insert? || step.owner != owner || step.PublishFailed? || step.Unroutable? then PublishedOf(before, owner)
      else if step.Publish? then PublishedOf(before, owner) + {step.id}
      else {}
  }

  /** What reached the broker, in order, the publications whose answer was lost included. */
  ghost function StreamOf(steps: seq<Step>): seq<RecordId> {
    if steps == [] then []
    else
      var before, step := StreamOf(steps[..|steps| - 1]), steps[|steps| - 1];
      if step.Publish? || (step.PublishFailed? && step.reachedBroker) then before + [step.id] else before
  }

  /** When the record was first marked by a relay that had published it and was still the latest to claim it. */
  ghost function MarkOf(steps: seq<Step>, id: RecordId): Option<int> {
    if steps == [] then None
    else
      var before, step := steps[..|steps| - 1], steps[|steps| - 1];
      if MarkOf(before, id).None? && step.Mark? && id in PublishedOf(before, step.owner) && LatestClaimant(before, id) == Some(step.owner)
      then Some(step.now)
      else MarkOf(before, id)
  }

  /** What a relay holds and what the broker received, read off the steps. */
  lemma {:induction false} RelaysTellHistory(start: State, steps: seq<Step>, owner: Owner)
    requires Started(start) && Legal(start, steps)
    ensures RelayOf(Run(start, steps), owner).batch.Keys == InHand(steps, owner)
    ensures RelayOf(Run(start, steps), owner).published == PublishedOf(steps, owner)
    ensures Run(start, steps).stream == StreamOf(steps)
  {
    if steps != [] {
      RelaysTellHistory(start, steps[..|steps| - 1], owner);
    }
  }

  /** The batch the relay claimed last. */
  ghost function ClaimOf(steps: seq<Step>, owner: Owner): set<RecordId> {
    if steps == [] then {}
    else
      var step := steps[|steps| - 1];
      if step.Claim? && step.owner == owner then step.ids else ClaimOf(steps[..|steps| - 1], owner)
  }

  /** While the relay goes through its batch, what is not in hand any more was published, or has no topic. */
  ghost predicate GoneThrough(start: State, steps: seq<Step>, owner: Owner)
    requires Legal(start, steps)
  {
    var claimed, left, published := ClaimOf(steps, owner), InHand(steps, owner), PublishedOf(steps, owner);
    && left <= claimed <= Run(start, steps).rows.Keys && published <= claimed
    && left !! published
    && (left != {} ==> forall id | id in claimed && id !in left && id !in published :: !Routable(Run(start, steps), id))
  }

  lemma {:induction false} BatchesAreGoneThrough(start: State, steps: seq<Step>, owner: Owner)
    requires Started(start) && Legal(start, steps)
    ensures GoneThrough(start, steps, owner)
  {
    if steps != [] {
      BatchesAreGoneThrough(start, steps[..|steps| - 1], owner);
      RelaysTellHistory(start, steps[..|steps| - 1], owner);
    }
  }

  /** A relay publishes an older record before a younger one if and only if it claimed both together. */
  lemma InOrderWithinBatch(start: State, before: seq<Step>, step: Step, older: RecordId)
    requires Started(start) && Legal(start, before + [step]) && step.Publish? && older < step.id
    ensures Legal(start, before)
    ensures Routable(Run(start, before), older) ==>
              (older in PublishedOf(before, step.owner) <==> older in ClaimOf(before, step.owner))
    ensures Routable(Run(start, before), older) && older in ClaimOf(before, step.owner) ==> older in StreamOf(before)
  {
    assert (before + [step])[..|before|] == before;
    BatchesAreGoneThrough(start, before, step.owner);
    RelaysTellHistory(start, before, step.owner);
    MarkedWasPublished(start, before);
  }

  lemma ClaimedOnce() returns (steps: seq<Step>)
    ensures Legal(OPENING, steps)
    ensures Run(OPENING, steps) == State(map[1 := Row(true, 0, None, Some(7), Some(30))], [], map[7 := Relay(map[1 := 0], {})], 0)
  {
    steps := OneMore(OPENING, [], Insert(1, true));
    assert Run(OPENING, steps).rows == map[1 := Row(true, 0, None, None, None)];
    steps := OneMore(OPENING, steps, Claim(7, {1}, 30, 0));
    assert Run(OPENING, steps).rows[1] == Row(true, 0, None, Some(7), Some(30));
    assert RelayOf(Run(OPENING, steps), 7).batch == map[1 := 0];
  }

  lemma FailedOnce() returns (steps: seq<Step>)
    ensures Legal(OPENING, steps)
    ensures Run(OPENING, steps) == State(map[1 := Row(true, 1, None, Some(7), Some(1))], [], map[7 := IDLE], 0)
  {
    steps := ClaimedOnce();
    steps := OneMore(OPENING, steps, PublishFailed(7, 1, false, 0));
    BackoffDoubles(1);
    steps := OneMore(OPENING, steps, Mark(7, 0));
  }

  /** Across batches the order is not kept: the record that failed is put off, and one written later overtakes it. */
  lemma OlderIsOvertaken() returns (steps: seq<Step>)
    ensures Legal(OPENING, steps)
    ensures Run(OPENING, steps).stream == [2] && Run(OPENING, steps).rows.Keys == {1, 2}
    ensures Routable(Run(OPENING, steps), 1) && Run(OPENING, steps).rows[1].publishedAt.None?
  {
    steps := FailedOnce();
    steps := OneMore(OPENING, steps, Insert(2, true));
    steps := OneMore(OPENING, steps, Claim(7, {2}, 30, 0));
    assert RelayOf(Run(OPENING, steps), 7) == Relay(map[2 := 0], {});
    steps := OneMore(OPENING, steps, Publish(7, 2, 0));
  }

  /** A record is marked exactly from the first time that its latest claimant marks what it has published. */
  lemma {:induction false} MarkTellsHistory(start: State, steps: seq<Step>, id: RecordId)
    requires Started(start) && Legal(start, steps)
    ensures id in Run(start, steps).rows ==> Run(start, steps).rows[id].publishedAt == MarkOf(steps, id)
    ensures id !in Run(start, steps).rows ==> MarkOf(steps, id).None?
  {
    if steps != [] {
      var before, step := steps[..|steps| - 1], steps[|steps| - 1];
      MarkTellsHistory(start, before, id);
      RowsTellHistory(start, before, id);
      if step.Mark? {
        RelaysTellHistory(start, before, step.owner);
      }
    }
  }

  /**
    A record may be claimed if and only if the relay is between batches, the record is not marked, and nothing was ever
    promised of it or what was promised last is over: a crashed relay holds it no longer than its lease.
   */
  lemma ClaimableExactlyWhen(start: State, steps: seq<Step>, id: RecordId, owner: Owner, lease: nat, now: int)
    requires Started(start) && Legal(start, steps)
    requires id in Run(start, steps).rows && now >= Run(start, steps).clock
    ensures Possible(Run(start, steps), Claim(owner, {id}, lease, now)) <==>
              && InHand(steps, owner) == {} && PublishedOf(steps, owner) == {} && MarkOf(steps, id).None?
              && (PromisedUntil(start, steps, id).None? || PromisedUntil(start, steps, id).value < now)
  {
    RowsTellHistory(start, steps, id);
    MarkTellsHistory(start, steps, id);
    RelaysTellHistory(start, steps, owner);
  }

  /** How often the record was reported failed by its claimant of the time. */
  ghost function FailuresOf(steps: seq<Step>, id: RecordId): nat {
    if steps == [] then 0
    else
      var before, step := steps[..|steps| - 1], steps[|steps| - 1];
      FailuresOf(before, id) +
      (if (step.PublishFailed? || step.Unroutable?) && step.id == id && LatestClaimant(before, id) == Some(step.owner) then 1 else 0)
  }

  /** What a relay read of the record it still holds is what the row says. */
  ghost predicate Remembered(start: State, steps: seq<Step>, id: RecordId)
    requires Legal(start, steps)
  {
    var s := Run(start, steps);
    id in s.rows && s.rows[id].publishedAt.None? ==>
      && s.rows[id].attempts == FailuresOf(steps, id)
      && forall owner | LatestClaimant(steps, id) == Some(owner) && id in RelayOf(s, owner).batch ::
           RelayOf(s, owner).batch[id] == s.rows[id].attempts
  }

  /** An unpublished record has as many attempts as failures. */
  lemma {:induction false} AttemptsAreFailures(start: State, steps: seq<Step>, id: RecordId)
    requires Started(start) && Legal(start, steps)
    ensures Remembered(start, steps, id)
    ensures id !in Run(start, steps).rows ==> FailuresOf(steps, id) == 0
  {
    if steps != [] {
      var before := steps[..|steps| - 1];
      AttemptsAreFailures(start, before, id);
      RowsTellHistory(start, before, id);
      RowsTellHistory(start, steps, id);
    }
  }

  /** The n-th failure of a record puts it off by the n-th back-off, an hour if no topic is known for it. */
  lemma FailurePutsOff(start: State, before: seq<Step>, step: Step)
    requires Started(start) && Legal(start, before + [step]) && Legal(start, before)
    requires step.PublishFailed? || step.Unroutable?
    requires LatestClaimant(before, step.id) == Some(step.owner)
    requires step.id in Run(start, before).rows && Run(start, before).rows[step.id].publishedAt.None?
    ensures PromisedUntil(start, before + [step], step.id) ==
            Some(step.now + if step.Unroutable? then 3600 else BackoffFor(FailuresOf(before + [step], step.id)))
  {
    assert (before + [step])[..|before|] == before;
    AttemptsAreFailures(start, before, step.id);
  }

  /** Only the latest claimant marks or fails a record; anyone else's late attempt changes nothing. */
  lemma OnlyLatestClaimantFinishes(start: State, before: seq<Step>, step: Step, id: RecordId)
    requires Started(start) && Legal(start, before + [step]) && Legal(start, before)
    requires step.Mark? || step.PublishFailed? || step.Unroutable?
    requires id in Run(start, before).rows && LatestClaimant(before, id) != Some(step.owner)
    ensures Possible(Run(start, before), step) && Next(Run(start, before), step).rows[id] == Run(start, before).rows[id]
  {
    assert (before + [step])[..|before|] == before;
    RowsTellHistory(start, before, id);
  }

  ghost predicate PublishedIsInStream(s: State) {
    && (forall owner, id | owner in s.relays && id in s.relays[owner].published :: id in s.stream)
    && (forall id | id in s.rows && s.rows[id].publishedAt.Some? :: id in s.stream)
    && (forall id | id in s.stream :: Routable(s, id))
  }

  lemma TopicsStay(s: State, step: Step)
    requires Possible(s, step)
    ensures forall id | Routable(s, id) :: Routable(Next(s, step), id)
  {
  }

  lemma StepKeepsPublished(s: State, step: Step)
    requires PublishedIsInStream(s) && Possible(s, step)
    ensures PublishedIsInStream(Next(s, step))
  {
    var d := Next(s, step);
    TopicsStay(s, step);
    forall id | id in d.stream ensures Routable(d, id) {
      assert id in s.stream || Routable(s, id);
    }
  }

  /** Marked means published: a mark is only ever set on a record the stream already holds, and never on one without a topic. */
  lemma {:induction false} MarkedWasPublished(start: State, steps: seq<Step>)
    requires Started(start) && Legal(start, steps)
    ensures PublishedIsInStream(Run(start, steps))
  {
    if steps != [] {
      MarkedWasPublished(start, steps[..|steps| - 1]);
      StepKeepsPublished(Run(start, steps[..|steps| - 1]), steps[|steps| - 1]);
    }
  }

  /** The mark is permanent: once set, no later step of any relay clears or moves it. */
  lemma {:induction false} MarkIsPermanent(start: State, before: seq<Step>, later: seq<Step>, id: RecordId)
    requires Legal(start, before) && Legal(start, before + later)
    requires id in Run(start, before).rows && Run(start, before).rows[id].publishedAt.Some?
    ensures id in Run(start, before + later).rows
    ensures Run(start, before + later).rows[id].publishedAt == Run(start, before).rows[id].publishedAt
    decreases |later|
  {
    if later == [] {
      assert before + later == before;
    } else {
      var n := |later| - 1;
      assert (before + later)[..|before| + n] == before + later[..n];
      MarkIsPermanent(start, before, later[..n], id);
    }
  }
}
