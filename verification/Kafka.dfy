/**
  Manual offset commits: the `Subscriber` of `adapters/kafka.py`, the loop of the workers that drive it,
  and the consumer group they form with the broker.
 */
module Kafka {
  import opened Wrappers

  type Partition = nat
  type ConsumerId = nat

  /**
    A record either parses into an event, or is skipped by `poll` with a log line, or has headers that cannot be
    decoded: these are read outside the guard, and `poll` raises.
   */
  datatype Entry<+E> = Parsable(event: E) | Unparsable | BadHeaders

  /** Where a record sits in the stream. */
  datatype Place = Place(partition: Partition, offset: nat)

  type Logs<E> = map<Partition, seq<Entry<E>>>

  predicate InLog<E>(logs: Logs<E>, at: Place) {
    at.partition in logs && at.offset < |logs[at.partition]|
  }

  /** The places of the readable records in `logs[p][from..from + sizes[p]]`, for every partition of the batch. */
  ghost function Readable<E(!new)>(logs: Logs<E>, from: map<Partition, nat>, sizes: map<Partition, nat>): set<Place> {
    set p, o | p in sizes && p in from && p in logs && from[p] <= o < from[p] + sizes[p] && o < |logs[p]| && logs[p][o].Parsable? :: Place(p, o)
  }

  /** The places of all records of the batch that a log line is not enough for. */
  ghost function Held<E(!new)>(logs: Logs<E>, from: map<Partition, nat>, sizes: map<Partition, nat>): set<Place> {
    set p, o | p in sizes && p in from && p in logs && from[p] <= o < from[p] + sizes[p] && o < |logs[p]| && !logs[p][o].Unparsable? :: Place(p, o)
  }

  ghost predicate OffsetsAscend(places: seq<Place>) {
    forall i, j | 0 <= i < j < |places| && places[i].partition == places[j].partition :: places[i].offset < places[j].offset
  }

  ghost predicate HasBadHeaders<E(!new)>(logs: Logs<E>, from: map<Partition, nat>, sizes: map<Partition, nat>) {
    exists p, o | p in sizes && p in from && p in logs && from[p] <= o < from[p] + sizes[p] && o < |logs[p]| :: logs[p][o].BadHeaders?
  }

  /** Parses one partition's share of a batch; unreadable bodies are passed over, unreadable headers are fatal. */
  method ParseRecords<E>(records: seq<Entry<E>>, partition: Partition, from: nat, size: nat) returns (parsed: Option<seq<Place>>)
    requires from + size <= |records|
    ensures parsed.None? <==> exists o | from <= o < from + size :: records[o].BadHeaders?
    ensures parsed.Some? ==>
              && (forall at :: at in parsed.value <==> at.partition == partition && from <= at.offset < from + size && records[at.offset].Parsable?)
              && OffsetsAscend(parsed.value)
  {
    var places: seq<Place> := [];
    for k := 0 to size
      invariant forall o | from <= o < from + k :: !records[o].BadHeaders?
      invariant forall at :: at in places <==> at.partition == partition && from <= at.offset < from + k && records[at.offset].Parsable?
      invariant OffsetsAscend(places)
    {
      if records[from + k].BadHeaders? {
        return None;
      }
      if records[from + k].Parsable? {
        assert forall i | 0 <= i < |places| :: places[i] in places && places[i].offset < from + k;
        places := places + [Place(partition, from + k)];
      }
    }
    parsed := Some(places);
  }

  lemma JoinAscending(places: seq<Place>, more: seq<Place>, partition: Partition)
    requires OffsetsAscend(places) && OffsetsAscend(more)
    requires forall at | at in places :: at.partition != partition
    requires forall at | at in more :: at.partition == partition
    ensures OffsetsAscend(places + more)
  {
    forall i | 0 <= i < |places| ensures places[i].partition != partition { assert places[i] in places; }
    forall i | 0 <= i < |more| ensures more[i].partition == partition { assert more[i] in more; }
  }

  /** What `getmany` may hand out: for assigned partitions, the next so many records of each. */
  ghost predicate Fetchable<E(!new)>(logs: Logs<E>, assignment: set<Partition>, position: map<Partition, nat>, sizes: map<Partition, nat>) {
    forall p | p in sizes :: p in assignment && p in position && p in logs && position[p] + sizes[p] <= |logs[p]|
  }

  function Advanced(position: map<Partition, nat>, sizes: map<Partition, nat>): map<Partition, nat> {
    map p | p in position :: if p in sizes then position[p] + sizes[p] else position[p]
  }

  function BatchStarts(position: map<Partition, nat>, sizes: map<Partition, nat>): map<Partition, nat> {
    map p | p in sizes && sizes[p] > 0 && p in position :: position[p]
  }

  function Sought(assignment: set<Partition>, position: map<Partition, nat>, fetchedFrom: map<Partition, nat>): map<Partition, nat> {
    map p | p in position :: if p in assignment && p in fetchedFrom then fetchedFrom[p] else position[p]
  }

  datatype Polled = NotConnected | Raised | Batch(events: seq<Place>)

  class Subscriber<E(!new)> {
    // The client underneath: whether it is connected, its assignment and its read positions.
    var connected: bool
    var assignment: set<Partition>
    var position: map<Partition, nat>
    // The group's offsets, kept by the broker.
    var committed: map<Partition, nat>
    /** Start of the last batch handed out, by partition: where `Rewind` goes back to. */
    var fetchedFrom: map<Partition, nat>

    constructor ()
      ensures !connected && fetchedFrom == map[] && assignment == {} && position == map[] && committed == map[]
    {
      connected, assignment, position, committed, fetchedFrom := false, {}, map[], map[], map[];
    }

    /**
      Hands out the readable records of a batch, each once, in offset order within a partition, and
      remembers where the batch began; so it does also when it raises because of a record's headers, with the
      positions already behind the batch.
     */
    method Poll(logs: Logs<E>, sizes: map<Partition, nat>) returns (polled: Polled)
      requires Fetchable(logs, assignment, position, sizes)
      modifies this`position, this`fetchedFrom
      ensures polled.NotConnected? <==> !connected
      ensures !connected ==> position == old(position) && fetchedFrom == old(fetchedFrom)
      ensures connected ==>
                && position.Keys == old(position).Keys
                && (forall p | p in position :: position[p] == old(position)[p] + if p in sizes then sizes[p] else 0)
                && (forall p :: p in fetchedFrom <==> p in sizes && sizes[p] > 0)
                && (forall p | p in fetchedFrom :: fetchedFrom[p] == old(position)[p])
      ensures connected ==> (polled.Raised? <==> HasBadHeaders(logs, old(position), sizes))
      ensures polled.Batch? ==>
                (forall at :: at in polled.events <==> at in Readable(logs, old(position), sizes)) && OffsetsAscend(polled.events)
    {
      if !connected {
        return NotConnected;
      }
      var from := position;
      position := Advanced(from, sizes);
      fetchedFrom := BatchStarts(from, sizes);
      var places: seq<Place> := [];
      var partitions := sizes.Keys;
      while partitions != {}
        invariant partitions <= sizes.Keys && position == Advanced(from, sizes) && fetchedFrom == BatchStarts(from, sizes)
        invariant forall p, o | p in sizes && p !in partitions && from[p] <= o < from[p] + sizes[p] :: !logs[p][o].BadHeaders?
        invariant forall at :: at in places <==> at in Readable(logs, from, sizes) && at.partition !in partitions
        invariant OffsetsAscend(places)
        decreases partitions
      {
        var p :| p in partitions;
        var parsed := ParseRecords(logs[p], p, from[p], sizes[p]);
        if parsed.None? {
          return Raised;
        }
        JoinAscending(places, parsed.value, p);
        places := places + parsed.value;
        partitions := partitions - {p};
      }
      polled := Batch(places);
    }

    /** Seeks every partition of the last batch that is still ours back to where the batch began. */
    method Rewind()
      modifies this`position
      ensures position.Keys == old(position).Keys
      ensures forall p | p in position ::
                position[p] == if connected && p in assignment && p in fetchedFrom then fetchedFrom[p] else old(position)[p]
    {
      if !connected {
        return;
      }
      var partitions := fetchedFrom.Keys;
      while partitions != {}
        invariant partitions <= fetchedFrom.Keys
        invariant position.Keys == old(position).Keys
        invariant forall p | p in position ::
                    position[p] == if p in assignment && p in fetchedFrom && p !in partitions then fetchedFrom[p] else old(position)[p]
        decreases partitions
      {
        var p :| p in partitions;
        if p in assignment && p in position {
          position := position[p := fetchedFrom[p]];
        }
        partitions := partitions - {p};
      }
    }

    /** Commits the positions of the assigned partitions; the batch start is forgotten only once the broker confirmed. */
    method Commit(confirmed: bool)
      modifies this`committed, this`fetchedFrom
      ensures !connected || !confirmed ==> committed == old(committed) && fetchedFrom == old(fetchedFrom)
      ensures connected && confirmed ==>
                && fetchedFrom == map[]
                && (forall p :: p in committed <==> p in old(committed) || (p in assignment && p in position))
                && (forall p | p in committed ::
                      committed[p] == if p in assignment && p in position then position[p] else old(committed)[p])
    {
      if connected && confirmed {
        committed := CommittedTo(committed, assignment, position);
        fetchedFrom := map[];
      }
    }
  }

  function CommittedTo(committed: map<Partition, nat>, assignment: set<Partition>, position: map<Partition, nat>): map<Partition, nat> {
    committed + map p | p in assignment && p in position :: position[p]
  }

  // ----- The group: any number of such consumers, a broker that rebalances, and crashes -----

  /**
    `pending` are the records of the last batch that still need the worker. After a poll that raised, `stuck`,
    they are the whole batch, and only a rewind goes on from there.
   */
  datatype Consumer = Consumer(assignment: set<Partition>, position: map<Partition, nat>, fetchedFrom: map<Partition, nat>,
                               pending: set<Place>, stuck: bool)

  datatype Group<E> = Group(logs: Logs<E>, committed: map<Partition, nat>, consumers: map<ConsumerId, Consumer>, handled: seq<Place>)

  datatype Step<E> =
    | Publish(partition: Partition, entry: Entry<E>)
    | Join(id: ConsumerId)
    | Assign(id: ConsumerId, partition: Partition)
    | Revoke(id: ConsumerId, partition: Partition)
    | Poll(id: ConsumerId, sizes: map<Partition, nat>)
    | PollRaises(id: ConsumerId, sizes: map<Partition, nat>)
    | Handle(id: ConsumerId, at: Place)
    | Rewind(id: ConsumerId)
    | Commit(id: ConsumerId)
    | CommitUnconfirmed(id: ConsumerId)
    | Crash(id: ConsumerId)

  function Offset(committed: map<Partition, nat>, p: Partition): nat {
    if p in committed then committed[p] else 0
  }

  function LogOf<E>(logs: Logs<E>, p: Partition): seq<Entry<E>> {
    if p in logs then logs[p] else []
  }

  /** When the loop of a worker, the client and the broker let a step happen. */
  ghost predicate Possible<E(!new)>(g: Group<E>, step: Step<E>) {
    match step
    case Publish(_, _) => true
    case Join(id) => id !in g.consumers
    case Assign(id, p) => id in g.consumers && forall other | other in g.consumers :: p !in g.consumers[other].assignment
    case Poll(id, sizes) =>
      id in g.consumers && g.consumers[id].pending == {} && Fetchable(g.logs, g.consumers[id].assignment, g.consumers[id].position, sizes)
      && !HasBadHeaders(g.logs, g.consumers[id].position, sizes)
    case PollRaises(id, sizes) =>
      id in g.consumers && g.consumers[id].pending == {} && Fetchable(g.logs, g.consumers[id].assignment, g.consumers[id].position, sizes)
      && HasBadHeaders(g.logs, g.consumers[id].position, sizes)
    case Handle(id, at) =>
      id in g.consumers && at in g.consumers[id].pending && !g.consumers[id].stuck
      && InLog(g.logs, at) && g.logs[at.partition][at.offset].Parsable?
    case Commit(id) => id in g.consumers && g.consumers[id].pending == {}
    case CommitUnconfirmed(id) => id in g.consumers && g.consumers[id].pending == {}
    case Revoke(id, _) => id in g.consumers
    case Rewind(id) => id in g.consumers
    case Crash(id) => id in g.consumers
  }

  ghost function Next<E(!new)>(g: Group<E>, step: Step<E>): Group<E>
    requires Possible(g, step)
  {
    match step
    case Publish(p, entry) => g.(logs := g.logs[p := LogOf(g.logs, p) + [entry]])
    case Join(id) => g.(consumers := g.consumers[id := Consumer({}, map[], map[], {}, false)])
    case Assign(id, p) =>
      var c := g.consumers[id];
      g.(consumers := g.consumers[id := c.(assignment := c.assignment + {p}, position := c.position[p := Offset(g.committed, p)])])
    case Revoke(id, p) =>
      var c := g.consumers[id];
      g.(consumers := g.consumers[id := c.(assignment := c.assignment - {p}, position := c.position - {p})])
    case Poll(id, sizes) =>
      var c := g.consumers[id];
      g.(consumers := g.consumers[id := c.(position := Advanced(c.position, sizes), fetchedFrom := BatchStarts(c.position, sizes),
                                           pending := Readable(g.logs, c.position, sizes))])
    case PollRaises(id, sizes) =>
      var c := g.consumers[id];
      g.(consumers := g.consumers[id := c.(position := Advanced(c.position, sizes), fetchedFrom := BatchStarts(c.position, sizes),
                                           pending := Held(g.logs, c.position, sizes), stuck := true)])
    case Handle(id, at) =>
      var c := g.consumers[id];
      g.(consumers := g.consumers[id := c.(pending := c.pending - {at})], handled := g.handled + [at])
    case Rewind(id) =>
      var c := g.consumers[id];
      g.(consumers := g.consumers[id := c.(position := Sought(c.assignment, c.position, c.fetchedFrom), pending := {}, stuck := false)])
    case Commit(id) =>
      var c := g.consumers[id];
      g.(committed := CommittedTo(g.committed, c.assignment, c.position), consumers := g.consumers[id := c.(fetchedFrom := map[])])
    case CommitUnconfirmed(id) =>
      // The broker wrote the offsets, the answer was lost: the worker will rewind.
      var c := g.consumers[id];
      g.(committed := CommittedTo(g.committed, c.assignment, c.position))
    case Crash(id) => g.(consumers := g.consumers - {id})
  }

  /** The record needs nothing more: it was handled, or nobody can read it. */
  ghost predicate Done<E>(g: Group<E>, at: Place) {
    InLog(g.logs, at) && (at in g.handled || g.logs[at.partition][at.offset].Unparsable?)
  }

  ghost predicate DoneBelow<E>(g: Group<E>, p: Partition, offset: nat) {
    forall o: nat | o < offset :: Done(g, Place(p, o))
  }

  /** Whatever lies below a consumer's position is done or waits in its hands. */
  ghost predicate Accounted<E>(g: Group<E>, c: Consumer) {
    && (forall p, o: nat | p in c.assignment && p in c.position && o < c.position[p] :: Done(g, Place(p, o)) || Place(p, o) in c.pending)
    && (forall p | p in c.fetchedFrom :: DoneBelow(g, p, c.fetchedFrom[p]))
    && (forall at | at in c.pending :: InLog(g.logs, at) && at.partition in c.fetchedFrom && c.fetchedFrom[at.partition] <= at.offset)
  }

  ghost predicate Safe<E>(g: Group<E>) {
    && (forall p | p in g.committed :: DoneBelow(g, p, g.committed[p]))
    && (forall id | id in g.consumers :: Accounted(g, g.consumers[id]))
    && (forall i | 0 <= i < |g.handled| ::
          InLog(g.logs, g.handled[i]) && g.logs[g.handled[i].partition][g.handled[i].offset].Parsable?)
  }

  ghost predicate Keeps<E>(g: Group<E>, d: Group<E>) {
    && (forall at | InLog(g.logs, at) :: InLog(d.logs, at) && d.logs[at.partition][at.offset] == g.logs[at.partition][at.offset])
    && g.handled <= d.handled
  }

  lemma StepOnlyAdds<E(!new)>(g: Group<E>, step: Step<E>)
    requires Possible(g, step)
    ensures Keeps(g, Next(g, step))
  {
  }

  lemma AccountedLater<E>(g: Group<E>, d: Group<E>, c: Consumer)
    requires Keeps(g, d) && Accounted(g, c)
    ensures Accounted(d, c)
  {
    forall at | Done(g, at) ensures Done(d, at) {}
    forall p | p in c.fetchedFrom ensures DoneBelow(d, p, c.fetchedFrom[p]) { assert DoneBelow(g, p, c.fetchedFrom[p]); }
  }

  /** The acting consumer stays accounted for, whatever it does. */
  lemma ActorAccounted<E(!new)>(g: Group<E>, step: Step<E>, id: ConsumerId)
    requires Safe(g) && Possible(g, step) && !step.Publish? && step.id == id && id in Next(g, step).consumers
    ensures Accounted(Next(g, step), Next(g, step).consumers[id])
  {
    var d := Next(g, step);
    StepOnlyAdds(g, step);
    if id in g.consumers {
      var c := g.consumers[id];
      assert Accounted(g, c);
      AccountedLater(g, d, c);
      match step
      case Assign(_, p) =>
        assert p in g.committed ==> DoneBelow(g, p, g.committed[p]);
      case Poll(_, sizes) =>
        assert Readable(g.logs, c.position, sizes) == Held(g.logs, c.position, sizes);
        PolledAccounted(g, c, sizes, d, c.stuck);
      case PollRaises(_, sizes) => PolledAccounted(g, c, sizes, d, true);
      case Rewind(_) =>
        forall p, o: nat | p in c.assignment && p in c.fetchedFrom && o < c.fetchedFrom[p]
          ensures Done(d, Place(p, o))
        { assert DoneBelow(d, p, c.fetchedFrom[p]); }
        forall p, o: nat | p in c.assignment && p in c.position && p !in c.fetchedFrom && o < c.position[p]
          ensures Done(d, Place(p, o))
        { assert Place(p, o) !in c.pending; }
      case _ =>
    }
  }

  lemma PolledAccounted<E(!new)>(g: Group<E>, c: Consumer, sizes: map<Partition, nat>, d: Group<E>, stuck: bool)
    requires Accounted(g, c) && c.pending == {} && Fetchable(g.logs, c.assignment, c.position, sizes)
    requires d.logs == g.logs && d.handled == g.handled
    ensures Accounted(d, c.(position := Advanced(c.position, sizes), fetchedFrom := BatchStarts(c.position, sizes),
                            pending := Held(g.logs, c.position, sizes), stuck := stuck))
  {
    var n := c.(position := Advanced(c.position, sizes), fetchedFrom := BatchStarts(c.position, sizes),
                pending := Held(g.logs, c.position, sizes), stuck := stuck);
    forall p, o: nat | p in n.assignment && p in n.position && o < n.position[p]
      ensures Done(d, Place(p, o)) || Place(p, o) in n.pending
    {
      if o < c.position[p] { assert Done(g, Place(p, o)); }
    }
    forall p | p in n.fetchedFrom
      ensures DoneBelow(d, p, n.fetchedFrom[p])
    {
      forall o: nat | o < c.position[p] ensures Done(d, Place(p, o)) { assert Done(g, Place(p, o)); }
    }
  }

  lemma CommittedStaysDone<E(!new)>(g: Group<E>, step: Step<E>, p: Partition)
    requires Safe(g) && Possible(g, step) && p in Next(g, step).committed
    ensures DoneBelow(Next(g, step), p, Next(g, step).committed[p])
  {
    var d := Next(g, step);
    StepOnlyAdds(g, step);
    forall at | Done(g, at) ensures Done(d, at) {}
    if p in g.committed { assert DoneBelow(g, p, g.committed[p]); }
    if step.Commit? || step.CommitUnconfirmed? {
      var c := g.consumers[step.id];
      assert Accounted(g, c);
    }
  }

  lemma StepKeepsSafe<E(!new)>(g: Group<E>, step: Step<E>)
    requires Safe(g) && Possible(g, step)
    ensures Safe(Next(g, step))
  {
    var d := Next(g, step);
    StepOnlyAdds(g, step);
    forall p | p in d.committed ensures DoneBelow(d, p, d.committed[p]) { CommittedStaysDone(g, step, p); }
    forall id | id in d.consumers
      ensures Accounted(d, d.consumers[id])
    {
      if !step.Publish? && step.id == id {
        ActorAccounted(g, step, id);
      } else {
        AccountedLater(g, d, g.consumers[id]);
      }
    }
    forall i | 0 <= i < |d.handled|
      ensures InLog(d.logs, d.handled[i]) && d.logs[d.handled[i].partition][d.handled[i].offset].Parsable?
    {
      if i < |g.handled| { assert d.handled[i] == g.handled[i]; }
    }
  }

  ghost function Run<E(!new)>(g: Group<E>, steps: seq<Step<E>>): Group<E>
    requires Legal(g, steps)
    decreases |steps|, 1
  {
    if steps == [] then g else Next(Run(g, steps[..|steps| - 1]), steps[|steps| - 1])
  }

  ghost predicate Legal<E(!new)>(g: Group<E>, steps: seq<Step<E>>)
    decreases |steps|, 0
  {
    steps == [] || (Legal(g, steps[..|steps| - 1]) && Possible(Run(g, steps[..|steps| - 1]), steps[|steps| - 1]))
  }

  /** A group nobody has joined yet over logs that may already hold records. */
  ghost predicate Started<E>(g: Group<E>) {
    g.committed == map[] && g.consumers == map[] && g.handled == []
  }

  /**
    Under any schedule of polls, failures, rewinds, lost confirmations, rebalances and crashes, every
    record below a committed offset was handled or is unreadable, and an unhandled readable record is
    never behind a consumer that does not hold it: no tail of a batch is skipped.
   */
  lemma {:induction false} NothingIsSkipped<E(!new)>(start: Group<E>, steps: seq<Step<E>>)
    requires Started(start) && Legal(start, steps)
    ensures var g := Run(start, steps);
            && Safe(g)
            && (forall p, o: nat | o < Offset(g.committed, p) :: Done(g, Place(p, o)))
            && forall id, p, o: nat | id in g.consumers && p in g.consumers[id].assignment && p in g.consumers[id].position
                                      && InLog(g.logs, Place(p, o)) && !Done(g, Place(p, o)) ::
                 o >= g.consumers[id].position[p] || Place(p, o) in g.consumers[id].pending
  {
    if steps != [] {
      NothingIsSkipped(start, steps[..|steps| - 1]);
      StepKeepsSafe(Run(start, steps[..|steps| - 1]), steps[|steps| - 1]);
    }
    var g := Run(start, steps);
    forall p, o: nat | o < Offset(g.committed, p) ensures Done(g, Place(p, o)) { assert DoneBelow(g, p, g.committed[p]); }
    forall id, p, o: nat | id in g.consumers && p in g.consumers[id].assignment && p in g.consumers[id].position
                           && InLog(g.logs, Place(p, o)) && !Done(g, Place(p, o))
      ensures o >= g.consumers[id].position[p] || Place(p, o) in g.consumers[id].pending
    {
      assert Accounted(g, g.consumers[id]);
    }
  }

  /**
    A record whose headers cannot be decoded holds up its partition: no committed offset of any run ever passes
    it, however often consumers rewind, crash and take over.
   */
  lemma BadHeadersBlock<E(!new)>(start: Group<E>, steps: seq<Step<E>>, at: Place)
    requires Started(start) && Legal(start, steps)
    requires InLog(Run(start, steps).logs, at) && Run(start, steps).logs[at.partition][at.offset].BadHeaders?
    ensures Offset(Run(start, steps).committed, at.partition) <= at.offset
  {
    NothingIsSkipped(start, steps);
    var g := Run(start, steps);
    assert at !in g.handled && !Done(g, at);
    assert at == Place(at.partition, at.offset);
  }

  // ----- Progress -----

  /** A worker that has handled its batch and commits moves the group's offsets to where it stands. */
  lemma CommitMovesOffsets<E(!new)>(g: Group<E>, id: ConsumerId, p: Partition)
    requires Possible(g, Commit(id)) && p in g.consumers[id].assignment && p in g.consumers[id].position
    ensures Offset(Next(g, Commit(id)).committed, p) == g.consumers[id].position[p]
    ensures Offset(Next(g, CommitUnconfirmed(id)).committed, p) == g.consumers[id].position[p]
  {
  }

  /** Whoever takes a partition over goes on exactly at its committed offset. */
  lemma TakeoverResumes<E(!new)>(g: Group<E>, id: ConsumerId, p: Partition)
    requires Possible(g, Assign(id, p))
    ensures var c := Next(g, Assign(id, p)).consumers[id];
            p in c.assignment && p in c.position && c.position[p] == if p in g.committed then g.committed[p] else 0
  {
  }

  /** After a failure the rewind undoes the poll: the next poll starts where the failed one did. */
  lemma RewindUndoesPoll<E(!new)>(g: Group<E>, id: ConsumerId, sizes: map<Partition, nat>)
    requires Possible(g, Poll(id, sizes)) || Possible(g, PollRaises(id, sizes))
    ensures var polled := if Possible(g, Poll(id, sizes)) then Next(g, Poll(id, sizes)) else Next(g, PollRaises(id, sizes));
            var c := Next(polled, Rewind(id)).consumers[id];
            && c.pending == {} && !c.stuck && c.position.Keys == g.consumers[id].position.Keys
            && forall p | p in c.position && p in c.assignment :: c.position[p] == g.consumers[id].position[p]
  {
  }

  /** A batch handed out is the readable part of the next records, and the worker stands behind it. */
  lemma PollHandsOutTheNext<E(!new)>(g: Group<E>, id: ConsumerId, sizes: map<Partition, nat>, at: Place)
    requires Possible(g, Poll(id, sizes))
    ensures var c, d := g.consumers[id], Next(g, Poll(id, sizes)).consumers[id];
            && (at in d.pending <==>
                  && at.partition in sizes && c.position[at.partition] <= at.offset < c.position[at.partition] + sizes[at.partition]
                  && g.logs[at.partition][at.offset].Parsable?)
            && forall p | p in sizes :: p in d.position && d.position[p] == c.position[p] + sizes[p]
  {
  }
}
