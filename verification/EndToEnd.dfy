/**
  The stream and the projection together: what an arbitrary life of the consumer group
  means for the counters of one conversation.
 */
module EndToEnd {
  import opened Wrappers
  import opened Unread
  import opened UnreadRuns
  import K = Kafka

  type ConversationId = nat

  datatype Fact = Fact(conversation: ConversationId, event: MessageCreated)

  ghost predicate IsFactOf(logs: K.Logs<Fact>, at: K.Place, id: ConversationId) {
    K.InLog(logs, at) && logs[at.partition][at.offset].Parsable? && logs[at.partition][at.offset].event.conversation == id
  }

  /** The events of one conversation, in the order the workers handled them. */
  ghost function Schedule(logs: K.Logs<Fact>, handled: seq<K.Place>, id: ConversationId): seq<MessageCreated> {
    if handled == [] then []
    else
      var before, at := Schedule(logs, handled[..|handled| - 1], id), handled[|handled| - 1];
      if IsFactOf(logs, at, id) then before + [logs[at.partition][at.offset].event.event] else before
  }

  lemma {:induction false} ScheduleHolds(logs: K.Logs<Fact>, handled: seq<K.Place>, id: ConversationId)
    ensures forall e :: e in Schedule(logs, handled, id) <==>
              exists at :: at in handled && IsFactOf(logs, at, id) && logs[at.partition][at.offset].event.event == e
    ensures forall e :: e in Schedule(logs, handled, id) <==>
              exists at :: at in handled && K.InLog(logs, at) && logs[at.partition][at.offset] == K.Parsable(Fact(id, e))
  {
    if handled != [] {
      var n := |handled| - 1;
      ScheduleHolds(logs, handled[..n], id);
      assert forall at :: at in handled <==> at in handled[..n] || at == handled[n];
    }
  }

  /** The stream carries nothing for the conversation but its own facts: the outbox writes no others. */
  ghost predicate CarriesFacts(logs: K.Logs<Fact>, id: ConversationId, c: Conversation) {
    forall at | IsFactOf(logs, at, id) :: Genuine(c, logs[at.partition][at.offset].event.event)
  }

  ghost predicate Committed(g: K.Group<Fact>, id: ConversationId, seqNo: nat) {
    exists at :: IsFactOf(g.logs, at, id) && g.logs[at.partition][at.offset].event.event.seqNo == seqNo
                 && at.offset < K.Offset(g.committed, at.partition)
  }

  lemma CommittedIsScheduled(start: K.Group<Fact>, steps: seq<K.Step<Fact>>, id: ConversationId, seqNo: nat)
    requires K.Started(start) && K.Legal(start, steps) && Committed(K.Run(start, steps), id, seqNo)
    ensures var g := K.Run(start, steps);
            exists e :: e in Schedule(g.logs, g.handled, id) && e.seqNo == seqNo
  {
    var g := K.Run(start, steps);
    K.NothingIsSkipped(start, steps);
    ScheduleHolds(g.logs, g.handled, id);
    var at :| IsFactOf(g.logs, at, id) && g.logs[at.partition][at.offset].event.event.seqNo == seqNo
              && at.offset < K.Offset(g.committed, at.partition);
    assert K.Done(g, K.Place(at.partition, at.offset));
    assert g.logs[at.partition][at.offset].event.event in Schedule(g.logs, g.handled, id);
  }

  function FullCount(c: Conversation, reader: UserId): nat {
    |set s | s in c.log && s > ReadSeq(c, reader) && c.log[s].sender != Some(reader)|
  }

  lemma CountThroughHead(c: Conversation, reader: UserId)
    requires Numbered(c)
    ensures Recount(c, reader, c.lastSeq) == FullCount(c, reader)
  {
    assert UnreadPositions(c, reader, ReadSeq(c, reader), c.lastSeq) ==
           set s | s in c.log && s > ReadSeq(c, reader) && c.log[s].sender != Some(reader);
  }

  lemma SettledThroughHead(c: Conversation)
    requires Numbered(c) && c.checkpoint < c.lastSeq
    ensures Settle(c, c.lastSeq) == c.(checkpoint := c.lastSeq, rows := map u | u in c.members :: FullCount(c, u))
  {
    forall u | u in c.members ensures Recount(c, u, c.lastSeq) == FullCount(c, u) { CountThroughHead(c, u); }
  }

  lemma HighestIsHead(c: Conversation, schedule: seq<MessageCreated>)
    requires Sound(c) && forall i :: 0 <= i < |schedule| ==> Genuine(c, schedule[i])
    requires exists e :: e in schedule && e.seqNo == c.lastSeq
    ensures Highest(c.checkpoint, schedule) == c.lastSeq
  {
    HighestInLog(c, schedule);
    HighestIsMaximum(c.checkpoint, schedule);
  }

  /** A schedule that delivers the last message at least once leaves every row complete. */
  lemma LastDeliveredMeansCounted(c: Conversation, schedule: seq<MessageCreated>)
    requires Sound(c) && AllWhole(c) && c.checkpoint < c.lastSeq
    requires forall e | e in schedule :: Genuine(c, e)
    requires exists e :: e in schedule && e.seqNo == c.lastSeq
    ensures DeliverAll(c, schedule) == c.(checkpoint := c.lastSeq, rows := map u | u in c.members :: FullCount(c, u))
  {
    forall i | 0 <= i < |schedule| ensures Genuine(c, schedule[i]) { assert schedule[i] in schedule; }
    HighestIsHead(c, schedule);
    ScheduleSettles(c, schedule);
    SettledThroughHead(c);
  }

  /** The projection reaches the head if and only if the last message was delivered: an unreadable last fact leaves it behind. */
  lemma CaughtUpExactlyWhenLastDelivered(c: Conversation, schedule: seq<MessageCreated>)
    requires Sound(c) && AllWhole(c) && c.checkpoint < c.lastSeq
    requires forall e | e in schedule :: Genuine(c, e)
    ensures DeliverAll(c, schedule).checkpoint == c.lastSeq <==> exists e :: e in schedule && e.seqNo == c.lastSeq
  {
    forall i | 0 <= i < |schedule| ensures Genuine(c, schedule[i]) { assert schedule[i] in schedule; }
    EffectivelyExactlyOnce(c, schedule);
    HighestIsMaximum(c.checkpoint, schedule);
    if e :| e in schedule && e.seqNo == c.lastSeq {
      HighestIsHead(c, schedule);
    } else if Highest(c.checkpoint, schedule) != c.checkpoint {
      var i :| 0 <= i < |schedule| && schedule[i].seqNo == Highest(c.checkpoint, schedule);
      assert schedule[i] in schedule;
    }
  }

  /**
    However the group polled, failed, rewound, rebalanced and crashed: once a committed offset has passed
    the fact of the last message, the events handled on the way leave every member a row, and it is the
    number of foreign messages above that member's mark.
   */
  lemma CommittedMeansCounted(start: K.Group<Fact>, steps: seq<K.Step<Fact>>, id: ConversationId, c: Conversation)
    requires K.Started(start) && K.Legal(start, steps)
    requires Sound(c) && AllWhole(c) && c.checkpoint < c.lastSeq
    requires CarriesFacts(K.Run(start, steps).logs, id, c) && Committed(K.Run(start, steps), id, c.lastSeq)
    ensures var g := K.Run(start, steps);
            DeliverAll(c, Schedule(g.logs, g.handled, id)) ==
            c.(checkpoint := c.lastSeq, rows := map u | u in c.members :: FullCount(c, u))
  {
    var g := K.Run(start, steps);
    var schedule := Schedule(g.logs, g.handled, id);
    ScheduleHolds(g.logs, g.handled, id);
    CommittedIsScheduled(start, steps, id, c.lastSeq);
    LastDeliveredMeansCounted(c, schedule);
  }

  // ----- While the conversation goes on -----

  /** The events a run applied, in order. */
  ghost function DeliveriesOf(steps: seq<Step>): seq<MessageCreated> {
    if steps == [] then []
    else
      var before, step := DeliveriesOf(steps[..|steps| - 1]), steps[|steps| - 1];
      if step.Deliver? then before + [step.event] else before
  }

  lemma {:induction false} DeliveriesAreDelivered(steps: seq<Step>, e: MessageCreated)
    requires e in DeliveriesOf(steps)
    ensures e.seqNo in DeliveredIn(steps)
  {
    var before, step := steps[..|steps| - 1], steps[|steps| - 1];
    if !(step.Deliver? && step.event == e) {
      DeliveriesAreDelivered(before, e);
      var i :| 0 <= i < |before| && before[i].Deliver? && before[i].event.seqNo == e.seqNo;
      assert steps[i] == before[i];
    }
  }

  /**
    While the group lives, the conversation goes on: messages, receipts, lost rows, restoring reads and erasures come
    between the events the workers apply. Once a committed offset has passed the fact of the last message, the
    checkpoint is at the head, and every row there is, of a reader not erased, is the number of foreign messages above
    that reader's mark.
   */
  lemma CommittedMeansCountedInRun(start: K.Group<Fact>, life: seq<K.Step<Fact>>, id: ConversationId, c: Conversation, steps: seq<Step>)
    requires K.Started(start) && K.Legal(start, life) && Started(c) && Legal(c, steps)
    requires DeliveriesOf(steps) == Schedule(K.Run(start, life).logs, K.Run(start, life).handled, id)
    requires Committed(K.Run(start, life), id, Run(c, steps).lastSeq)
    ensures var d := Run(c, steps);
            && d.checkpoint == d.lastSeq
            && forall u | u in d.rows && Erase(u) !in steps :: d.rows[u] == FullCount(d, u)
  {
    var d, g := Run(c, steps), K.Run(start, life);
    CommittedIsScheduled(start, life, id, d.lastSeq);
    var e :| e in Schedule(g.logs, g.handled, id) && e.seqNo == d.lastSeq;
    DeliveriesAreDelivered(steps, e);
    DeliveredIsPassed(c, steps, d.lastSeq);
    RunKeepsSound(c, steps);
    forall u | u in d.rows && Erase(u) !in steps ensures d.rows[u] == FullCount(d, u) { RowAtTheHead(c, steps, u); }
  }

  lemma RowAtTheHead(c: Conversation, steps: seq<Step>, u: UserId)
    requires Started(c) && Legal(c, steps) && Run(c, steps).checkpoint == Run(c, steps).lastSeq
    requires u in Run(c, steps).rows && Erase(u) !in steps
    ensures Run(c, steps).rows[u] == FullCount(Run(c, steps), u)
  {
    var d := Run(c, steps);
    RunKeepsSound(c, steps);
    UnerasedStaysWhole(c, steps, u);
    assert RowRight(d, u);
    CountThroughHead(d, u);
  }
}
