/**
  Whole runs of a conversation: sends, deliveries in any order and number, receipts, lost rows,
  list reads and erasures interleaved at will.
 */
module UnreadRuns {
  import opened Wrappers
  import opened Unread
  import R = Receipts

  datatype Step =
    | Send(sender: UserId, at: int)
    | Deliver(event: MessageCreated)
    | Receipt(reader: UserId, receipts: R.Receipts, headSeen: nat)
    | LoseRows(lost: set<UserId>)
    | Restore(viewer: UserId)
    | Erase(author: UserId)

  /** What the surrounding code guarantees of a step: only members send, and only published facts are delivered. */
  ghost predicate Possible(c: Conversation, step: Step) {
    match step
    case Send(sender, at) =>
      && sender in ActiveMembers(c)
      && forall u | u in c.members :: c.members[u].joinedAt <= at
    case Deliver(e) => Genuine(c, e)
    case Receipt(_, _, headSeen) => headSeen <= c.lastSeq
    case _ => true
  }

  ghost function Next(c: Conversation, step: Step): Conversation {
    match step
    case Send(sender, at) => AfterSend(c, sender, at)
    case Deliver(e) => AfterEvent(c, e)
    case Receipt(reader, r, headSeen) => AfterReceipt(c, reader, r, headSeen)
    case LoseRows(lost) => AfterLoss(c, lost)
    case Restore(viewer) => AfterRestore(c, viewer)
    case Erase(author) => AfterErasure(c, author)
  }

  ghost function Run(c: Conversation, steps: seq<Step>): Conversation {
    if steps == [] then c else Next(Run(c, steps[..|steps| - 1]), steps[|steps| - 1])
  }

  ghost predicate Legal(c: Conversation, steps: seq<Step>) {
    steps == [] || (Legal(c, steps[..|steps| - 1]) && Possible(Run(c, steps[..|steps| - 1]), steps[|steps| - 1]))
  }

  /** A direct conversation as it is created: both members in place, nothing sent, read or counted. */
  ghost predicate Started(c: Conversation) {
    && c.lastSeq == 0 == c.checkpoint
    && c.log == map[] && c.facts == map[] && c.marks == map[] && c.rows == map[]
    && forall u | u in c.members :: c.members[u].leftAt.None?
  }

  lemma MembersAreFixed(c: Conversation, step: Step)
    ensures Next(c, step).members == c.members
  {
  }

  lemma StepKeepsSound(c: Conversation, step: Step)
    requires Sound(c) && Possible(c, step)
    ensures Sound(Next(c, step))
  {
    match step
    case Send(sender, at) => SendMeaning(c, sender, at);
    case Deliver(e) => EventKeepsSound(c, e);
    case Receipt(reader, r, headSeen) => ReceiptKeepsSound(c, reader, r, headSeen);
    case LoseRows(lost) => LossMeaning(c, lost);
    case Restore(viewer) => RestoreKeepsSound(c, viewer);
    case Erase(author) => ErasureMeaning(c, author);
  }

  lemma {:induction false} RunKeepsSound(c: Conversation, steps: seq<Step>)
    requires Sound(c) && Legal(c, steps)
    ensures Sound(Run(c, steps)) && Run(c, steps).members == c.members
  {
    if steps != [] {
      RunKeepsSound(c, steps[..|steps| - 1]);
      StepKeepsSound(Run(c, steps[..|steps| - 1]), steps[|steps| - 1]);
      MembersAreFixed(Run(c, steps[..|steps| - 1]), steps[|steps| - 1]);
    }
  }

  lemma {:induction false} UnerasedStaysWhole(c: Conversation, steps: seq<Step>, reader: UserId)
    requires Sound(c) && Whole(c, reader) && Legal(c, steps) && Erase(reader) !in steps
    ensures Whole(Run(c, steps), reader)
  {
    if steps != [] {
      var before, step := steps[..|steps| - 1], steps[|steps| - 1];
      RunKeepsSound(c, before);
      UnerasedStaysWhole(c, before, reader);
      if step.Erase? { ErasureMeaning(Run(c, before), step.author); }
    }
  }

  /**
    In every reachable state, every row that exists is the number of foreign messages above the reader's
    mark and not above the checkpoint, for every reader who was not themselves erased.
   */
  lemma EveryReachableRowIsRight(c: Conversation, steps: seq<Step>)
    requires Started(c) && Legal(c, steps)
    ensures var d := Run(c, steps);
            forall u | u in d.rows && Erase(u) !in steps ::
              d.rows[u] == |set s | s in d.log && ReadSeq(d, u) < s <= d.checkpoint && d.log[s].sender != Some(u)|
    ensures forall s :: s in Run(c, steps).log <==> 1 <= s <= Run(c, steps).lastSeq
    ensures ReadsBounded(Run(c, steps)) && Run(c, steps).checkpoint <= Run(c, steps).lastSeq
  {
    RunKeepsSound(c, steps);
    var d := Run(c, steps);
    forall u | u in d.rows && Erase(u) !in steps
      ensures d.rows[u] == |set s | s in d.log && ReadSeq(d, u) < s <= d.checkpoint && d.log[s].sender != Some(u)|
    {
      UnerasedStaysWhole(c, steps, u);
      assert RowRight(d, u);
      PositionsSpelledOut(d, u);
    }
  }

  lemma PositionsSpelledOut(c: Conversation, u: UserId)
    ensures UnreadPositions(c, u, ReadSeq(c, u), c.checkpoint) ==
            set s | s in c.log && ReadSeq(c, u) < s <= c.checkpoint && c.log[s].sender != Some(u)
  {
  }

  // ----- Effective exactly-once -----

  ghost predicate AllWhole(c: Conversation) {
    forall u | u in c.members :: Whole(c, u)
  }

  /** The simple form: count everything from scratch through `through`, once. */
  ghost function Settle(c: Conversation, through: nat): Conversation {
    if through <= c.checkpoint then c
    else c.(checkpoint := through, rows := map u | u in c.members :: Recount(c, u, through))
  }

  ghost function DeliverAll(c: Conversation, schedule: seq<MessageCreated>): Conversation {
    if schedule == [] then c else AfterEvent(DeliverAll(c, schedule[..|schedule| - 1]), schedule[|schedule| - 1])
  }

  ghost function Highest(least: nat, schedule: seq<MessageCreated>): nat {
    if schedule == [] then least
    else R.Max(Highest(least, schedule[..|schedule| - 1]), schedule[|schedule| - 1].seqNo)
  }

  /** The facts after the checkpoint, each once, in order. */
  ghost function InOrder(c: Conversation, through: nat): seq<MessageCreated>
    requires Numbered(c) && c.checkpoint <= through <= c.lastSeq
  {
    seq(through - c.checkpoint, i requires 0 <= i < through - c.checkpoint => c.facts[c.checkpoint + 1 + i])
  }

  lemma EventSettles(c: Conversation, e: MessageCreated)
    requires Sound(c) && AllWhole(c) && Genuine(c, e)
    ensures AfterEvent(c, e) == Settle(c, e.seqNo)
  {
    EventMeaning(c, e);
    if e.seqNo > c.checkpoint {
      assert AfterEvent(c, e).rows == Settle(c, e.seqNo).rows;
    }
  }

  lemma SettleTwice(c: Conversation, a: nat, b: nat)
    ensures Settle(Settle(c, a), b) == Settle(c, R.Max(a, b))
  {
    var d := Settle(c, a);
    forall u | u in c.members ensures Recount(d, u, b) == Recount(c, u, b) { SameCounts(c, d, u, b); }
    if b > d.checkpoint {
      assert Settle(d, b).rows == Settle(c, b).rows;
    }
  }

  lemma {:induction false} ScheduleSettles(c: Conversation, schedule: seq<MessageCreated>)
    requires Sound(c) && AllWhole(c) && forall i :: 0 <= i < |schedule| ==> Genuine(c, schedule[i])
    ensures DeliverAll(c, schedule) == Settle(c, Highest(c.checkpoint, schedule))
    ensures Sound(DeliverAll(c, schedule))
  {
    if schedule != [] {
      var before, e := schedule[..|schedule| - 1], schedule[|schedule| - 1];
      ScheduleSettles(c, before);
      var d := DeliverAll(c, before);
      forall u | u in d.members ensures Whole(d, u) { assert Whole(c, u); }
      EventSettles(d, e);
      EventKeepsSound(d, e);
      SettleTwice(c, Highest(c.checkpoint, before), e.seqNo);
    }
  }

  lemma {:induction false} HighestIsMaximum(least: nat, schedule: seq<MessageCreated>)
    ensures Highest(least, schedule) >= least
    ensures forall i :: 0 <= i < |schedule| ==> schedule[i].seqNo <= Highest(least, schedule)
    ensures Highest(least, schedule) == least || exists i :: 0 <= i < |schedule| && schedule[i].seqNo == Highest(least, schedule)
  {
    if schedule != [] {
      var n := |schedule| - 1;
      HighestIsMaximum(least, schedule[..n]);
      forall i | 0 <= i < |schedule| ensures schedule[i].seqNo <= Highest(least, schedule) {
        if i < n { assert schedule[..n][i] == schedule[i]; }
      }
      if Highest(least, schedule) == schedule[n].seqNo {
      } else if Highest(least, schedule) != least {
        var i :| 0 <= i < n && schedule[..n][i].seqNo == Highest(least, schedule[..n]);
        assert schedule[i].seqNo == Highest(least, schedule);
      }
    }
  }

  lemma HighestInLog(c: Conversation, schedule: seq<MessageCreated>)
    requires Sound(c) && forall i :: 0 <= i < |schedule| ==> Genuine(c, schedule[i])
    ensures c.checkpoint <= Highest(c.checkpoint, schedule) <= c.lastSeq
  {
    HighestIsMaximum(c.checkpoint, schedule);
    if Highest(c.checkpoint, schedule) != c.checkpoint {
      var i :| 0 <= i < |schedule| && schedule[i].seqNo == Highest(c.checkpoint, schedule);
      assert Genuine(c, schedule[i]);
    }
  }

  lemma HighestInOrder(c: Conversation, through: nat)
    requires Sound(c) && c.checkpoint <= through <= c.lastSeq
    ensures forall i :: 0 <= i < |InOrder(c, through)| ==> Genuine(c, InOrder(c, through)[i])
    ensures Highest(c.checkpoint, InOrder(c, through)) == through
  {
    var once := InOrder(c, through);
    forall i | 0 <= i < |once| ensures Genuine(c, once[i]) && once[i].seqNo == c.checkpoint + 1 + i {}
    HighestIsMaximum(c.checkpoint, once);
    if through > c.checkpoint {
      assert once[through - c.checkpoint - 1].seqNo == through;
    }
  }

  /**
    Any schedule of deliveries, with repeats, gaps and disorder, ends in the very state that delivering
    each fact once and in order up to the highest delivered number would give.
   */
  lemma EffectivelyExactlyOnce(c: Conversation, schedule: seq<MessageCreated>)
    requires Sound(c) && AllWhole(c) && forall i :: 0 <= i < |schedule| ==> Genuine(c, schedule[i])
    ensures c.checkpoint <= Highest(c.checkpoint, schedule) <= c.lastSeq
    ensures DeliverAll(c, schedule) == DeliverAll(c, InOrder(c, Highest(c.checkpoint, schedule)))
    ensures DeliverAll(c, schedule).checkpoint == Highest(c.checkpoint, schedule)
  {
    HighestInLog(c, schedule);
    var once := InOrder(c, Highest(c.checkpoint, schedule));
    HighestInOrder(c, Highest(c.checkpoint, schedule));
    ScheduleSettles(c, schedule);
    ScheduleSettles(c, once);
  }

  // ----- Confluence of whole runs -----

  /** The accepted receipts of one reader, in the order they were written. */
  ghost function ReceiptsOf(c: Conversation, steps: seq<Step>, reader: UserId): (rs: seq<R.Receipts>)
    ensures forall i :: 0 <= i < |rs| ==> R.Validate(rs[i]).None?
  {
    if steps == [] then []
    else
      var before, step := ReceiptsOf(c, steps[..|steps| - 1], reader), steps[|steps| - 1];
      if step.Receipt? && step.reader == reader && reader in c.members && R.Accepted(step.receipts, step.headSeen)
      then before + [step.receipts] else before
  }

  ghost function DeliveredIn(steps: seq<Step>): set<nat> {
    set i | 0 <= i < |steps| && steps[i].Deliver? :: steps[i].event.seqNo
  }

  /** What a run did to the log: sends and erasures, in order. */
  ghost function WritesIn(steps: seq<Step>): seq<Step> {
    if steps == [] then []
    else
      var before, step := WritesIn(steps[..|steps| - 1]), steps[|steps| - 1];
      if step.Send? || step.Erase? then before + [step] else before
  }

  ghost predicate WithoutRestores(steps: seq<Step>) {
    forall i :: 0 <= i < |steps| ==> !steps[i].Restore?
  }

  /** A step moves a reader's mark only by that reader's own accepted receipt. */
  lemma MarkAfterStep(c: Conversation, step: Step, reader: UserId)
    requires Sound(c) && Possible(c, step)
    ensures var own := step.Receipt? && step.reader == reader && reader in c.members && R.Accepted(step.receipts, step.headSeen);
            && (own ==> StoredRead(Next(c, step), reader) == Some(R.Upsert(StoredRead(c, reader), R.StateOf(step.receipts))))
            && (!own ==> StoredRead(Next(c, step), reader) == StoredRead(c, reader))
  {
    if step.Receipt? {
      assert step.reader in ActiveMembers(c) <==> step.reader in c.members;
    }
  }

  /** The stored marks are the join of the accepted receipts. */
  lemma {:induction false} MarksOfRun(c: Conversation, steps: seq<Step>, reader: UserId)
    requires Started(c) && Legal(c, steps)
    ensures StoredRead(Run(c, steps), reader) == R.Stored(ReceiptsOf(c, steps, reader))
  {
    if steps != [] {
      var before, step := steps[..|steps| - 1], steps[|steps| - 1];
      MarksOfRun(c, before, reader);
      RunKeepsSound(c, before);
      MarkAfterStep(Run(c, before), step, reader);
      if step.Receipt? {
        var rs := ReceiptsOf(c, before, reader);
        assert (rs + [step.receipts])[..|rs|] == rs;
      }
    }
  }

  /** In any run the checkpoint has passed every number delivered. */
  lemma {:induction false} DeliveredIsPassed(c: Conversation, steps: seq<Step>, n: nat)
    requires n in DeliveredIn(steps)
    ensures n <= Run(c, steps).checkpoint
  {
    var before, step := steps[..|steps| - 1], steps[|steps| - 1];
    if step.Deliver? && step.event.seqNo == n {
    } else {
      var i :| 0 <= i < |steps| && steps[i].Deliver? && steps[i].event.seqNo == n;
      assert before[i] == steps[i];
      DeliveredIsPassed(c, before, n);
    }
  }

  /** Without restoring reads, the checkpoint is the highest number ever delivered. */
  lemma {:induction false} CheckpointOfRun(c: Conversation, steps: seq<Step>)
    requires Started(c) && Legal(c, steps) && WithoutRestores(steps)
    ensures forall n | n in DeliveredIn(steps) :: n <= Run(c, steps).checkpoint
    ensures Run(c, steps).checkpoint == 0 || Run(c, steps).checkpoint in DeliveredIn(steps)
  {
    if steps != [] {
      var before, step := steps[..|steps| - 1], steps[|steps| - 1];
      CheckpointOfRun(c, before);
      assert DeliveredIn(steps) == DeliveredIn(before) + (if step.Deliver? then {step.event.seqNo} else {}) by {
        forall i | 0 <= i < |before| ensures before[i] == steps[i] {}
        assert forall n :: n in DeliveredIn(before) ==> exists i :: 0 <= i < |steps| && steps[i].Deliver? && steps[i].event.seqNo == n;
      }
    }
  }

  ghost predicate SameMessages(c: Conversation, d: Conversation) {
    c.log == d.log && c.facts == d.facts && c.lastSeq == d.lastSeq && c.members == d.members
  }

  lemma OnlyWritesTouchTheLog(c: Conversation, step: Step)
    requires !step.Send? && !step.Erase?
    ensures SameMessages(c, Next(c, step))
  {
  }

  lemma WritesSeeOnlyTheLog(c: Conversation, d: Conversation, step: Step)
    requires SameMessages(c, d) && (step.Send? || step.Erase?)
    ensures SameMessages(Next(c, step), Next(d, step))
  {
  }

  /** The log is decided by the sends and the erasures alone. */
  lemma {:induction false} LogOfRun(c: Conversation, steps: seq<Step>)
    ensures SameMessages(Run(c, steps), Run(c, WritesIn(steps)))
  {
    if steps != [] {
      var before, step := steps[..|steps| - 1], steps[|steps| - 1];
      LogOfRun(c, before);
      if step.Send? || step.Erase? {
        assert WritesIn(steps)[..|WritesIn(before)|] == WritesIn(before);
        WritesSeeOnlyTheLog(Run(c, before), Run(c, WritesIn(before)), step);
      } else {
        OnlyWritesTouchTheLog(Run(c, before), step);
      }
    }
  }

  /** In sound conversations the rows depend only on the log, the marks and the checkpoint. */
  lemma RowsAreDetermined(a: Conversation, b: Conversation, reader: UserId)
    requires Sound(a) && Sound(b) && Whole(a, reader) && Whole(b, reader)
    requires a.log == b.log && a.checkpoint == b.checkpoint && StoredRead(a, reader) == StoredRead(b, reader)
    requires reader in a.rows && reader in b.rows
    ensures a.rows[reader] == b.rows[reader]
  {
    assert RowRight(a, reader) && RowRight(b, reader);
    assert ReadSeq(a, reader) == ReadSeq(b, reader);
    SameCounts(a, b, reader, a.checkpoint);
  }

  ghost predicate SameInputs(c: Conversation, one: seq<Step>, other: seq<Step>) {
    && WritesIn(one) == WritesIn(other)
    && DeliveredIn(one) == DeliveredIn(other)
    && forall u, r :: r in ReceiptsOf(c, one, u) <==> r in ReceiptsOf(c, other, u)
  }

  /**
    Two runs with the same sends and erasures, the same set of delivered numbers and, for each reader, the same set
    of accepted receipts, in whatever order and however often, end with the same log, marks and checkpoint.
   */
  lemma RunsConverge(c: Conversation, one: seq<Step>, other: seq<Step>)
    requires Started(c) && Legal(c, one) && Legal(c, other) && WithoutRestores(one) && WithoutRestores(other)
    requires SameInputs(c, one, other)
    ensures Run(c, one).log == Run(c, other).log
    ensures Run(c, one).checkpoint == Run(c, other).checkpoint
    ensures forall u :: StoredRead(Run(c, one), u) == StoredRead(Run(c, other), u)
  {
    LogOfRun(c, one);
    LogOfRun(c, other);
    CheckpointOfRun(c, one);
    CheckpointOfRun(c, other);
    forall u
      ensures StoredRead(Run(c, one), u) == StoredRead(Run(c, other), u)
    {
      MarksOfRun(c, one, u);
      MarksOfRun(c, other, u);
      R.OrderAndRepeatsDoNotMatter(ReceiptsOf(c, one, u), ReceiptsOf(c, other, u));
    }
  }

  /** Such runs also agree on every row that both of them kept, of a reader not erased. */
  lemma RowsConverge(c: Conversation, one: seq<Step>, other: seq<Step>, reader: UserId)
    requires Started(c) && Legal(c, one) && Legal(c, other) && WithoutRestores(one) && WithoutRestores(other)
    requires SameInputs(c, one, other)
    requires reader in Run(c, one).rows && reader in Run(c, other).rows && Erase(reader) !in one && Erase(reader) !in other
    ensures Run(c, one).rows[reader] == Run(c, other).rows[reader]
  {
    RunsConverge(c, one, other);
    RunKeepsSound(c, one);
    RunKeepsSound(c, other);
    UnerasedStaysWhole(c, one, reader);
    UnerasedStaysWhole(c, other, reader);
    RowsAreDetermined(Run(c, one), Run(c, other), reader);
  }

  /** How many replies to the reader's receipts tell of an advance: these are the ones that get announced. */
  ghost function AnnouncedIn(c: Conversation, steps: seq<Step>, reader: UserId): nat {
    if steps == [] then 0
    else
      var before, step := steps[..|steps| - 1], steps[|steps| - 1];
      AnnouncedIn(c, before, reader) +
      (if step.Receipt? && step.reader == reader && Announces(ReplyToReceipt(Run(c, before), reader, step.receipts, step.headSeen)) then 1 else 0)
  }

  predicate Announces(reply: ReceiptReply) {
    reply.Written? && R.AdvancedFrom(reply.previous, reply.state)
  }

  lemma ReplyOfReceipt(c: Conversation, reader: UserId, r: R.Receipts, headSeen: nat)
    requires Sound(c) && headSeen <= c.lastSeq
    ensures var reply := ReplyToReceipt(c, reader, r, headSeen);
            && (reply.Written? <==> reader in c.members && R.Accepted(r, headSeen))
            && (reply.Written? ==> reply.previous == StoredRead(c, reader) && reply.state == R.Upsert(StoredRead(c, reader), R.StateOf(r)))
  {
    ReceiptMeaning(c, reader, r, headSeen);
  }

  /** The replies that tell of an advance are as many as the receipts that moved the mark. */
  lemma {:induction false} AnnouncedAreTheAdvances(c: Conversation, steps: seq<Step>, reader: UserId)
    requires Started(c) && Legal(c, steps)
    ensures AnnouncedIn(c, steps, reader) == R.Advances(ReceiptsOf(c, steps, reader))
  {
    if steps != [] {
      var before, step := steps[..|steps| - 1], steps[|steps| - 1];
      AnnouncedAreTheAdvances(c, before, reader);
      if step.Receipt? && step.reader == reader {
        RunKeepsSound(c, before);
        MarksOfRun(c, before, reader);
        ReplyOfReceipt(Run(c, before), reader, step.receipts, step.headSeen);
        var rs := ReceiptsOf(c, before, reader);
        assert (rs + [step.receipts])[..|rs|] == rs;
      }
    }
  }

  /** Over a whole run a reader is announced at most two advances per message of the conversation. */
  lemma AnnouncementsBounded(c: Conversation, steps: seq<Step>, reader: UserId)
    requires Started(c) && Legal(c, steps)
    ensures AnnouncedIn(c, steps, reader) <= 2 * Run(c, steps).lastSeq
  {
    AnnouncedAreTheAdvances(c, steps, reader);
    ReceiptsUnderHead(c, steps, reader);
    R.AdvancesBounded(ReceiptsOf(c, steps, reader), Run(c, steps).lastSeq);
  }

  lemma {:induction false} ReceiptsUnderHead(c: Conversation, steps: seq<Step>, reader: UserId)
    requires Started(c) && Legal(c, steps)
    ensures R.AllAccepted(ReceiptsOf(c, steps, reader), Run(c, steps).lastSeq)
  {
    if steps != [] {
      var before, step := steps[..|steps| - 1], steps[|steps| - 1];
      ReceiptsUnderHead(c, before, reader);
      HeadsRise(Run(c, before), step);
      var rs := ReceiptsOf(c, before, reader);
      assert R.AllAccepted(rs, Run(c, steps).lastSeq);
      assert ReceiptsOf(c, steps, reader) == rs || (step.Receipt? && ReceiptsOf(c, steps, reader) == rs + [step.receipts]);
    }
  }

  lemma HeadsRise(c: Conversation, step: Step)
    ensures c.lastSeq <= Next(c, step).lastSeq
  {
  }
}
