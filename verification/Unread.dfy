/**
  One conversation and its unread projection.

  The source of truth is the message log and the read states; `rows` and `checkpoint` are derived from
  it, incrementally (`bump_unread`) or from scratch (`rebuild`, `recount_unread`). This module holds the
  state, the effect of every operation on it, and what each of them means for the counters.
 */
module Unread {
  import opened Sets
  import opened Wrappers
  import R = Receipts

  /** `sender` is empty once the author has been erased. */
  datatype Message = Message(sender: Option<UserId>, createdAt: int)

  datatype Member = Member(joinedAt: int, leftAt: Option<int>)

  /** The `message.created` fact as it travels through the stream. */
  datatype MessageCreated = MessageCreated(seqNo: nat, sender: UserId, recipients: Option<set<UserId>>)

  /**
    `facts` are the events written with each message. An absent row of `unread_offsets` and a zero in it
    mean the same, so `checkpoint` is a number; an absent row of `rows` is a lost projection row.
   */
  datatype Conversation = Conversation(
    members: map<UserId, Member>,
    log: map<nat, Message>,
    facts: map<nat, MessageCreated>,
    lastSeq: nat,
    marks: map<UserId, R.ReadState>,
    checkpoint: nat,
    rows: map<UserId, nat>)

  // ----- The predicate and the two counts taken from the source of truth -----

  predicate IsForeign(sender: Option<UserId>, reader: UserId) {
    sender.None? || sender.value != reader
  }

  predicate CountsAsUnread(sender: Option<UserId>, reader: UserId, seqNo: nat, lastRead: nat, appliedThrough: nat) {
    seqNo > lastRead && seqNo <= appliedThrough && IsForeign(sender, reader)
  }

  function UnreadPositions(c: Conversation, reader: UserId, above: nat, through: nat): set<nat> {
    set s | s in c.log && CountsAsUnread(c.log[s].sender, reader, s, above, through)
  }

  function ReadSeq(c: Conversation, reader: UserId): nat {
    if reader in c.marks then c.marks[reader].read else 0
  }

  /** What `recount_unread` counts: no membership window. */
  function Recount(c: Conversation, reader: UserId, through: nat): nat {
    |UnreadPositions(c, reader, ReadSeq(c, reader), through)|
  }

  predicate InWindow(m: Member, message: Message) {
    m.joinedAt <= message.createdAt && (m.leftAt.None? || m.leftAt.value > message.createdAt)
  }

  function RebuildPositions(c: Conversation, reader: UserId, through: nat): set<nat>
    requires reader in c.members
  {
    set s | s in UnreadPositions(c, reader, ReadSeq(c, reader), through) && InWindow(c.members[reader], c.log[s])
  }

  /** What `rebuild` counts for one participant: only messages of the time they were a member. */
  function RebuildCount(c: Conversation, reader: UserId, through: nat): nat
    requires reader in c.members
  {
    |RebuildPositions(c, reader, through)|
  }

  function ActiveMembers(c: Conversation): set<UserId> {
    set u | u in c.members && c.members[u].leftAt.None?
  }

  /** The rows `rebuild` writes: all active members, or the named ones among them. */
  function Rebuilt(c: Conversation, through: nat, named: Option<set<UserId>>): map<UserId, nat> {
    map u | u in ActiveMembers(c) && (named.None? || u in named.value) :: RebuildCount(c, u, through)
  }

  // ----- Applying one event -----

  datatype Reason = Gap | NoRecipients | MissingRows
  datatype Kind = Applied | Duplicate | RebuiltFor(reason: Reason) | ConversationGone

  /** `notices` are the absolute numbers announced to readers. */
  datatype Outcome = Outcome(kind: Kind, notices: map<UserId, nat>)

  function AffectedUsers(recipients: set<UserId>, sender: UserId): set<UserId> {
    recipients + {sender}
  }

  function Decide(c: Conversation, e: MessageCreated): Kind {
    if e.seqNo <= c.checkpoint then Duplicate
    else if e.recipients.None? then RebuiltFor(NoRecipients)
    else if e.seqNo > c.checkpoint + 1 then RebuiltFor(Gap)
    else if AffectedUsers(e.recipients.value, e.sender) <= c.rows.Keys then Applied
    else RebuiltFor(MissingRows)
  }

  /** One or zero, decided from the event and the reader's stored receipt. */
  function Delta(c: Conversation, e: MessageCreated, reader: UserId): nat {
    if CountsAsUnread(Some(e.sender), reader, e.seqNo, ReadSeq(c, reader), e.seqNo) then 1 else 0
  }

  /** The event continues the checkpoint and names its recipients: rows are handled one by one. */
  predicate Continues(c: Conversation, e: MessageCreated) {
    e.recipients.Some? && e.seqNo == c.checkpoint + 1
  }

  /** The rows a duplicate, the row-by-row step, or a rebuild of the whole conversation leaves behind. */
  function RowsAfter(c: Conversation, e: MessageCreated): map<UserId, nat> {
    if Decide(c, e).Duplicate? then c.rows
    else if Continues(c, e) then StepRows(c, e)
    else c.rows + Rebuilt(c, e.seqNo, None)
  }

  /** Surviving rows of affected users grow by their delta, lost ones are recounted through the event. */
  function StepRows(c: Conversation, e: MessageCreated): map<UserId, nat>
    requires e.recipients.Some?
  {
    var users := AffectedUsers(e.recipients.value, e.sender);
    map u | u in c.rows.Keys + (users * ActiveMembers(c)) ::
      if u !in c.rows then RebuildCount(c, u, e.seqNo)
      else if u in users then c.rows[u] + Delta(c, e, u)
      else c.rows[u]
  }

  function AfterEvent(c: Conversation, e: MessageCreated): Conversation {
    if Decide(c, e).Duplicate? then c else c.(rows := RowsAfter(c, e), checkpoint := e.seqNo)
  }

  /** Who is told: everyone rebuilt, and of the bumped ones those whose number grew. */
  function NoticesOf(c: Conversation, e: MessageCreated): map<UserId, nat> {
    if Decide(c, e).Duplicate? then map[]
    else if Continues(c, e) then StepNotices(c, e)
    else Rebuilt(c, e.seqNo, None)
  }

  function StepNotices(c: Conversation, e: MessageCreated): map<UserId, nat>
    requires e.recipients.Some?
  {
    var rows := StepRows(c, e);
    map u | u in rows && u in AffectedUsers(e.recipients.value, e.sender) &&
            (u !in c.rows || Delta(c, e, u) != 0) :: rows[u]
  }

  function OutcomeOf(c: Conversation, e: MessageCreated): Outcome {
    Outcome(Decide(c, e), NoticesOf(c, e))
  }

  // ----- The other operations on the conversation -----

  datatype ReceiptReply =
    | ConversationNotFound
    | NotAMember
    | Refused(fault: R.Fault)
    | Written(state: R.ReadState, previous: Option<R.ReadState>, unread: nat)

  function StoredRead(c: Conversation, reader: UserId): Option<R.ReadState> {
    if reader in c.marks then Some(c.marks[reader]) else None
  }

  /** `headSeen` is the head read before the transaction: it may be behind `lastSeq` by the time of the write. */
  function ReplyToReceipt(c: Conversation, reader: UserId, r: R.Receipts, headSeen: nat): ReceiptReply {
    if R.Validate(r).Some? then Refused(R.Validate(r).value)
    else if reader !in ActiveMembers(c) then NotAMember
    else if R.ValidateBound(r, headSeen).Some? then Refused(R.ValidateBound(r, headSeen).value)
    else
      var state := R.Upsert(StoredRead(c, reader), R.StateOf(r));
      Written(state, StoredRead(c, reader), |UnreadPositions(c, reader, state.read, c.checkpoint)|)
  }

  function AfterReceipt(c: Conversation, reader: UserId, r: R.Receipts, headSeen: nat): Conversation {
    match ReplyToReceipt(c, reader, r, headSeen)
    case Written(state, _, unread) => c.(marks := c.marks[reader := state], rows := c.rows[reader := unread])
    case _ => c
  }

  /** The rows a restoring transaction writes: everybody's through the head, or the viewer's alone when at the head already. */
  function RestoredRows(c: Conversation, viewer: UserId): map<UserId, nat> {
    if c.lastSeq > c.checkpoint then Rebuilt(c, c.lastSeq, None) else Rebuilt(c, c.checkpoint, Some({viewer}))
  }

  /**
    Restoring an entry of a list whose row was lost when the list was read. The transaction comes later and does not
    look for the row again: whatever has been written meanwhile is written over.
   */
  function AfterRestore(c: Conversation, viewer: UserId): Conversation {
    c.(rows := c.rows + RestoredRows(c, viewer), checkpoint := if c.lastSeq > c.checkpoint then c.lastSeq else c.checkpoint)
  }

  /** The number a list shows: the row of the conversation as read, or what a restore of it as found later gives. */
  function ListedCount(read: Conversation, found: Conversation, viewer: UserId): Option<nat> {
    if viewer in read.rows then Some(read.rows[viewer])
    else if viewer in RestoredRows(found, viewer) then Some(RestoredRows(found, viewer)[viewer])
    else None
  }

  /** Message and fact are written by one transaction that holds the conversation row. */
  function AfterSend(c: Conversation, sender: UserId, at: int): Conversation {
    var s := c.lastSeq + 1;
    c.(lastSeq := s,
       log := c.log[s := Message(Some(sender), at)],
       facts := c.facts[s := MessageCreated(s, sender, Some(ActiveMembers(c) - {sender}))])
  }

  function AfterErasure(c: Conversation, author: UserId): Conversation {
    c.(log := map s | s in c.log ::
         if c.log[s].sender == Some(author) then c.log[s].(sender := None) else c.log[s])
  }

  function AfterLoss(c: Conversation, lost: set<UserId>): Conversation {
    c.(rows := c.rows - lost)
  }

  // ----- Soundness -----

  /** Numbers are exactly 1..lastSeq, and every message has its fact. */
  ghost predicate Numbered(c: Conversation) {
    && (forall s :: s in c.log <==> 1 <= s <= c.lastSeq)
    && (forall s :: s in c.facts <==> 1 <= s <= c.lastSeq)
    && (forall s | s in c.facts ::
          && c.facts[s].seqNo == s
          && c.facts[s].sender in c.members
          && (c.log[s].sender.Some? ==> c.log[s].sender.value == c.facts[s].sender)
          && (c.facts[s].recipients.Some? ==>
                AffectedUsers(c.facts[s].recipients.value, c.facts[s].sender) == c.members.Keys))
  }

  /** Fixed membership: everyone joined before the first message and nobody left. */
  ghost predicate Settled(c: Conversation) {
    forall u | u in c.members ::
      c.members[u].leftAt.None? && forall s | s in c.log :: c.members[u].joinedAt <= c.log[s].createdAt
  }

  ghost predicate ReadsBounded(c: Conversation) {
    forall u | u in c.marks :: u in c.members && c.marks[u].read <= c.marks[u].delivered <= c.lastSeq
  }

  /** Nothing the reader wrote has been erased. */
  ghost predicate Whole(c: Conversation, reader: UserId) {
    forall s | s in c.log && s in c.facts && c.facts[s].sender == reader :: c.log[s].sender == Some(reader)
  }

  ghost predicate RowRight(c: Conversation, reader: UserId) {
    reader in c.rows && Whole(c, reader) ==> c.rows[reader] == Recount(c, reader, c.checkpoint)
  }

  ghost predicate Sound(c: Conversation) {
    && Numbered(c) && Settled(c) && ReadsBounded(c)
    && c.checkpoint <= c.lastSeq
    && c.rows.Keys <= c.members.Keys
    && forall u | u in c.rows :: RowRight(c, u)
  }

  /** An event of this conversation as the stream may deliver it: intact, or without its recipients. */
  ghost predicate Genuine(c: Conversation, e: MessageCreated) {
    e.seqNo in c.facts && (e == c.facts[e.seqNo] || e == c.facts[e.seqNo].(recipients := None))
  }

  // ----- The three computations agree -----

  /** `rebuild` and `recount_unread` give one number exactly when no unread position falls outside the membership. */
  lemma RebuildAgreesWithRecount(c: Conversation, reader: UserId, through: nat)
    requires reader in c.members
    ensures RebuildCount(c, reader, through) == Recount(c, reader, through) <==>
            forall s | s in UnreadPositions(c, reader, ReadSeq(c, reader), through) ::
              && c.members[reader].joinedAt <= c.log[s].createdAt
              && (c.members[reader].leftAt.None? || c.log[s].createdAt < c.members[reader].leftAt.value)
  {
    SubsetSize(RebuildPositions(c, reader, through), UnreadPositions(c, reader, ReadSeq(c, reader), through));
  }

  /** The rows a rebuild writes, told from the tables: one for each active member asked for, counting what is foreign, unread and of their time. */
  lemma RebuiltFromTables(c: Conversation, through: nat, named: Option<set<UserId>>, u: UserId)
    ensures u in Rebuilt(c, through, named) <==> u in c.members && c.members[u].leftAt.None? && (named.None? || u in named.value)
    ensures u in Rebuilt(c, through, named) ==>
              var read := if u in c.marks then c.marks[u].read else 0;
              Rebuilt(c, through, named)[u] ==
              |set s | s in c.log && read < s <= through && c.log[s].sender != Some(u) && c.members[u].joinedAt <= c.log[s].createdAt|
  {
    if u in Rebuilt(c, through, named) {
      var read := if u in c.marks then c.marks[u].read else 0;
      assert RebuildPositions(c, u, through) ==
             set s | s in c.log && read < s <= through && c.log[s].sender != Some(u) && c.members[u].joinedAt <= c.log[s].createdAt;
    }
  }

  /** Why an event was handled as it was, told from the tables and the event. */
  lemma DecisionTellsWhy(c: Conversation, e: MessageCreated)
    ensures var kind := OutcomeOf(c, e).kind;
            && (kind == Duplicate <==> e.seqNo <= c.checkpoint)
            && (kind == RebuiltFor(NoRecipients) <==> e.seqNo > c.checkpoint && e.recipients.None?)
            && (kind == RebuiltFor(Gap) <==> e.seqNo > c.checkpoint + 1 && e.recipients.Some?)
            && (e.seqNo == c.checkpoint + 1 && e.recipients.Some? ==>
                  kind == if e.sender in c.rows && forall u | u in e.recipients.value :: u in c.rows then Applied else RebuiltFor(MissingRows))
  {
  }

  lemma CountThroughNext(c: Conversation, reader: UserId, through: nat)
    requires through + 1 in c.log
    ensures Recount(c, reader, through + 1) == Recount(c, reader, through) +
            if CountsAsUnread(c.log[through + 1].sender, reader, through + 1, ReadSeq(c, reader), through + 1) then 1 else 0
  {
    var above := ReadSeq(c, reader);
    var shorter := UnreadPositions(c, reader, above, through);
    var longer := UnreadPositions(c, reader, above, through + 1);
    if CountsAsUnread(c.log[through + 1].sender, reader, through + 1, above, through + 1) {
      assert longer == shorter + {through + 1};
    } else {
      assert longer == shorter;
    }
  }

  /** The delta computed from an event is the one its stored message would give. */
  lemma DeltaOfStoredMessage(c: Conversation, e: MessageCreated, reader: UserId)
    requires Numbered(c) && Genuine(c, e) && Whole(c, reader)
    ensures Delta(c, e, reader) ==
            if CountsAsUnread(c.log[e.seqNo].sender, reader, e.seqNo, ReadSeq(c, reader), e.seqNo) then 1 else 0
  {
  }

  /** Rebuilding through the checkpoint and bumping for the next event is rebuilding through that event. */
  lemma RebuildThenBump(c: Conversation, e: MessageCreated, reader: UserId)
    requires Numbered(c) && Settled(c) && Genuine(c, e) && Whole(c, reader) && reader in c.members
    ensures RebuildCount(c, reader, e.seqNo - 1) + Delta(c, e, reader) == RebuildCount(c, reader, e.seqNo)
    ensures RebuildCount(c, reader, e.seqNo) == Recount(c, reader, e.seqNo)
    ensures ReadSeq(c, reader) >= e.seqNo ==> Delta(c, e, reader) == 0 && Recount(c, reader, e.seqNo) == 0
  {
    RebuildAgreesWithRecount(c, reader, e.seqNo - 1);
    RebuildAgreesWithRecount(c, reader, e.seqNo);
    CountThroughNext(c, reader, e.seqNo - 1);
    DeltaOfStoredMessage(c, e, reader);
    if ReadSeq(c, reader) >= e.seqNo {
      assert UnreadPositions(c, reader, ReadSeq(c, reader), e.seqNo) == {};
    }
  }

  // ----- Every operation keeps the counters right -----

  lemma RebuiltRow(c: Conversation, reader: UserId, through: nat, named: Option<set<UserId>>)
    requires Settled(c) && reader in c.members && (named.None? || reader in named.value)
    ensures reader in Rebuilt(c, through, named)
    ensures Rebuilt(c, through, named)[reader] == RebuildCount(c, reader, through) == Recount(c, reader, through)
  {
    RebuildAgreesWithRecount(c, reader, through);
  }

  lemma StepRow(c: Conversation, e: MessageCreated, reader: UserId)
    requires Sound(c) && Genuine(c, e) && Continues(c, e) && reader in c.members
    ensures reader in StepRows(c, e)
    ensures Whole(c, reader) ==> StepRows(c, e)[reader] == Recount(c, reader, e.seqNo)
  {
    assert reader in ActiveMembers(c);
    assert reader in AffectedUsers(e.recipients.value, e.sender);
    if Whole(c, reader) {
      RebuildThenBump(c, e, reader);
      RebuildAgreesWithRecount(c, reader, c.checkpoint);
      assert RowRight(c, reader);
    }
  }

  /** After a fresh event every member has a row, and it is the from-scratch count through the event. */
  lemma FreshEventRow(c: Conversation, e: MessageCreated, reader: UserId)
    requires Sound(c) && Genuine(c, e) && e.seqNo > c.checkpoint && reader in c.members
    ensures reader in RowsAfter(c, e)
    ensures Whole(c, reader) ==> RowsAfter(c, e)[reader] == Recount(c, reader, e.seqNo)
  {
    if Continues(c, e) {
      StepRow(c, e, reader);
    } else {
      RebuiltRow(c, reader, e.seqNo, None);
    }
  }

  lemma RowsOnlyForMembers(c: Conversation, e: MessageCreated)
    requires c.rows.Keys <= c.members.Keys
    ensures RowsAfter(c, e).Keys <= c.members.Keys
  {
  }

  /**
    Incremental equals from scratch: a fresh event leaves exactly one row per member, each the full count
    through the event, whichever of the four branches ran; a stale one changes nothing.
   */
  lemma EventMeaning(c: Conversation, e: MessageCreated)
    requires Sound(c) && Genuine(c, e)
    ensures e.seqNo <= c.checkpoint ==> AfterEvent(c, e) == c
    ensures e.seqNo > c.checkpoint ==>
              && AfterEvent(c, e).checkpoint == e.seqNo
              && AfterEvent(c, e).rows.Keys == c.members.Keys
              && forall u | u in c.members && Whole(c, u) :: AfterEvent(c, e).rows[u] == Recount(c, u, e.seqNo)
  {
    if e.seqNo > c.checkpoint {
      var rows := RowsAfter(c, e);
      assert AfterEvent(c, e).rows == rows;
      forall u | u in c.members ensures u in rows && (Whole(c, u) ==> rows[u] == Recount(c, u, e.seqNo)) {
        FreshEventRow(c, e, u);
      }
      RowsOnlyForMembers(c, e);
    }
  }

  /** Replacing rows and checkpoint by right ones keeps the conversation sound. */
  lemma RightRowsAreSound(c: Conversation, d: Conversation)
    requires Sound(c) && d == c.(rows := d.rows, checkpoint := d.checkpoint)
    requires d.checkpoint <= c.lastSeq && d.rows.Keys <= c.members.Keys
    requires forall u | u in d.rows && Whole(c, u) :: d.rows[u] == Recount(c, u, d.checkpoint)
    ensures Sound(d)
  {
    forall u | u in d.rows
      ensures RowRight(d, u)
    {
      assert Whole(d, u) <==> Whole(c, u);
      SameCounts(c, d, u, d.checkpoint);
    }
  }

  /** No delivery, fresh or stale, in order or not, ever makes a counter wrong. */
  lemma EventKeepsSound(c: Conversation, e: MessageCreated)
    requires Sound(c) && Genuine(c, e)
    ensures Sound(AfterEvent(c, e))
  {
    EventMeaning(c, e);
    if e.seqNo > c.checkpoint {
      RightRowsAreSound(c, AfterEvent(c, e));
    }
  }

  /** Who is told: everybody after a recount, else those whose row was lost or who have the message yet to read. */
  lemma ToldExactlyWhen(c: Conversation, e: MessageCreated, u: UserId)
    requires Sound(c) && Genuine(c, e)
    ensures u in OutcomeOf(c, e).notices <==>
              && e.seqNo > c.checkpoint && u in c.members
              && (e.recipients.None? || e.seqNo > c.checkpoint + 1 || u !in c.rows ||
                  (u != e.sender && (u in c.marks ==> c.marks[u].read < e.seqNo)))
  {
  }

  /** Readers are told the number that was written, and nobody whose number changed is left untold. */
  lemma NoticesTellTheTruth(c: Conversation, e: MessageCreated)
    requires Sound(c) && Genuine(c, e)
    ensures var told, after := OutcomeOf(c, e).notices, AfterEvent(c, e).rows;
            && (forall u | u in told :: u in after && told[u] == after[u])
            && (forall u | u in after :: u !in c.rows || after[u] != c.rows[u] ==> u in told)
            && (Decide(c, e).Applied? ==> forall u | u in told :: after[u] == c.rows[u] + 1 && u != e.sender)
  {
  }

  lemma SameCounts(c: Conversation, d: Conversation, reader: UserId, through: nat)
    requires ReadSeq(c, reader) == ReadSeq(d, reader)
    requires forall s :: s in c.log && s <= through <==> s in d.log && s <= through
    requires forall s | s in c.log && s <= through :: IsForeign(c.log[s].sender, reader) == IsForeign(d.log[s].sender, reader)
    ensures Recount(c, reader, through) == Recount(d, reader, through)
  {
    assert UnreadPositions(c, reader, ReadSeq(c, reader), through) == UnreadPositions(d, reader, ReadSeq(d, reader), through);
  }

  /** A receipt answers with the count below the checkpoint above the new read mark, and touches one row. */
  lemma ReceiptMeaning(c: Conversation, reader: UserId, r: R.Receipts, headSeen: nat)
    requires Sound(c) && headSeen <= c.lastSeq
    ensures var d, reply := AfterReceipt(c, reader, r, headSeen), ReplyToReceipt(c, reader, r, headSeen);
            && (reply.Written? <==> reader in c.members && R.Accepted(r, headSeen))
            && (reply.Written? ==>
                  && d.rows.Keys == c.rows.Keys + {reader}
                  && d.rows[reader] == reply.unread == Recount(d, reader, c.checkpoint)
                  && R.AtMost(R.StateOf(r), d.marks[reader])
                  && reply.state == d.marks[reader]
                  && reply.previous == (if reader in c.marks then Some(c.marks[reader]) else None))
            && (!reply.Written? ==> d == c)
            && forall u | u in c.rows && u != reader :: d.rows[u] == c.rows[u]
  {
    assert reader in ActiveMembers(c) <==> reader in c.members;
    var d, reply := AfterReceipt(c, reader, r, headSeen), ReplyToReceipt(c, reader, r, headSeen);
    if reply.Written? {
      assert ReadSeq(d, reader) == reply.state.read;
      assert UnreadPositions(d, reader, reply.state.read, c.checkpoint) == UnreadPositions(c, reader, reply.state.read, c.checkpoint);
    }
  }

  /** Which refusal a receipt gets: its numbers are looked at first, then the membership, then the head. */
  lemma ReceiptRefusals(c: Conversation, reader: UserId, r: R.Receipts, headSeen: nat)
    ensures var reply := ReplyToReceipt(c, reader, r, headSeen);
            && (R.Validate(r).Some? ==> reply == Refused(R.Validate(r).value))
            && (reply == NotAMember <==> R.Validate(r).None? && !(reader in c.members && c.members[reader].leftAt.None?))
            && (reply == Refused(R.AboveHead) <==>
                  && R.Validate(r).None? && reader in c.members && c.members[reader].leftAt.None?
                  && ((r.delivered.Some? && r.delivered.value > headSeen) || (r.read.Some? && r.read.value > headSeen)))
  {
    R.FaultExactlyWhen(r, headSeen);
  }

  lemma ReceiptKeepsSound(c: Conversation, reader: UserId, r: R.Receipts, headSeen: nat)
    requires Sound(c) && headSeen <= c.lastSeq
    ensures Sound(AfterReceipt(c, reader, r, headSeen))
  {
    ReceiptMeaning(c, reader, r, headSeen);
    var d := AfterReceipt(c, reader, r, headSeen);
    if d != c {
      forall u | u in d.rows
        ensures RowRight(d, u)
      {
        if u != reader {
          assert RowRight(c, u) && (Whole(d, u) <==> Whole(c, u));
          SameCounts(c, d, u, c.checkpoint);
        }
      }
    }
  }

  /**
    Restored rows are from-scratch counts through the head, which is also where the checkpoint then stands, whether
    the viewer's row is still missing or has come back meanwhile.
   */
  lemma RestoreMeaning(c: Conversation, viewer: UserId)
    requires Sound(c)
    ensures var d := AfterRestore(c, viewer);
            && d == c.(rows := d.rows, checkpoint := c.lastSeq)
            && d.rows.Keys <= c.members.Keys
            && (viewer in d.rows <==> viewer in c.members)
            && forall u | u in d.rows && Whole(c, u) :: d.rows[u] == Recount(c, u, c.lastSeq)
  {
    var d := AfterRestore(c, viewer);
    var named := if c.lastSeq > c.checkpoint then None else Some({viewer});
    assert RestoredRows(c, viewer) == Rebuilt(c, c.lastSeq, named);
    if viewer in c.members { RebuiltRow(c, viewer, c.lastSeq, named); }
    forall u | u in d.rows && Whole(c, u) ensures d.rows[u] == Recount(c, u, c.lastSeq) { RestoredRow(c, viewer, u); }
  }

  lemma RestoredRow(c: Conversation, viewer: UserId, u: UserId)
    requires Sound(c) && u in AfterRestore(c, viewer).rows && Whole(c, u)
    ensures AfterRestore(c, viewer).rows[u] == Recount(c, u, c.lastSeq)
  {
    assert u in c.members.Keys;
    if c.lastSeq > c.checkpoint {
      RebuiltRow(c, u, c.lastSeq, None);
    } else if u == viewer {
      RebuiltRow(c, u, c.checkpoint, Some({viewer}));
    } else {
      assert RowRight(c, u);
    }
  }

  lemma RestoreKeepsSound(c: Conversation, viewer: UserId)
    requires Sound(c)
    ensures Sound(AfterRestore(c, viewer))
  {
    RestoreMeaning(c, viewer);
    RightRowsAreSound(c, AfterRestore(c, viewer));
  }

  /** A list gives every member a number and nobody else: a count through the checkpoint as read, or through the head as found. */
  lemma ListingMeaning(read: Conversation, found: Conversation, viewer: UserId)
    requires Sound(read) && Sound(found) && read.members == found.members
    ensures ListedCount(read, found, viewer).Some? <==> viewer in read.members
    ensures viewer in read.rows && Whole(read, viewer) ==>
              ListedCount(read, found, viewer) == Some(Recount(read, viewer, read.checkpoint))
    ensures viewer in read.members && viewer !in read.rows ==>
              ListedCount(read, found, viewer) == Some(Recount(found, viewer, found.lastSeq))
  {
    if viewer in read.rows {
      assert RowRight(read, viewer);
    } else if viewer in read.members {
      RebuiltRow(found, viewer, found.lastSeq, if found.lastSeq > found.checkpoint then None else Some({viewer}));
    }
  }

  /**
    A new message takes the next number, with a fact that names every other active member. It is above every
    checkpoint and every read mark: no stored counter is touched by it.
   */
  lemma SendMeaning(c: Conversation, sender: UserId, at: int)
    requires Sound(c) && sender in c.members
    requires forall u | u in c.members :: c.members[u].joinedAt <= at
    ensures Sound(AfterSend(c, sender, at))
    ensures forall u :: Recount(AfterSend(c, sender, at), u, c.checkpoint) == Recount(c, u, c.checkpoint)
    ensures var d, next := AfterSend(c, sender, at), c.lastSeq + 1;
            && d == c.(lastSeq := next, log := c.log[next := d.log[next]], facts := c.facts[next := d.facts[next]])
            && d.log[next] == Message(Some(sender), at)
            && d.facts[next].seqNo == next && d.facts[next].sender == sender && d.facts[next].recipients.Some?
            && (forall u :: u in d.facts[next].recipients.value <==> u in c.members && c.members[u].leftAt.None? && u != sender)
  {
    var d := AfterSend(c, sender, at);
    assert ActiveMembers(c) == c.members.Keys;
    assert (c.members.Keys - {sender}) + {sender} == c.members.Keys;
    forall u
      ensures Recount(d, u, c.checkpoint) == Recount(c, u, c.checkpoint)
    {
      SameCounts(c, d, u, c.checkpoint);
    }
    forall u | u in d.rows
      ensures RowRight(d, u)
    {
      assert RowRight(c, u);
      if Whole(d, u) {
        forall s | s in c.log && s in c.facts && c.facts[s].sender == u
          ensures c.log[s].sender == Some(u)
        {
          assert d.log[s] == c.log[s] && d.facts[s] == c.facts[s];
        }
      }
    }
  }

  /** Erasing an author leaves the count of everybody else as it was. */
  lemma ErasureMeaning(c: Conversation, author: UserId)
    requires Sound(c)
    ensures Sound(AfterErasure(c, author))
    ensures forall u, through | u != author :: Recount(AfterErasure(c, author), u, through) == Recount(c, u, through)
    ensures forall u | u != author :: Whole(AfterErasure(c, author), u) <==> Whole(c, u)
  {
    var d := AfterErasure(c, author);
    forall u, through | u != author ensures Recount(d, u, through) == Recount(c, u, through) {
      SameCounts(c, d, u, through);
    }
    forall u | u != author ensures Whole(d, u) <==> Whole(c, u) {
      ErasureSparesOthers(c, author, u);
    }
    if Whole(d, author) { NothingToErase(c, author); }
    forall u | u in d.rows ensures RowRight(d, u) { assert RowRight(c, u); }
  }

  lemma ErasureSparesOthers(c: Conversation, author: UserId, u: UserId)
    requires u != author
    ensures Whole(AfterErasure(c, author), u) <==> Whole(c, u)
  {
    var d := AfterErasure(c, author);
    forall s | s in c.log ensures d.log[s].sender == Some(u) <==> c.log[s].sender == Some(u) {}
  }

  /** If the author is still whole after the erasure, there was nothing to erase. */
  lemma NothingToErase(c: Conversation, author: UserId)
    requires Numbered(c) && Whole(AfterErasure(c, author), author)
    ensures AfterErasure(c, author) == c
  {
    var d := AfterErasure(c, author);
    forall s | s in c.log ensures d.log[s] == c.log[s] {
      assert d.facts[s].sender == author ==> d.log[s].sender == Some(author);
    }
    assert d.log == c.log;
  }

  /**
    What erasure does to the author's own row: their messages become foreign to them, so the stored
    number stays right exactly when none of them is unread by the mark the author left.
   */
  lemma ErasureOfOneself(c: Conversation, author: UserId)
    requires Sound(c) && Whole(c, author) && author in c.rows
    ensures var d := AfterErasure(c, author);
            d.rows[author] == Recount(d, author, d.checkpoint) <==>
            forall s | s in c.log && ReadSeq(c, author) < s <= c.checkpoint :: c.log[s].sender != Some(author)
  {
    var d := AfterErasure(c, author);
    var above := ReadSeq(c, author);
    var before, after := UnreadPositions(c, author, above, c.checkpoint), UnreadPositions(d, author, above, c.checkpoint);
    assert RowRight(c, author);
    assert before <= after;
    SubsetSize(before, after);
    if s :| s in c.log && above < s <= c.checkpoint && c.log[s].sender == Some(author) {
      assert s in after && s !in before;
    } else {
      assert before == after;
    }
  }

  lemma LossMeaning(c: Conversation, lost: set<UserId>)
    requires Sound(c)
    ensures Sound(AfterLoss(c, lost))
  {
    forall u | u in AfterLoss(c, lost).rows
      ensures RowRight(AfterLoss(c, lost), u)
    {
      assert RowRight(c, u);
      assert Whole(AfterLoss(c, lost), u) <==> Whole(c, u);
      SameCounts(c, AfterLoss(c, lost), u, c.checkpoint);
    }
  }
}
