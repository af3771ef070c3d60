/**
  The tables behind the unread counters, changed statement by statement the way
  `repositories/unread.py`, `services/unread.py` and `services/receipts.py` change them.
  Each scenario is proved to have the effect stated for it in module Unread.
 */
module UnreadStore {
  import opened Sets
  import opened Wrappers
  import opened Unread
  import R = Receipts

  type ConversationId = nat

  /** Recounting the lost rows and bumping the survivors is the row-by-row step. */
  lemma LostThenBumped(c: Conversation, e: MessageCreated, lost: set<UserId>, rebuilt: map<UserId, nat>, rows: map<UserId, nat>)
    requires e.recipients.Some?
    requires lost == AffectedUsers(e.recipients.value, e.sender) - c.rows.Keys
    requires rebuilt == Rebuilt(c, e.seqNo, Some(lost))
    requires rows == map u | u in c.rows + rebuilt ::
               if u in AffectedUsers(e.recipients.value, e.sender) - lost then (c.rows + rebuilt)[u] + Delta(c, e, u) else (c.rows + rebuilt)[u]
    ensures rows == StepRows(c, e)
  {
    assert rows.Keys == StepRows(c, e).Keys;
  }

  /** Those recounted, and the survivors whose number grew, are the ones the row-by-row step tells. */
  lemma LostAndBumpedAreTold(c: Conversation, e: MessageCreated, lost: set<UserId>, rebuilt: map<UserId, nat>)
    requires e.recipients.Some?
    requires lost == AffectedUsers(e.recipients.value, e.sender) - c.rows.Keys
    requires rebuilt == Rebuilt(c, e.seqNo, Some(lost))
    ensures rebuilt.Keys <= StepRows(c, e).Keys && c.rows.Keys <= StepRows(c, e).Keys
    ensures var bumped := map u | u in AffectedUsers(e.recipients.value, e.sender) - lost && Delta(c, e, u) != 0 :: StepRows(c, e)[u];
            rebuilt + bumped == StepNotices(c, e)
  {
    var bumped := map u | u in AffectedUsers(e.recipients.value, e.sender) - lost && Delta(c, e, u) != 0 :: StepRows(c, e)[u];
    assert (rebuilt + bumped).Keys == StepNotices(c, e).Keys;
  }

  type Rows = map<ConversationId, Conversation>

  function RestoredIn(t: Rows, id: ConversationId, viewer: UserId): Rows {
    if id in t then t[id := AfterRestore(t[id], viewer)] else t
  }

  function RestoredCount(t: Rows, id: ConversationId, viewer: UserId): Option<nat> {
    if id in t && viewer in RestoredRows(t[id], viewer) then Some(RestoredRows(t[id], viewer)[viewer]) else None
  }

  function EntriesOf(page: seq<ConversationId>): set<ConversationId> { set id | id in page }

  /** The entries of a page whose row the query does not find. */
  function LostIn(t: Rows, page: seq<ConversationId>, viewer: UserId): set<ConversationId> {
    set id | id in page && !(id in t && viewer in t[id].rows)
  }

  /** The number an entry is shown with: the row as first read, or what its own transaction restores from what it meets. */
  function ShownCount(read: Rows, met: Rows, id: ConversationId, viewer: UserId): Option<nat> {
    if id in read && viewer in read[id].rows then Some(read[id].rows[viewer]) else RestoredCount(met, id, viewer)
  }

  /** Of `total`, the lesser ones are done, `last` being the latest, and the greater ones are left. */
  ghost predicate GoneThrough(total: set<ConversationId>, left: set<ConversationId>, last: Option<ConversationId>) {
    && left <= total
    && (last.None? <==> left == total)
    && (last.Some? ==> last.value in total - left)
    && (last.Some? ==> forall id | id in total :: id in left <==> id > last.value)
  }

  lemma GoneFurther(total: set<ConversationId>, left: set<ConversationId>, last: Option<ConversationId>, id: ConversationId)
    requires GoneThrough(total, left, last) && id in left && forall other | other in left :: id <= other
    ensures GoneThrough(total, left - {id}, Some(id))
  {
  }

  /** What the entries in `ids` are shown with is settled. */
  ghost predicate Filled(counts: map<ConversationId, nat>, shown: map<ConversationId, Option<nat>>, ids: set<ConversationId>) {
    && counts.Keys <= ids <= shown.Keys
    && forall id | id in ids :: (if id in counts then Some(counts[id]) else None) == shown[id]
  }

  lemma OneMoreFilled(counts: map<ConversationId, nat>, shown: map<ConversationId, Option<nat>>, ids: set<ConversationId>, id: ConversationId)
    requires Filled(counts, shown, ids) && id !in ids && id in shown
    ensures Filled(if shown[id].Some? then counts[id := shown[id].value] else counts, shown, ids + {id})
  {
  }

  /** What every entry of a page is shown with. */
  ghost function Shown(read: Rows, page: set<ConversationId>, meets: map<ConversationId, Rows>, viewer: UserId): map<ConversationId, Option<nat>>
    requires page <= meets.Keys
  {
    map id | id in page :: ShownCount(read, meets[id], id, viewer)
  }

  lemma SurvivorsAreShown(read: Rows, page: seq<ConversationId>, meets: map<ConversationId, Rows>, viewer: UserId, counts: map<ConversationId, nat>)
    requires forall id | id in page :: id in meets
    requires counts.Keys == EntriesOf(page) - LostIn(read, page, viewer)
    requires forall id | id in counts :: counts[id] == read[id].rows[viewer]
    ensures Filled(counts, Shown(read, EntriesOf(page), meets, viewer), EntriesOf(page) - LostIn(read, page, viewer))
  {
  }

  lemma LostIsRestored(read: Rows, page: seq<ConversationId>, meets: map<ConversationId, Rows>, viewer: UserId, id: ConversationId)
    requires (forall other | other in page :: other in meets) && id in LostIn(read, page, viewer)
    ensures Shown(read, EntriesOf(page), meets, viewer)[id] == RestoredCount(meets[id], id, viewer)
  {
  }

  class Tables {
    /** All rows of the five tables, by conversation. A deleted conversation took its rows with it. */
    var conversations: map<ConversationId, Conversation>

    constructor ()
      ensures conversations == map[]
    {
      conversations := map[];
    }

    // ----- Statements -----

    method LockOffsets(id: ConversationId) returns (watermark: Option<nat>)
      ensures watermark == if id in conversations then Some(conversations[id].checkpoint) else None
    {
      if id in conversations {
        watermark := Some(conversations[id].checkpoint);
      } else {
        watermark := None;
      }
    }

    method SetOffsets(id: ConversationId, appliedThrough: nat)
      requires id in conversations
      modifies this
      ensures conversations == old(conversations)[id := old(conversations[id]).(checkpoint := appliedThrough)]
    {
      conversations := conversations[id := conversations[id].(checkpoint := appliedThrough)];
    }

    method MissingProjection(id: ConversationId, users: set<UserId>) returns (lost: set<UserId>)
      requires id in conversations
      ensures forall u :: u in lost <==> u in users && u !in conversations[id].rows
    {
      lost := users - conversations[id].rows.Keys;
    }

    /** Inserts absent rows with their delta, adds non-zero deltas to present ones, returns what was written. */
    method BumpUnread(id: ConversationId, deltas: map<UserId, nat>) returns (numbers: map<UserId, nat>)
      requires id in conversations
      modifies this
      ensures id in conversations
      ensures conversations == old(conversations)[id := old(conversations[id]).(rows := conversations[id].rows)]
      ensures var was, now := old(conversations[id].rows), conversations[id].rows;
              && now.Keys == was.Keys + deltas.Keys
              && (forall u | u in now :: now[u] == (if u in was then was[u] else 0) + (if u in deltas then deltas[u] else 0))
              && (forall u :: u in numbers <==> u in deltas && (u !in was || deltas[u] != 0))
              && forall u | u in numbers :: numbers[u] == now[u]
    {
      var was := conversations[id].rows;
      var now := map u | u in was.Keys + deltas.Keys ::
        if u !in was then deltas[u] else if u in deltas && deltas[u] != 0 then was[u] + deltas[u] else was[u];
      conversations := conversations[id := conversations[id].(rows := now)];
      numbers := map u | u in deltas && (u !in was || deltas[u] != 0) :: now[u];
    }

    /** Counts and writes in one statement: the absolute number, whatever the row held before. */
    method RecountUnread(id: ConversationId, user: UserId, above: nat, through: nat) returns (count: nat)
      requires id in conversations
      modifies this
      ensures count == |UnreadPositions(old(conversations[id]), user, above, through)|
      ensures conversations == old(conversations)[id := old(conversations[id]).(rows := old(conversations[id]).rows[user := count])]
    {
      var c := conversations[id];
      count := |UnreadPositions(c, user, above, through)|;
      conversations := conversations[id := c.(rows := c.rows[user := count])];
    }

    /** Writes from-scratch counts over the rows of the named active members, or of all of them. */
    method Rebuild(id: ConversationId, through: nat, named: Option<set<UserId>>) returns (written: map<UserId, nat>)
      requires id in conversations
      modifies this
      ensures written == Rebuilt(old(conversations[id]), through, named)
      ensures conversations == old(conversations)[id := old(conversations[id]).(rows := old(conversations[id]).rows + written)]
    {
      var c := conversations[id];
      if named == Some({}) {
        written := map[];
        assert written == Rebuilt(c, through, named);
        assert c == c.(rows := c.rows + written);
        return;
      }
      written := Rebuilt(c, through, named);
      conversations := conversations[id := c.(rows := c.rows + written)];
    }

    method UpsertReadState(id: ConversationId, user: UserId, state: R.ReadState) returns (stored: R.ReadState)
      requires id in conversations
      modifies this
      ensures stored == R.Upsert(StoredRead(old(conversations[id]), user), state)
      ensures conversations == old(conversations)[id := old(conversations[id]).(marks := old(conversations[id]).marks[user := stored])]
    {
      var c := conversations[id];
      stored := R.Upsert(StoredRead(c, user), state);
      conversations := conversations[id := c.(marks := c.marks[user := stored])];
    }

    // ----- Scenarios, one transaction each -----

    method Bump(id: ConversationId, e: MessageCreated, users: set<UserId>) returns (notices: map<UserId, nat>)
      requires id in conversations && users <= conversations[id].rows.Keys
      modifies this
      ensures id in conversations
      ensures conversations == old(conversations)[id := old(conversations[id]).(rows := conversations[id].rows)]
      ensures var c, now := old(conversations[id]), conversations[id].rows;
              && now == (map u | u in c.rows :: if u in users then c.rows[u] + Delta(c, e, u) else c.rows[u])
              && notices == (map u | u in users && Delta(c, e, u) != 0 :: now[u])
    {
      var c := conversations[id];
      var deltas := map u | u in users :: Delta(c, e, u);
      var numbers := BumpUnread(id, deltas);
      assert conversations[id].rows.Keys == c.rows.Keys;
      notices := map u | u in deltas && deltas[u] != 0 :: numbers[u];
    }

    /** Applies one event: lock, decide, write the projection, and only then move the checkpoint. */
    method ApplyEvent(id: ConversationId, e: MessageCreated) returns (outcome: Outcome)
      modifies this
      ensures id !in old(conversations) ==> conversations == old(conversations) && outcome == Outcome(ConversationGone, map[])
      ensures id in old(conversations) ==>
                && conversations == old(conversations)[id := AfterEvent(old(conversations[id]), e)]
                && outcome == OutcomeOf(old(conversations[id]), e)
    {
      var watermark := LockOffsets(id);
      if watermark.None? {
        return Outcome(ConversationGone, map[]);
      }
      ghost var c := conversations[id];
      if e.seqNo <= watermark.value {
        assert conversations == conversations[id := c];
        return Outcome(Duplicate, map[]);
      }
      if e.recipients.None? {
        outcome := RebuildAll(id, e, NoRecipients);
        return;
      }
      if e.seqNo > watermark.value + 1 {
        outcome := RebuildAll(id, e, Gap);
        return;
      }
      var users := AffectedUsers(e.recipients.value, e.sender);
      var lost := MissingProjection(id, users);
      if lost != {} {
        outcome := RebuildLost(id, e, users, lost);
        return;
      }
      var notices := Bump(id, e, users);
      assert conversations[id].rows == StepRows(c, e);
      SetOffsets(id, e.seqNo);
      assert users <= c.rows.Keys;
      assert notices == StepNotices(c, e);
      outcome := Outcome(Applied, notices);
    }

    method RebuildAll(id: ConversationId, e: MessageCreated, reason: Reason) returns (outcome: Outcome)
      requires id in conversations
      modifies this
      ensures var c := old(conversations[id]);
              && conversations == old(conversations)[id := c.(rows := c.rows + Rebuilt(c, e.seqNo, None), checkpoint := e.seqNo)]
              && outcome == Outcome(RebuiltFor(reason), Rebuilt(c, e.seqNo, None))
    {
      var restored := Rebuild(id, e.seqNo, None);
      SetOffsets(id, e.seqNo);
      outcome := Outcome(RebuiltFor(reason), restored);
    }

    /** Lost rows are recounted through the event itself, surviving ones are bumped for it. */
    method RebuildLost(id: ConversationId, e: MessageCreated, users: set<UserId>, lost: set<UserId>) returns (outcome: Outcome)
      requires id in conversations && e.recipients.Some?
      requires users == AffectedUsers(e.recipients.value, e.sender)
      requires lost == users - conversations[id].rows.Keys
      modifies this
      ensures var c := old(conversations[id]);
              && conversations == old(conversations)[id := c.(rows := StepRows(c, e), checkpoint := e.seqNo)]
              && outcome == Outcome(RebuiltFor(MissingRows), StepNotices(c, e))
    {
      ghost var c := conversations[id];
      var restored := Rebuild(id, e.seqNo, Some(lost));
      ghost var mid := conversations[id];
      assert forall u :: Delta(mid, e, u) == Delta(c, e, u);
      var bumped := Bump(id, e, users - lost);
      ghost var rows := conversations[id].rows;
      assert bumped == map u | u in users - lost && Delta(c, e, u) != 0 :: rows[u];
      LostThenBumped(c, e, lost, restored, rows);
      LostAndBumpedAreTold(c, e, lost, restored);
      SetOffsets(id, e.seqNo);
      outcome := Outcome(RebuiltFor(MissingRows), restored + bumped);
    }

    /** Validates, then under the checkpoint lock stores the mark and recounts below the checkpoint. */
    method SetReceipts(id: ConversationId, reader: UserId, r: R.Receipts, headSeen: nat) returns (reply: ReceiptReply)
      modifies this
      ensures id in old(conversations) ==>
                && reply == ReplyToReceipt(old(conversations[id]), reader, r, headSeen)
                && conversations == old(conversations)[id := AfterReceipt(old(conversations[id]), reader, r, headSeen)]
      ensures id !in old(conversations) ==>
                && reply == (if R.Validate(r).Some? then Refused(R.Validate(r).value) else ConversationNotFound)
                && conversations == old(conversations)
    {
      var fault := R.Validate(r);
      if fault.Some? {
        assert id in conversations ==> conversations == conversations[id := conversations[id]];
        return Refused(fault.value);
      }
      if id !in conversations {
        return ConversationNotFound;
      }
      ghost var c := conversations[id];
      assert conversations == conversations[id := c];
      if reader !in ActiveMembers(conversations[id]) {
        return NotAMember;
      }
      fault := R.ValidateBound(r, headSeen);
      if fault.Some? {
        return Refused(fault.value);
      }
      var watermark := LockOffsets(id);
      var previous := StoredRead(conversations[id], reader);
      var stored := UpsertReadState(id, reader, R.StateOf(r));
      assert UnreadPositions(conversations[id], reader, stored.read, watermark.value) ==
             UnreadPositions(c, reader, stored.read, watermark.value);
      var count := RecountUnread(id, reader, stored.read, watermark.value);
      reply := Written(stored, previous, count);
    }

    /** The rows of one viewer on a page of the list, read by one query outside any transaction. */
    method FetchProjection(viewer: UserId, page: seq<ConversationId>) returns (counts: map<ConversationId, nat>)
      ensures counts.Keys == EntriesOf(page) - LostIn(conversations, page, viewer)
      ensures forall id | id in counts :: counts[id] == conversations[id].rows[viewer]
    {
      counts := map id | id in page && id in conversations && viewer in conversations[id].rows :: conversations[id].rows[viewer];
    }

    /** Restores the rows of one conversation for a viewer, without looking again whether the row is still lost. */
    method RestoreConversation(id: ConversationId, viewer: UserId) returns (count: Option<nat>)
      modifies this
      ensures conversations == RestoredIn(old(conversations), id, viewer)
      ensures count == RestoredCount(old(conversations), id, viewer)
      ensures id !in old(conversations) ==> conversations == old(conversations) && count.None?
      ensures id in old(conversations) ==>
                && conversations == old(conversations)[id := AfterRestore(old(conversations)[id], viewer)]
                && (count.Some? <==> viewer in ActiveMembers(old(conversations)[id]))
                && (count.Some? ==> viewer in conversations[id].rows && conversations[id].rows[viewer] == count.value)
    {
      var watermark := LockOffsets(id);
      if watermark.None? {
        return None;
      }
      var head := conversations[id].lastSeq;
      var rebuilt: map<UserId, nat>;
      if head > watermark.value {
        rebuilt := Rebuild(id, head, None);
        SetOffsets(id, head);
      } else {
        rebuilt := Rebuild(id, watermark.value, Some({viewer}));
      }
      count := if viewer in rebuilt then Some(rebuilt[viewer]) else None;
    }

    /**
      The counters of one page of the conversation list. One query reads them; each lost one is then restored by a
      transaction of its own, in the order of identifiers. Between them other transactions run: `meets[id]` is what
      the transaction for `id` finds.
     */
    method RestoreLostCounts(viewer: UserId, page: seq<ConversationId>, meets: map<ConversationId, Rows>) returns (counts: map<ConversationId, nat>)
      requires forall id | id in page :: id in meets
      modifies this
      ensures forall id | id in page ::
                (if id in counts then Some(counts[id]) else None) == ShownCount(old(conversations), meets[id], id, viewer)
      ensures counts.Keys <= EntriesOf(page)
      ensures var lost := LostIn(old(conversations), page, viewer);
              && (lost == {} ==> conversations == old(conversations))
              && forall last | last in lost && (forall id | id in lost :: id <= last) ::
                   conversations == RestoredIn(meets[last], last, viewer)
    {
      ghost var read := conversations;
      counts := FetchProjection(viewer, page);
      var lost := EntriesOf(page) - counts.Keys;
      ghost var all := EntriesOf(page);
      ghost var shown := Shown(read, all, meets, viewer);
      ghost var total, last: Option<ConversationId> := LostIn(read, page, viewer), None;
      assert lost == total;
      SurvivorsAreShown(read, page, meets, viewer, counts);
      while lost != {}
        invariant GoneThrough(total, lost, last)
        invariant Filled(counts, shown, all - lost)
        invariant conversations == if last.None? then read else RestoredIn(meets[last.value], last.value, viewer)
        decreases lost
      {
        var id := PickLeast(lost);
        conversations := meets[id];
        var count := RestoreConversation(id, viewer);
        LostIsRestored(read, page, meets, viewer, id);
        OneMoreFilled(counts, shown, all - lost, id);
        GoneFurther(total, lost, last, id);
        if count.Some? {
          counts := counts[id := count.value];
        }
        assert (all - lost) + {id} == all - (lost - {id});
        lost, last := lost - {id}, Some(id);
      }
    }

    // ----- Sending -----

    /** Takes the next number under the conversation lock and stores message and fact under it. */
    method SendMessage(id: ConversationId, sender: UserId, at: int) returns (seqNo: Option<nat>)
      modifies this
      ensures seqNo.Some? <==> id in old(conversations) && sender in ActiveMembers(old(conversations[id]))
      ensures seqNo.None? ==> conversations == old(conversations)
      ensures seqNo.Some? ==>
                && seqNo.value == old(conversations[id]).lastSeq + 1
                && conversations == old(conversations)[id := AfterSend(old(conversations[id]), sender, at)]
    {
      if id !in conversations || sender !in ActiveMembers(conversations[id]) {
        return None;
      }
      var c := conversations[id];
      var s := c.lastSeq + 1;
      c := c.(lastSeq := s);
      c := c.(log := c.log[s := Message(Some(sender), at)]);
      c := c.(facts := c.facts[s := MessageCreated(s, sender, Some(ActiveMembers(c) - {sender}))]);
      assert ActiveMembers(c) == ActiveMembers(conversations[id]);
      conversations := conversations[id := c];
      seqNo := Some(s);
    }
  }
}
