/**
  Paging through the history of a conversation while it grows
  (`domain/history.py`, the page queries of `repositories/messages.py`, `services/history.py`).
 */
module History {
  import opened Sets
  import opened Wrappers

  const MAX_PAGE_SIZE := 100
  const MIN_BEFORE_SEQ := 1
  const MIN_AFTER_SEQ := 0
  const MAX_SEQ := 0x7fff_ffff_ffff_ffff

  datatype Page = Page(items: seq<nat>, hasMore: bool)

  datatype Fault = BadLimit | TwoDirections | ThroughWithoutAfter | BelowMinimum | EmptyRange | AboveInt64 | AboveHead

  // ----- Validation -----

  predicate Below(n: Option<int>, least: int) { n.Some? && n.value < least }

  predicate Above(n: Option<int>, most: int) { n.Some? && n.value > most }

  function ValidateCursors(before: Option<int>, after: Option<int>, through: Option<int>, limit: int): Option<Fault> {
    if limit < 1 || limit > MAX_PAGE_SIZE then Some(BadLimit)
    else if before.Some? && after.Some? then Some(TwoDirections)
    else if through.Some? && after.None? then Some(ThroughWithoutAfter)
    else if Below(before, MIN_BEFORE_SEQ) || Below(after, MIN_AFTER_SEQ) || Below(through, MIN_AFTER_SEQ) then Some(BelowMinimum)
    else if through.Some? && after.Some? && through.value < after.value then Some(EmptyRange)
    else if Above(before, MAX_SEQ) || Above(after, MAX_SEQ) || Above(through, MAX_SEQ) then Some(AboveInt64)
    else None
  }

  function ValidateBound(after: int, through: Option<int>, head: nat): Option<Fault> {
    if after > head || Above(through, head) then Some(AboveHead) else None
  }

  // ----- The two queries: ORDER BY conversation_seq with LIMIT -----

  ghost function Descending(s: set<nat>, limit: nat): seq<nat> {
    if limit == 0 || s == {} then [] else [Greatest(s)] + Descending(s - {Greatest(s)}, limit - 1)
  }

  ghost function Ascending(s: set<nat>, limit: nat): seq<nat> {
    if limit == 0 || s == {} then [] else [Least(s)] + Ascending(s - {Least(s)}, limit - 1)
  }

  /** One row more than asked for was fetched: its presence is the answer to `hasMore`. */
  function PageOf(rows: seq<nat>, limit: nat): Page {
    Page(if |rows| > limit then rows[..limit] else rows, |rows| > limit)
  }

  ghost function FetchBackward(numbers: set<nat>, before: Option<int>, limit: nat): Page {
    PageOf(Descending((set s | s in numbers && (if before.Some? then s < before.value else s <= MAX_SEQ)), limit + 1), limit)
  }

  ghost function FetchForward(numbers: set<nat>, after: int, through: int, limit: nat): Page {
    PageOf(Ascending((set s | s in numbers && after < s <= through), limit + 1), limit)
  }

  // ----- The service -----

  datatype Direction = Backward | Forward

  datatype Reply = Rejected(fault: Fault) | Served(page: Page, direction: Direction, syncTo: Option<int>)

  /** `numbers` and `head` are what the request sees: messages may have been added since the last one. */
  ghost function ListMessages(numbers: set<nat>, head: nat, before: Option<int>, after: Option<int>, through: Option<int>, limit: int): Reply {
    var fault := ValidateCursors(before, after, through, limit);
    if fault.Some? then Rejected(fault.value)
    else if after.None? then Served(FetchBackward(numbers, before, limit), Backward, None)
    else
      var outOfBound := ValidateBound(after.value, through, head);
      if outOfBound.Some? then Rejected(outOfBound.value)
      else
        var bound := if through.Some? then through.value else head;
        Served(FetchForward(numbers, after.value, bound, limit), Forward, Some(bound))
  }

  /** The cursor of the next request; empty at the end. */
  function Continuation(page: Page): Option<int> {
    if page.hasMore && page.items != [] then Some(page.items[|page.items| - 1]) else None
  }

  /** The numbers of a conversation with `head` messages. */
  function Numbers(head: nat): set<nat> { Between(1, head) }

  function Between(low: nat, high: int): (numbers: set<nat>)
    ensures forall s: nat :: s in numbers <==> low <= s <= high
    decreases high + 1 - low
  {
    if low > high then {} else Between(low, high - 1) + {high}
  }

  function Down(from: int, to: nat): seq<nat>
    requires to <= from + 1
  {
    seq(from + 1 - to, i requires 0 <= i < from + 1 - to => from - i)
  }

  function Up(from: nat, to: int): seq<nat>
    requires from <= to + 1
  {
    seq(to + 1 - from, i requires 0 <= i < to + 1 - from => from + i)
  }

  function Min(a: int, b: int): int { if a <= b then a else b }

  lemma {:induction false} AscendingInterval(from: nat, to: int, limit: nat)
    requires from <= to + 1
    ensures Ascending(Between(from, to), limit) == Up(from, Min(to, from + limit - 1))
    decreases limit
  {
    var s := Between(from, to);
    if limit > 0 && from <= to {
      assert from in s && Least(s) == from;
      assert s - {from} == Between(from + 1, to);
      AscendingInterval(from + 1, to, limit - 1);
    } else {
      assert from > to ==> s == {};
    }
  }

  lemma {:induction false} DescendingInterval(from: int, to: nat, limit: nat)
    requires to <= from + 1
    ensures Descending(Between(to, from), limit) == Down(from, if from + 1 - limit > to then from + 1 - limit else to)
    decreases limit
  {
    var s := Between(to, from);
    if limit > 0 && to <= from {
      assert from in s && Greatest(s) == from;
      assert s - {from} == Between(to, from - 1);
      DescendingInterval(from - 1, to, limit - 1);
    } else {
      assert to > from ==> s == {};
    }
  }

  /** A forward page of a densely numbered conversation. */
  lemma ForwardPage(head: nat, after: int, through: int, limit: nat)
    requires 0 <= after <= through <= head && limit >= 1
    ensures FetchForward(Numbers(head), after, through, limit) == Page(Up(after + 1, Min(through, after + limit)), through > after + limit)
  {
    assert (set s | s in Numbers(head) && after < s <= through) == Between(after + 1, through);
    AscendingInterval(after + 1, through, limit + 1);
  }

  /** The number a backward page starts from: a cursor above the head is as good as none. */
  function StartBelow(head: nat, before: Option<int>): int {
    if before.Some? then Min(before.value - 1, head) else head
  }

  lemma BackwardPage(head: nat, before: Option<int>, limit: nat)
    requires limit >= 1 && head <= MAX_SEQ && (before.Some? ==> 1 <= before.value)
    ensures var from := StartBelow(head, before);
            FetchBackward(Numbers(head), before, limit) ==
            Page(Down(from, if from + 1 - limit > 1 then from + 1 - limit else 1), from > limit)
  {
    var from := StartBelow(head, before);
    assert (set s | s in Numbers(head) && (if before.Some? then s < before.value else s <= MAX_SEQ)) == Between(1, from);
    DescendingInterval(from, 1, limit + 1);
  }

  predicate Within(n: Option<int>, least: int, most: int) { n.Some? ==> least <= n.value <= most }

  /** Which requests are served: one direction, a bound only forward and not behind its start, numbers of 64 bits, and nothing above the head. */
  lemma ServedExactlyWhen(numbers: set<nat>, head: nat, before: Option<int>, after: Option<int>, through: Option<int>, limit: int)
    requires head <= MAX_SEQ
    ensures ListMessages(numbers, head, before, after, through, limit).Served? <==>
            && 1 <= limit <= 100
            && (before.None? || after.None?) && (through.Some? ==> after.Some?)
            && Within(before, 1, 9_223_372_036_854_775_807) && Within(after, 0, head) && Within(through, 0, head)
            && (through.Some? && after.Some? ==> after.value <= through.value)
  {
  }

  /** A served request pages backward exactly when it has no forward cursor, and only a forward one is told its bound. */
  lemma DirectionOfReply(numbers: set<nat>, head: nat, before: Option<int>, after: Option<int>, through: Option<int>, limit: int)
    requires ListMessages(numbers, head, before, after, through, limit).Served?
    ensures var reply := ListMessages(numbers, head, before, after, through, limit);
            && (reply.direction.Backward? <==> after.None?)
            && reply.syncTo == if after.None? then None else if through.Some? then through else Some(head)
  {
  }

  // ----- The loops a client runs -----

  /** Successive forward pages up to a frozen bound; `heads(k)` is the head the k-th request meets. */
  ghost function SyncForward(heads: nat -> nat, k: nat, after: int, through: int, limit: int): (all: seq<nat>)
    decreases through - after
  {
    var reply := ListMessages(Numbers(heads(k)), heads(k), None, Some(after), Some(through), limit);
    if reply.Rejected? then []
    else
      var next := Continuation(reply.page);
      if next.Some? && after < next.value <= through then reply.page.items + SyncForward(heads, k + 1, next.value, through, limit)
      else reply.page.items
  }

  /** A whole synchronisation: the first request freezes the bound it is told, the others carry it along. */
  ghost function Synchronize(heads: nat -> nat, k: nat, after: int, limit: int): (all: seq<nat>) {
    var reply := ListMessages(Numbers(heads(k)), heads(k), None, Some(after), None, limit);
    if reply.Rejected? then []
    else
      var next := Continuation(reply.page);
      if next.Some? && reply.syncTo.Some? then reply.page.items + SyncForward(heads, k + 1, next.value, reply.syncTo.value, limit)
      else reply.page.items
  }

  /** Successive backward pages from a cursor, or from the newest message. */
  ghost function ScrollBack(heads: nat -> nat, k: nat, before: Option<int>, limit: int): (all: seq<nat>)
    decreases if before.Some? then 0 else 1, if before.Some? then before.value else 0
  {
    var reply := ListMessages(Numbers(heads(k)), heads(k), before, None, None, limit);
    if reply.Rejected? then []
    else
      var next := Continuation(reply.page);
      if next.Some? && 0 <= next.value && (before.None? || next.value < before.value) then
        reply.page.items + ScrollBack(heads, k + 1, next, limit)
      else reply.page.items
  }

  ghost predicate Grows(heads: nat -> nat) {
    (forall i, j | i <= j :: heads(i) <= heads(j)) && forall i :: heads(i) <= MAX_SEQ
  }

  lemma HeadsGrow(heads: nat -> nat, k: nat)
    requires Grows(heads)
    ensures heads(k) <= heads(k + 1)
  {
  }

  /** The sequence is `from`, `from + 1`, ..., `to`. */
  predicate Counting(all: seq<nat>, from: nat, to: int) {
    |all| == to + 1 - from && forall i | 0 <= i < |all| :: all[i] == from + i
  }

  /** The sequence is `from`, `from - 1`, ..., `to`. */
  predicate CountingDown(all: seq<nat>, from: int, to: nat) {
    |all| == from + 1 - to && forall i | 0 <= i < |all| :: all[i] == from - i
  }

  lemma UpJoins(from: nat, mid: nat, rest: seq<nat>, to: nat)
    requires from <= mid + 1 <= to + 1 && Counting(rest, mid + 1, to)
    ensures Counting(Up(from, mid) + rest, from, to)
  {
  }

  lemma DownJoins(from: nat, mid: nat, rest: seq<nat>, to: nat)
    requires 1 <= to <= mid <= from + 1 && CountingDown(rest, mid - 1, to)
    ensures CountingDown(Down(from, mid) + rest, from, to)
  {
  }

  lemma ForwardReply(head: nat, after: int, through: int, limit: int)
    requires 0 <= after <= through <= head <= MAX_SEQ && 1 <= limit <= MAX_PAGE_SIZE
    ensures ListMessages(Numbers(head), head, None, Some(after), Some(through), limit) ==
            Served(Page(Up(after + 1, Min(through, after + limit)), through > after + limit), Forward, Some(through))
  {
    ForwardPage(head, after, through, limit);
  }

  /** Without a bound of its own a forward request is bounded by the head it meets, and says so. */
  lemma UnboundedForwardReply(head: nat, after: int, limit: int)
    requires 0 <= after <= head <= MAX_SEQ && 1 <= limit <= MAX_PAGE_SIZE
    ensures ListMessages(Numbers(head), head, None, Some(after), None, limit) ==
            Served(Page(Up(after + 1, Min(head, after + limit)), head > after + limit), Forward, Some(head))
  {
    ForwardPage(head, after, head, limit);
  }

  lemma BackwardReply(head: nat, before: Option<int>, limit: int)
    requires head <= MAX_SEQ && (before.Some? ==> 1 <= before.value <= MAX_SEQ) && 1 <= limit <= MAX_PAGE_SIZE
    ensures var from := StartBelow(head, before);
            ListMessages(Numbers(head), head, before, None, None, limit) ==
            Served(Page(Down(from, if from + 1 - limit > 1 then from + 1 - limit else 1), from > limit), Backward, None)
  {
    BackwardPage(head, before, limit);
  }

  lemma SyncForwardStep(heads: nat -> nat, k: nat, after: int, through: int, limit: int)
    requires Grows(heads) && 0 <= after <= through <= heads(k) && 1 <= limit <= MAX_PAGE_SIZE
    ensures ListMessages(Numbers(heads(k)), heads(k), None, Some(after), Some(through), limit).Served?
    ensures through <= after + limit ==> SyncForward(heads, k, after, through, limit) == Up(after + 1, through)
    ensures through > after + limit ==>
              SyncForward(heads, k, after, through, limit) ==
              Up(after + 1, after + limit) + SyncForward(heads, k + 1, after + limit, through, limit)
  {
    ForwardReply(heads(k), after, through, limit);
  }

  lemma ScrollBackStep(heads: nat -> nat, k: nat, before: Option<int>, limit: int)
    requires Grows(heads) && (before.Some? ==> 1 <= before.value <= MAX_SEQ) && 1 <= limit <= MAX_PAGE_SIZE
    ensures ListMessages(Numbers(heads(k)), heads(k), before, None, None, limit).Served?
    ensures var from := StartBelow(heads(k), before);
            && (from <= limit ==> ScrollBack(heads, k, before, limit) == Down(from, 1))
            && (from > limit ==> ScrollBack(heads, k, before, limit) ==
                                 Down(from, from + 1 - limit) + ScrollBack(heads, k + 1, Some(from + 1 - limit), limit))
  {
    var from := StartBelow(heads(k), before);
    BackwardReply(heads(k), before, limit);
    var reply := ListMessages(Numbers(heads(k)), heads(k), before, None, None, limit);
    if from > limit {
      assert reply.page.items == Down(from, from + 1 - limit);
      assert Continuation(reply.page) == Some(from + 1 - limit);
    } else {
      assert Continuation(reply.page) == None;
    }
  }

  /**
    The forward loop is never refused, ends, and yields exactly the numbers above its start and up to the
    frozen bound, ascending, once each, however many messages arrive between its requests.
   */
  lemma {:induction false} SyncForwardIsComplete(heads: nat -> nat, k: nat, after: int, through: int, limit: int)
    requires Grows(heads) && 0 <= after <= through <= heads(k) && 1 <= limit <= MAX_PAGE_SIZE
    ensures Counting(SyncForward(heads, k, after, through, limit), after + 1, through)
    decreases through - after
  {
    if through > after + limit {
      HeadsGrow(heads, k);
      SyncForwardIsComplete(heads, k + 1, after + limit, through, limit);
      UpJoins(after + 1, after + limit, SyncForward(heads, k + 1, after + limit, through, limit), through);
    }
    SyncForwardStep(heads, k, after, through, limit);
  }

  /** A page and everything after it make up the whole. */
  lemma ScrollBackJoins(heads: nat -> nat, k: nat, before: Option<int>, limit: int)
    requires Grows(heads) && (before.Some? ==> 1 <= before.value <= MAX_SEQ) && 1 <= limit <= MAX_PAGE_SIZE
    requires var from := StartBelow(heads(k), before);
             from > limit ==> CountingDown(ScrollBack(heads, k + 1, Some(from + 1 - limit), limit), from - limit, 1)
    ensures CountingDown(ScrollBack(heads, k, before, limit), StartBelow(heads(k), before), 1)
  {
    var from := StartBelow(heads(k), before);
    if from > limit { DownJoins(from, from + 1 - limit, ScrollBack(heads, k + 1, Some(from + 1 - limit), limit), 1); }
    ScrollBackStep(heads, k, before, limit);
  }

  lemma SynchronizeStep(heads: nat -> nat, k: nat, after: int, limit: int)
    requires Grows(heads) && 0 <= after <= heads(k) && 1 <= limit <= MAX_PAGE_SIZE
    ensures heads(k) <= after + limit ==> Synchronize(heads, k, after, limit) == Up(after + 1, heads(k))
    ensures heads(k) > after + limit ==>
              Synchronize(heads, k, after, limit) ==
              Up(after + 1, after + limit) + SyncForward(heads, k + 1, after + limit, heads(k), limit)
  {
    UnboundedForwardReply(heads(k), after, limit);
  }

  /**
    A whole synchronisation yields exactly the numbers above its start and up to the head its first request met,
    ascending, once each, however many messages arrive meanwhile.
   */
  lemma SynchronizeIsComplete(heads: nat -> nat, k: nat, after: int, limit: int)
    requires Grows(heads) && 0 <= after <= heads(k) && 1 <= limit <= MAX_PAGE_SIZE
    ensures Counting(Synchronize(heads, k, after, limit), after + 1, heads(k))
  {
    if heads(k) > after + limit {
      HeadsGrow(heads, k);
      SyncForwardIsComplete(heads, k + 1, after + limit, heads(k), limit);
      UpJoins(after + 1, after + limit, SyncForward(heads, k + 1, after + limit, heads(k), limit), heads(k));
    }
    SynchronizeStep(heads, k, after, limit);
  }

  /** The backward loop yields every number below its start, descending, once each. */
  lemma {:induction false} ScrollBackIsComplete(heads: nat -> nat, k: nat, before: Option<int>, limit: int)
    requires Grows(heads) && (before.Some? ==> 1 <= before.value <= MAX_SEQ) && 1 <= limit <= MAX_PAGE_SIZE
    ensures CountingDown(ScrollBack(heads, k, before, limit), StartBelow(heads(k), before), 1)
    decreases StartBelow(heads(k), before)
  {
    var from := StartBelow(heads(k), before);
    if from > limit {
      HeadsGrow(heads, k);
      ScrollBackIsComplete(heads, k + 1, Some(from + 1 - limit), limit);
    }
    ScrollBackJoins(heads, k, before, limit);
  }

  /** `hasMore` is true exactly when the request for the next page would bring something. */
  lemma HasMoreMeansMore(head: nat, later: nat, after: int, through: int, limit: int)
    requires 0 <= after <= through <= head <= later && 1 <= limit
    ensures var page := FetchForward(Numbers(head), after, through, limit);
            page.hasMore <==> page.items != [] && FetchForward(Numbers(later), page.items[|page.items| - 1], through, limit).items != []
  {
    ForwardPage(head, after, through, limit);
    if after < through {
      ForwardPage(later, Min(through, after + limit), through, limit);
    }
  }

  lemma HasMoreMeansOlder(head: nat, later: nat, before: Option<int>, limit: int)
    requires head <= later <= MAX_SEQ && (before.Some? ==> 1 <= before.value) && 1 <= limit
    ensures var page := FetchBackward(Numbers(head), before, limit);
            page.hasMore <==> page.items != [] && FetchBackward(Numbers(later), Some(page.items[|page.items| - 1]), limit).items != []
  {
    var from := StartBelow(head, before);
    BackwardPage(head, before, limit);
    if from >= 1 {
      BackwardPage(later, Some(if from + 1 - limit > 1 then from + 1 - limit else 1), limit);
    }
  }
}
