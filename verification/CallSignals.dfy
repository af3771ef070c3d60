/** Signals of a call: their numbers, their repeats, and how a peer that lost the connection recovers them. */
module CallSignals {
  import opened Wrappers
  import opened Calls
  import opened CallWorld
  import opened CallRuns
  import opened History
  import opened Sets

  const SIGNALS_PAGE := 200

  function SignalSeqOf(w: World, id: CallId): nat { if id in w.calls then w.calls[id].signalSeq else 0 }

  ghost function PublishedBy(w: World, step: Step): Option<Publication> {
    if step.Signals? then PublishedSignal(w, step.id, step.user, step.signalId, step.body, step.now) else None
  }

  ghost predicate Issues(w: World, step: Step) {
    PublishedBy(w, step).Some? && FoundSignal(w, step.id, step.user, step.signalId).None?
  }

  /** Everything a run handed over for publication to the parties of a call, in order. */
  ghost function Publications(clock: int, steps: seq<Step>, id: CallId): seq<Publication> {
    if steps == [] then []
    else
      var before, last := steps[..|steps| - 1], steps[|steps| - 1];
      Publications(clock, before, id) +
      (if last.Signals? && last.id == id && PublishedBy(Run(clock, before), last).Some?
       then [PublishedBy(Run(clock, before), last).value] else [])
  }

  /** The numbers a run gave out to new signals of a call, in order. */
  ghost function Issued(clock: int, steps: seq<Step>, id: CallId): seq<nat> {
    if steps == [] then []
    else
      var before, last := steps[..|steps| - 1], steps[|steps| - 1];
      Issued(clock, before, id) +
      (if last.Signals? && last.id == id && Issues(Run(clock, before), last)
       then [PublishedBy(Run(clock, before), last).value.seqNo] else [])
  }

  // ----- Numbers -----

  lemma CounterOfNewborns(w: World, step: Step, id: CallId)
    requires Possible(w, step) && !step.Signals?
    ensures SignalSeqOf(Next(w, step), id) == SignalSeqOf(w, id)
  {
    StepMovesOnce(w, step);
  }

  lemma CounterAfterSignal(w: World, step: Step, id: CallId)
    requires step.Signals?
    ensures SignalSeqOf(Next(w, step), id) == SignalSeqOf(w, id) + if step.id == id && Issues(w, step) then 1 else 0
    ensures step.id == id && Issues(w, step) ==> PublishedBy(w, step).value.seqNo == SignalSeqOf(Next(w, step), id)
  {
  }

  /**
    The numbers given out for a call are 1, 2, 3, ... in this order, whatever was purged or repeated in between:
    none is given twice and none is skipped.
   */
  lemma {:induction false} NumbersAreDense(clock: int, steps: seq<Step>, id: CallId)
    requires Legal(clock, steps)
    ensures var issued := Issued(clock, steps, id);
            && |issued| == SignalSeqOf(Run(clock, steps), id)
            && forall k | 0 <= k < |issued| :: issued[k] == k + 1
  {
    if steps != [] {
      var before, last := steps[..|steps| - 1], steps[|steps| - 1];
      NumbersAreDense(clock, before, id);
      if last.Signals? {
        CounterAfterSignal(Run(clock, before), last, id);
      } else {
        CounterOfNewborns(Run(clock, before), last, id);
      }
    }
  }

  // ----- Bodies -----

  lemma TransitionKeepsSignals(w: World, id: CallId, change: Change, tab: Option<Tab>, now: int)
    requires id in w.calls && change.To?
    ensures Transition(w, id, change, tab, now).signals == w.signals
  {
  }

  lemma {:induction false} SweepKeepsSignals(w: World, claimed: seq<CallId>, now: int)
    ensures SweptCalls(w, claimed, now).signals == w.signals
  {
    if claimed != [] { SweepKeepsSignals(w, claimed[..|claimed| - 1], now); }
  }

  lemma LineFreshenKeepsSignals(w: World, user: UserId, now: int)
    ensures LineFreshened(w, user, now).signals == w.signals
  {
  }

  lemma BothFreshenKeepSignals(w: World, r: Request, now: int)
    ensures BothFreshened(w, r, now).signals == w.signals
  {
    LineFreshenKeepsSignals(w, r.caller, now);
    LineFreshenKeepsSignals(LineFreshened(w, r.caller, now), r.callee, now);
  }

  lemma StartKeepsSignals(w: World, r: Request, now: int)
    ensures AfterStart(w, r, now).signals == w.signals
  {
    var f := BothFreshened(w, r, now);
    BothFreshenKeepSignals(w, r, now);
    assert Created(f, r).signals == f.signals;
    if LineOf(f, r.caller).Some? { TransitionKeepsSignals(f, LineOf(f, r.caller).value, To(Accepted, None), None, now); }
  }

  /** Only a new signal adds a row, under the number it was given; only a sweep takes rows away, expired ones. */
  lemma RowsOfSignals(w: World, step: Step)
    ensures !step.Signals? && !step.Sweeps? ==> Next(w, step).signals == w.signals
    ensures step.Sweeps? ==> Next(w, step).signals == map k | k in w.signals && w.signals[k].expiresAt > step.now :: w.signals[k]
    ensures step.Signals? && !Issues(w, step) ==> Next(w, step).signals == w.signals
    ensures step.Signals? && Issues(w, step) ==>
              Next(w, step).signals ==
              w.signals[SignalKey(step.id, PublishedBy(w, step).value.seqNo) :=
                        Signal(step.user, step.signalId, step.body, step.now + SIGNAL_TTL_SECONDS * SECOND)]
  {
    match step
    case Acts(id, user, wish, now) =>
    case Starts(request, now) => StartKeepsSignals(w, request, now);
    case Undelivered(id, now) =>
    case Sweeps(claimed, now) => SweepKeepsSignals(w, claimed, now);
    case Signals(id, user, signalId, body, now) =>
  }

  predicate OneBodyEach(pubs: seq<Publication>) {
    forall i, j | 0 <= i < |pubs| && 0 <= j < |pubs| && pubs[i].seqNo == pubs[j].seqNo :: pubs[i].body == pubs[j].body
  }

  /** What was published under a number is what its row still holds, and no number beyond the counter was used. */
  ghost predicate Backed(w: World, id: CallId, pubs: seq<Publication>) {
    forall p | p in pubs ::
      && 1 <= p.seqNo <= SignalSeqOf(w, id)
      && (SignalKey(id, p.seqNo) in w.signals ==> w.signals[SignalKey(id, p.seqNo)].body == p.body)
  }

  /** A publication is backed by the tables it leaves, whether its number is new or found. */
  lemma PublicationIsBacked(w: World, step: Step)
    requires Sound(w) && step.Signals? && PublishedBy(w, step).Some?
    ensures var p, d := PublishedBy(w, step).value, Next(w, step);
            && 1 <= p.seqNo <= SignalSeqOf(d, step.id)
            && SignalKey(step.id, p.seqNo) in d.signals && d.signals[SignalKey(step.id, p.seqNo)].body == p.body
  {
    RowsOfSignals(w, step);
    CounterAfterSignal(w, step, step.id);
    if !Issues(w, step) {
      var found := FoundSignal(w, step.id, step.user, step.signalId);
      assert HoldsSignal(w, step.id, step.user, step.signalId, found.value);
      assert SignalsSound(w);
    }
  }

  lemma StaysBacked(w: World, step: Step, id: CallId, pubs: seq<Publication>)
    requires Sound(w) && Possible(w, step) && Backed(w, id, pubs)
    ensures Backed(Next(w, step), id, pubs)
  {
    RowsOfSignals(w, step);
    if step.Signals? { CounterAfterSignal(w, step, id); } else { CounterOfNewborns(w, step, id); }
  }

  /** Adding a backed publication to backed ones keeps one body for each number: a fresh number meets none of them. */
  lemma BackedAgree(d: World, id: CallId, pubs: seq<Publication>, p: Publication)
    requires OneBodyEach(pubs) && Backed(d, id, pubs)
    requires SignalKey(id, p.seqNo) in d.signals && d.signals[SignalKey(id, p.seqNo)].body == p.body
    requires 1 <= p.seqNo <= SignalSeqOf(d, id)
    ensures OneBodyEach(pubs + [p]) && Backed(d, id, pubs + [p])
  {
    var all := pubs + [p];
    forall i, j | 0 <= i < |all| && 0 <= j < |all| && all[i].seqNo == all[j].seqNo ensures all[i].body == all[j].body {
      if i < |pubs| { assert all[i] in pubs; }
      if j < |pubs| { assert all[j] in pubs; }
    }
  }

  lemma {:induction false} PublicationsAreBacked(clock: int, steps: seq<Step>, id: CallId)
    requires Legal(clock, steps)
    ensures OneBodyEach(Publications(clock, steps, id)) && Backed(Run(clock, steps), id, Publications(clock, steps, id))
  {
    if steps != [] {
      var before, last := steps[..|steps| - 1], steps[|steps| - 1];
      var w := Run(clock, before);
      PublicationsAreBacked(clock, before, id);
      RunKeepsSound(clock, before);
      StaysBacked(w, last, id, Publications(clock, before, id));
      if last.Signals? && last.id == id && PublishedBy(w, last).Some? {
        PublicationIsBacked(w, last);
        BackedAgree(Run(clock, steps), id, Publications(clock, before, id), PublishedBy(w, last).value);
      }
    }
  }

  /** Whoever repeats whatever, and whatever is purged, a number of a call was only ever published with one body. */
  lemma OneNumberOneBody(clock: int, steps: seq<Step>, id: CallId, i: nat, j: nat)
    requires Legal(clock, steps) && i < |Publications(clock, steps, id)| && j < |Publications(clock, steps, id)|
    ensures var pubs := Publications(clock, steps, id); pubs[i].seqNo == pubs[j].seqNo ==> pubs[i].body == pubs[j].body
  {
    PublicationsAreBacked(clock, steps, id);
  }

  /** While a named signal is stored, its repeat is published under its number with its first body, and stores nothing. */
  lemma RepeatGetsTheSameNumber(w: World, id: CallId, user: UserId, name: SignalId, seqNo: nat, body: Body, now: int)
    requires Sound(w) && HoldsSignal(w, id, user, Some(name), seqNo) && Talking(w, id, user, now)
    ensures PublishedSignal(w, id, user, Some(name), body, now) == Some(Publication(seqNo, w.signals[SignalKey(id, seqNo)].body))
    ensures AfterSignal(w, id, user, Some(name), body, now) == Ticked(w, now)
  {
    var found := FoundSignal(w, id, user, Some(name));
    assert found.Some? && HoldsSignal(w, id, user, Some(name), found.value);
    assert SignalsSound(w);
  }

  /** A new signal stays stored, so that a repeat finds it, until a sweep later than its lifetime. */
  lemma StoredUntilExpired(w: World, step: Step, key: SignalKey)
    requires Sound(w) && key in w.signals && step.now < w.signals[key].expiresAt
    ensures key in Next(w, step).signals && Next(w, step).signals[key] == w.signals[key]
  {
    RowsOfSignals(w, step);
    if step.Signals? && Issues(w, step) { CounterAfterSignal(w, step, step.id); assert SignalsSound(w); }
  }

  /** Signals are only ever stored or published for calls that were answered. */
  lemma OnlyAnsweredCallsSignal(clock: int, steps: seq<Step>, key: SignalKey, p: Publication)
    requires Legal(clock, steps)
    requires key in Run(clock, steps).signals || p in Publications(clock, steps, key.call)
    ensures EverWas(clock, steps, key.call, Accepted)
  {
    var w := Run(clock, steps);
    RunKeepsSound(clock, steps);
    RecordTellsHistory(clock, steps, key.call);
    if key !in w.signals { PublishersWereAnswered(clock, steps, key.call); }
  }

  lemma {:induction false} PublishersWereAnswered(clock: int, steps: seq<Step>, id: CallId)
    requires Legal(clock, steps) && Publications(clock, steps, id) != []
    ensures EverWas(clock, steps, id, Accepted)
  {
    var before, last := steps[..|steps| - 1], steps[|steps| - 1];
    if Publications(clock, before, id) != [] {
      PublishersWereAnswered(clock, before, id);
    } else {
      RunKeepsSound(clock, before);
      RecordTellsHistory(clock, before, id);
      assert Coherent(Run(clock, before).calls[id], Run(clock, before).clock);
    }
  }

  // ----- Recovery -----

  /** The signals a peer has still to learn: the other side's, alive, above the last number seen. */
  ghost function Unheard(w: World, id: CallId, user: UserId, after: int, now: int): set<nat> {
    set k | k in w.signals && k.call == id && w.signals[k].sender != user && k.seqNo > after && w.signals[k].expiresAt > now :: k.seqNo
  }

  datatype Listing = NotFound | Listed(numbers: seq<nat>)

  ghost function ListSignals(w: World, id: CallId, user: UserId, after: int, now: int): Listing {
    if id !in w.calls || !w.calls[id].Involves(user) then NotFound
    else Listed(Ascending(Unheard(w, id, user, if after > 0 then after else 0, now), SIGNALS_PAGE))
  }

  /** The peer's loop: ask again after the last number received, until a page comes back empty. */
  ghost function Recovered(w: World, id: CallId, user: UserId, after: nat, now: int): seq<nat>
    decreases |Unheard(w, id, user, after, now)|
  {
    var reply := ListSignals(w, id, user, after, now);
    if reply.NotFound? || reply.numbers == [] then []
    else
      var page := reply.numbers;
      PageLeavesTheRest(w, id, user, after, now);
      page + Recovered(w, id, user, page[|page| - 1], now)
  }

  predicate StrictlyAscending(s: seq<nat>) { forall i, j | 0 <= i < j < |s| :: s[i] < s[j] }

  ghost function Elements(s: seq<nat>): set<nat> { set x | x in s }

  /** A page of a sorted query holds the least elements, and what follows its last one is exactly the rest. */
  lemma {:induction false} AscendingPage(s: set<nat>, limit: nat)
    requires limit > 0 && s != {}
    ensures var page := Ascending(s, limit);
            && 1 <= |page| <= limit && StrictlyAscending(page) && page[0] == Least(s)
            && page[|page| - 1] in s && Elements(page) == UpTo(s, page[|page| - 1])
    decreases limit
  {
    var least := Least(s);
    var rest := s - {least};
    var page := Ascending(s, limit);
    if limit > 1 && rest != {} {
      AscendingPage(rest, limit - 1);
      var tail := Ascending(rest, limit - 1);
      assert page == [least] + tail;
      Prepended(least, tail);
      assert UpTo(s, tail[|tail| - 1]) == {least} + UpTo(rest, tail[|tail| - 1]);
    } else {
      assert Ascending(rest, limit - 1) == [];
      assert page == [least];
      assert Elements(page) == {least};
    }
  }

  ghost function UpTo(s: set<nat>, last: nat): set<nat> { set x | x in s && x <= last }

  lemma Prepended(x: nat, tail: seq<nat>)
    requires tail != [] && StrictlyAscending(tail) && x < tail[0]
    ensures StrictlyAscending([x] + tail) && Elements([x] + tail) == {x} + Elements(tail)
  {
    assert ([x] + tail)[1..] == tail;
    forall i, j | 0 <= i < j < |[x] + tail| ensures ([x] + tail)[i] < ([x] + tail)[j] {
      assert i == 0 || ([x] + tail)[i] == tail[i - 1];
      assert tail[0] <= tail[j - 1];
    }
  }

  lemma Joined(a: seq<nat>, b: seq<nat>)
    requires a != [] && StrictlyAscending(a) && StrictlyAscending(b) && forall x | x in Elements(b) :: x > a[|a| - 1]
    ensures StrictlyAscending(a + b) && Elements(a + b) == Elements(a) + Elements(b)
  {
    forall i, j | 0 <= i < j < |a + b| ensures (a + b)[i] < (a + b)[j] {
      if i < |a| <= j {
        assert b[j - |a|] in Elements(b);
        assert a[i] <= a[|a| - 1];
      }
    }
  }

  lemma PageLeavesTheRest(w: World, id: CallId, user: UserId, after: nat, now: int)
    requires id in w.calls && w.calls[id].Involves(user)
    requires ListSignals(w, id, user, after, now).numbers != []
    ensures var missed, page := Unheard(w, id, user, after, now), ListSignals(w, id, user, after, now).numbers;
            && StrictlyAscending(page) && page[|page| - 1] in missed && page[|page| - 1] > after
            && Unheard(w, id, user, page[|page| - 1], now) == missed - Elements(page)
            && Elements(page) <= missed
            && |Unheard(w, id, user, page[|page| - 1], now)| < |missed|
  {
    var missed, page := Unheard(w, id, user, after, now), ListSignals(w, id, user, after, now).numbers;
    assert Unheard(w, id, user, after, now) != {};
    AscendingPage(missed, SIGNALS_PAGE);
    var last := page[|page| - 1];
    assert last in Elements(page);
    assert Unheard(w, id, user, last, now) == missed - Elements(page);
    assert last !in missed - Elements(page);
    SubsetSize(Unheard(w, id, user, last, now), missed);
  }

  /**
    However many pages it takes, the loop returns exactly the peer's signals that are still alive and above `after`,
    each once and in order; and it always ends.
   */
  lemma {:induction false} RecoveryIsComplete(w: World, id: CallId, user: UserId, after: nat, now: int)
    requires id in w.calls && w.calls[id].Involves(user)
    ensures var all := Recovered(w, id, user, after, now);
            StrictlyAscending(all) && Elements(all) == Unheard(w, id, user, after, now)
    decreases |Unheard(w, id, user, after, now)|
  {
    var page := ListSignals(w, id, user, after, now).numbers;
    if page == [] {
      assert Unheard(w, id, user, after, now) == {};
    } else {
      PageLeavesTheRest(w, id, user, after, now);
      RecoveryIsComplete(w, id, user, page[|page| - 1], now);
      RecoveredByPages(w, id, user, after, now);
      PageThenRest(Unheard(w, id, user, after, now), page, Recovered(w, id, user, page[|page| - 1], now));
    }
  }

  lemma RecoveredByPages(w: World, id: CallId, user: UserId, after: nat, now: int)
    requires id in w.calls && w.calls[id].Involves(user) && ListSignals(w, id, user, after, now).numbers != []
    ensures var page := ListSignals(w, id, user, after, now).numbers;
            Recovered(w, id, user, after, now) == page + Recovered(w, id, user, page[|page| - 1], now)
  {
  }

  lemma PageThenRest(unheard: set<nat>, page: seq<nat>, rest: seq<nat>)
    requires page != [] && StrictlyAscending(page) && StrictlyAscending(rest) && Elements(page) <= unheard
    requires Elements(rest) == unheard - Elements(page) && forall x | x in Elements(rest) :: x > page[|page| - 1]
    ensures StrictlyAscending(page + rest) && Elements(page + rest) == unheard
  {
    Joined(page, rest);
    assert Elements(page) + (unheard - Elements(page)) == unheard;
  }

  /** What is recovered was sent by the other party of the user's own call. */
  ghost predicate EachComesFromThePeer(w: World, id: CallId, user: UserId, numbers: seq<nat>) {
    && id in w.calls && w.calls[id].Involves(user)
    && forall n | n in numbers :: SignalKey(id, n) in w.signals && w.signals[SignalKey(id, n)].sender == w.calls[id].PeerOf(user)
  }

  /** An outsider learns nothing, and a party only what the other party sent. */
  lemma OnlyThePeerIsHeard(w: World, id: CallId, user: UserId, after: nat, now: int)
    requires Sound(w)
    ensures Recovered(w, id, user, after, now) != [] ==> EachComesFromThePeer(w, id, user, Recovered(w, id, user, after, now))
  {
    if Recovered(w, id, user, after, now) != [] {
      RecoveryIsComplete(w, id, user, after, now);
      var all := Recovered(w, id, user, after, now);
      forall n | n in all ensures SignalKey(id, n) in w.signals && w.signals[SignalKey(id, n)].sender == w.calls[id].PeerOf(user) {
        assert n in Elements(all);
        assert SignalsSound(w);
      }
    }
  }
}
