/**
  The code and its description part at inputs that really occur: one short run for each departure, whose exact extent
  is stated elsewhere (`CallRuns.AnsweredWithSuccessExactlyWhen`, `CallSweeper.SweepShowsExactlyWhen`,
  `Unread.ErasureOfOneself`, `Unread.RebuildAgreesWithRecount`).
 */
module Departures {
  import opened Wrappers
  import opened Calls
  import opened CallWorld
  import opened CallRuns
  import opened CallSignals
  import opened CallSweeper
  import U = Unread
  import UR = UnreadRuns
  import R = Receipts

  // ----- Calls: user 1 rings user 2 -----

  const RINGS := Request(1, 2, 5, Audio, 10, None, true, false)
  const RINGS_BACK := Request(2, 1, 5, Audio, 11, None, true, false)
  const NEW := NewCall(5, 1, 2, Audio, 0)
  const LINES := {Participant(10, 1), Participant(10, 2)}

  lemma Ringing()
    ensures Legal(0, [Starts(RINGS, 0)]) && Run(0, [Starts(RINGS, 0)]) == World(map[10 := NEW], LINES, map[], map[], 0)
  {
    var steps := [Starts(RINGS, 0)];
    assert steps[..0] == [];
    assert Opening(0).calls == map[];
    assert LinesFree(Opening(0), RINGS);
  }

  lemma OneMore(clock: int, steps: seq<Step>, step: Step)
    requires Legal(clock, steps) && Possible(Run(clock, steps), step)
    ensures Legal(clock, steps + [step]) && Run(clock, steps + [step]) == Next(Run(clock, steps), step)
  {
    assert (steps + [step])[..|steps|] == steps;
  }

  /** Both rang each other: the call is accepted with no tab recorded. */
  lemma RangEachOther()
    ensures var steps := [Starts(RINGS, 0), Starts(RINGS_BACK, SECOND)];
            && Legal(0, steps) && 10 in Run(0, steps).calls && Run(0, steps).clock == SECOND
            && Run(0, steps).calls[10] == Applied(NEW, Accepted, None, None, SECOND)
  {
    Ringing();
    var w := Run(0, [Starts(RINGS, 0)]);
    OneMore(0, [Starts(RINGS, 0)], Starts(RINGS_BACK, SECOND));
    assert [Starts(RINGS, 0)] + [Starts(RINGS_BACK, SECOND)] == [Starts(RINGS, 0), Starts(RINGS_BACK, SECOND)];
    OnlyLine(w, 1);
    OnlyLine(w, 2);
    var one := LineFreshened(w, 2, SECOND);
    assert one == Ticked(w, SECOND);
    OnlyLine(one, 1);
    OnlyLine(one, 2);
    assert BothFreshened(w, RINGS_BACK, SECOND) == one;
  }

  lemma OnlyLine(w: World, user: UserId)
    requires w.calls.Keys == {10} && Participant(10, user) in w.participants
    ensures LineOf(w, user) == Some(10)
  {
    assert 10 in w.calls.Keys;
    assert LineOf(w, user).Some? && LineOf(w, user).value in w.calls.Keys;
  }

  lemma NoTabIsRefused(w: World)
    requires 10 in w.calls && w.calls[10] == Applied(NEW, Accepted, None, None, SECOND)
    ensures ReplyToWish(w, 10, 2, Answer(Some(1)), 2 * SECOND).Ok?
    ensures ReplyToWish(AfterWish(w, 10, 2, Answer(Some(1)), 2 * SECOND), 10, 2, Answer(Some(2)), 2 * SECOND).Ok?
  {
    WishOnOneCall(w, 10, 2, Answer(Some(1)), 2 * SECOND);
  }

  /** Two tabs of the callee are both told that they answered. */
  lemma BothTabsAnswered()
    ensures var steps := [Starts(RINGS, 0), Starts(RINGS_BACK, SECOND)];
            var first := Acts(10, 2, Answer(Some(1)), 2 * SECOND);
            && Legal(0, steps + [first])
            && ReplyToWish(Run(0, steps), 10, 2, Answer(Some(1)), 2 * SECOND).Ok?
            && ReplyToWish(Run(0, steps + [first]), 10, 2, Answer(Some(2)), 2 * SECOND).Ok?
  {
    RangEachOther();
    OneMore(0, [Starts(RINGS, 0), Starts(RINGS_BACK, SECOND)], Acts(10, 2, Answer(Some(1)), 2 * SECOND));
    NoTabIsRefused(Run(0, [Starts(RINGS, 0), Starts(RINGS_BACK, SECOND)]));
  }

  // ----- The three kinds of steps that can tell that the sweeper was there -----

  /** What a step tells and leaves, with and without a sweep of the call at the moment of the step. */
  lemma SweptAway(w: World, now: int)
    requires 10 in w.calls && Due(w, 10, now)
    ensures 10 in Swept(w, [10], now).calls && Swept(w, [10], now).calls[10] == Expired(w.calls[10], now)
  {
    var before := SweptCalls(w, [], now);
    assert [10][..0] == [];
    assert SweptCalls(w, [10], now) == Freshened(before, 10, now);
    FreshenOneCall(before, 10, now);
  }

  /** The caller who answers his own call 31 s after ringing is told "ended", or "not found" if a sweep came first. */
  lemma CallerNoticesTheSweep()
    ensures var w, step := Run(0, [Starts(RINGS, 0)]), Acts(10, 1, Answer(None), 31 * SECOND);
            && Legal(0, [Starts(RINGS, 0)]) && Possible(w, step)
            && ReplyTo(w, step) == Some(Rejected(CallEnded))
            && ReplyTo(Swept(w, [10], 31 * SECOND), step) == Some(Rejected(CallNotFound))
  {
    Ringing();
    SweptAway(Run(0, [Starts(RINGS, 0)]), 31 * SECOND);
  }

  /** The call withdrawn 31 s after ringing has failed, or was missed if a sweep came first. */
  lemma WithdrawalNoticesTheSweep()
    ensures var w, step := Run(0, [Starts(RINGS, 0)]), Undelivered(10, 31 * SECOND);
            && Legal(0, [Starts(RINGS, 0)]) && Possible(w, step)
            && 10 in Next(w, step).calls && Next(w, step).calls[10].endReason == Some(Failed)
            && 10 in Next(Swept(w, [10], 31 * SECOND), step).calls
            && Next(Swept(w, [10], 31 * SECOND), step).calls[10].endReason == Some(Missed)
  {
    Ringing();
    SweptAway(Run(0, [Starts(RINGS, 0)]), 31 * SECOND);
  }

  const TALK := Applied(Applied(NEW, Accepted, None, None, SECOND), Active, None, None, 2 * SECOND)
  const SENT := Signal(1, Some(7), 3, 63 * SECOND)

  /** Answered after a second, connected after two, a named signal from the caller after three. */
  function Conversing(): seq<Step> {
    [Starts(RINGS, 0), Acts(10, 2, Answer(None), SECOND), Acts(10, 2, ReportConnected(None), 2 * SECOND), Signals(10, 1, Some(7), 3, 3 * SECOND)]
  }

  lemma Talks()
    ensures Legal(0, Conversing())
    ensures Run(0, Conversing()) ==
            World(map[10 := TALK.(signalSeq := 1)], LINES, map[], map[SignalKey(10, 1) := SENT], 3 * SECOND)
  {
    var ring, s := [Starts(RINGS, 0)], Conversing();
    Ringing();
    OneMore(0, ring, s[1]);
    assert Run(0, ring + [s[1]]) == World(map[10 := Applied(NEW, Accepted, None, None, SECOND)], LINES, map[], map[], SECOND);
    OneMore(0, ring + [s[1]], s[2]);
    var talk := World(map[10 := TALK], LINES, map[], map[], 2 * SECOND);
    assert Run(0, ring + [s[1]] + [s[2]]) == talk;
    OneMore(0, ring + [s[1]] + [s[2]], s[3]);
    assert forall n :: !HoldsSignal(talk, 10, 1, Some(7), n);
    assert ring + [s[1]] + [s[2]] + [s[3]] == s;
  }

  /** The caller repeats the signal 64 s after ringing: it goes out as number one again, or as number two if a sweep came first. */
  lemma RepeatNoticesTheSweep()
    ensures var w, step := Run(0, Conversing()), Signals(10, 1, Some(7), 3, 64 * SECOND);
            && Legal(0, Conversing()) && Possible(w, step)
            && PublishedBy(w, step) == Some(Publication(1, 3))
            && PublishedBy(Swept(w, [], 64 * SECOND), step) == Some(Publication(2, 3))
  {
    Talks();
    var w := Run(0, Conversing());
    assert HoldsSignal(w, 10, 1, Some(7), 1);
    assert SweptCalls(w, [], 64 * SECOND) == Ticked(w, 64 * SECOND);
    assert Swept(w, [], 64 * SECOND).signals == map[];
  }

  // ----- Unread counters: user 1 writes to user 2 -----

  const BEGUN := U.Conversation(map[1 := U.Member(0, None), 2 := U.Member(0, None)], map[], map[], 0, map[], 0, map[])
  const FIRST := U.MessageCreated(1, 1, Some({2}))

  lemma WrittenAndCounted()
    ensures var steps := [UR.Send(1, 5), UR.Deliver(FIRST)];
            && UR.Started(BEGUN) && UR.Legal(BEGUN, steps)
            && UR.Run(BEGUN, steps).log == map[1 := U.Message(Some(1), 5)] && UR.Run(BEGUN, steps).rows == map[1 := 0, 2 := 1]
            && UR.Run(BEGUN, steps).marks == map[] && UR.Run(BEGUN, steps).checkpoint == 1
  {
    var send, steps := [UR.Send(1, 5)], [UR.Send(1, 5), UR.Deliver(FIRST)];
    assert send[..0] == [] && steps[..1] == send;
    assert U.ActiveMembers(BEGUN) == {1, 2} && {1, 2} - {1} == {2};
    var c := UR.Run(BEGUN, send);
    assert UR.Legal(BEGUN, []) && UR.Possible(BEGUN, send[0]) && UR.Run(BEGUN, []) == BEGUN;
    assert UR.Legal(BEGUN, send);
    assert c == UR.Next(BEGUN, send[0]);
    assert c == BEGUN.(lastSeq := 1, log := map[1 := U.Message(Some(1), 5)], facts := map[1 := FIRST]);
    assert U.ActiveMembers(c) == {1, 2} && U.AffectedUsers({2}, 1) == {1, 2};
    assert U.UnreadPositions(c, 1, 0, 1) == {} && U.UnreadPositions(c, 2, 0, 1) == {1};
    assert U.RebuildPositions(c, 1, 1) == {} && U.RebuildPositions(c, 2, 1) == {1};
    assert U.StepRows(c, FIRST) == map[1 := 0, 2 := 1];
  }

  /** The author erased, his own row still says that nothing is unread, while a count finds his own message. */
  lemma ErasedAuthorsRow()
    ensures var steps := [UR.Send(1, 5), UR.Deliver(FIRST), UR.Erase(1)];
            && UR.Legal(BEGUN, steps)
            && 1 in UR.Run(BEGUN, steps).rows && UR.Run(BEGUN, steps).rows[1] == 0
            && U.Recount(UR.Run(BEGUN, steps), 1, 1) == 1
  {
    var before, steps := [UR.Send(1, 5), UR.Deliver(FIRST)], [UR.Send(1, 5), UR.Deliver(FIRST), UR.Erase(1)];
    assert steps[..2] == before;
    WrittenAndCounted();
    var d := UR.Run(BEGUN, steps);
    assert d.log == map[1 := U.Message(None, 5)];
    assert U.UnreadPositions(d, 1, 0, 1) == {1};
  }

  // Outside direct conversations somebody may join after a message was written.
  const JOINED_LATE := BEGUN.(members := map[1 := U.Member(0, None), 2 := U.Member(10, None)])

  /** The message is older than the member: the rebuild does not count it, the recount of a receipt does. */
  lemma LateMemberIsCountedTwoWays()
    ensures var c := UR.Next(JOINED_LATE, UR.Send(1, 5));
            var rebuilt := UR.Next(c, UR.Deliver(FIRST));
            var recounted := UR.Next(rebuilt, UR.Receipt(2, R.Receipts(Some(0), Some(0)), 1));
            && 2 in rebuilt.rows && rebuilt.rows[2] == 0
            && 2 in recounted.rows && recounted.rows[2] == 1
  {
    assert U.ActiveMembers(JOINED_LATE) == {1, 2} && {1, 2} - {1} == {2};
    var c := UR.Next(JOINED_LATE, UR.Send(1, 5));
    assert U.ActiveMembers(c) == {1, 2} && U.AffectedUsers({2}, 1) == {1, 2};
    assert U.RebuildPositions(c, 2, 1) == {};
    var rebuilt := UR.Next(c, UR.Deliver(FIRST));
    assert 2 in U.StepRows(c, FIRST) && U.StepRows(c, FIRST)[2] == 0;
    assert U.ActiveMembers(rebuilt) == {1, 2};
    assert U.UnreadPositions(rebuilt, 2, 0, 1) == {1};
  }
}
