/**
  Delivery and read receipts of one reader in one conversation:
  `domain/receipts.py` and the GREATEST upsert of `repositories/read_states.py`.
 */
module Receipts {
  import opened Wrappers

  const MIN_RECEIPT_SEQ := 0
  const MAX_SEQ := 0x7fff_ffff_ffff_ffff

  datatype Receipts = Receipts(delivered: Option<int>, read: Option<int>)

  datatype ReadState = ReadState(delivered: nat, read: nat)

  const EMPTY_STATE := ReadState(MIN_RECEIPT_SEQ, MIN_RECEIPT_SEQ)

  datatype Fault = NoNumber | BelowMinimum | AboveInt64 | AboveHead

  function ValidateNumber(n: Option<int>): Option<Fault> {
    match n
    case None => None
    case Some(v) =>
      if v < MIN_RECEIPT_SEQ then Some(BelowMinimum)
      else if v > MAX_SEQ then Some(AboveInt64)
      else None
  }

  function Validate(r: Receipts): Option<Fault> {
    if r.delivered.None? && r.read.None? then Some(NoNumber)
    else if ValidateNumber(r.delivered).Some? then ValidateNumber(r.delivered)
    else ValidateNumber(r.read)
  }

  function ValidateBound(r: Receipts, head: nat): Option<Fault> {
    if r.delivered.Some? && r.delivered.value > head then Some(AboveHead)
    else if r.read.Some? && r.read.value > head then Some(AboveHead)
    else None
  }

  /** Both validators let the receipts through for a conversation whose head is `head`. */
  predicate Accepted(r: Receipts, head: nat) {
    Validate(r).None? && ValidateBound(r, head).None?
  }

  /** The state a receipt speaks of: what is read was delivered. */
  function StateOf(r: Receipts): ReadState
    requires Validate(r).None?
  {
    var delivered := if r.delivered.None? then 0 else r.delivered.value;
    var read := if r.read.None? then 0 else r.read.value;
    ReadState(Max(delivered, read), read)
  }

  function Max(a: nat, b: nat): nat { if a >= b then a else b }

  /** The stored row after `INSERT ... ON CONFLICT DO UPDATE` with GREATEST on both columns. */
  function Upsert(stored: Option<ReadState>, s: ReadState): ReadState {
    match stored
    case None => s
    case Some(row) => ReadState(Max(row.delivered, s.delivered), Max(row.read, s.read))
  }

  /** Whether the write moved the state, an absent row counting as the empty state. */
  predicate AdvancedFrom(previous: Option<ReadState>, stored: ReadState) {
    stored != (if previous.Some? then previous.value else EMPTY_STATE)
  }

  predicate AtMost(a: ReadState, b: ReadState) {
    a.delivered <= b.delivered && a.read <= b.read
  }

  ghost predicate AllAccepted(rs: seq<Receipts>, head: nat) {
    forall i :: 0 <= i < |rs| ==> Accepted(rs[i], head)
  }

  /** The row after writing the receipts one by one into an absent row. */
  ghost function Stored(rs: seq<Receipts>): Option<ReadState>
    requires forall i :: 0 <= i < |rs| ==> Validate(rs[i]).None?
  {
    if rs == [] then None
    else Some(Upsert(Stored(rs[..|rs| - 1]), StateOf(rs[|rs| - 1])))
  }

  /** How many of those writes are announced as an advance. */
  ghost function Advances(rs: seq<Receipts>): nat
    requires forall i :: 0 <= i < |rs| ==> Validate(rs[i]).None?
  {
    if rs == [] then 0
    else
      var before := rs[..|rs| - 1];
      Advances(before) + if AdvancedFrom(Stored(before), Stored(rs).value) then 1 else 0
  }

  predicate Between(n: Option<int>, most: int) { n.Some? ==> 0 <= n.value <= most }

  /** A receipt is accepted when it names a number at all, and every one it names lies between zero and the head. */
  lemma AcceptedExactlyWhen(r: Receipts, head: nat)
    requires head <= MAX_SEQ
    ensures Accepted(r, head) <==> (r.delivered.Some? || r.read.Some?) && Between(r.delivered, head) && Between(r.read, head)
  {
  }

  /** What is wrong with a refused one: no number, a negative one, one beyond 64 bits, or one above the head, the delivered one looked at first. */
  lemma FaultExactlyWhen(r: Receipts, head: nat)
    ensures Validate(r) == Some(NoNumber) <==> r.delivered.None? && r.read.None?
    ensures Validate(r) == Some(BelowMinimum) <==>
            (r.delivered.Some? && r.delivered.value < 0) || (Between(r.delivered, 9_223_372_036_854_775_807) && r.read.Some? && r.read.value < 0)
    ensures Validate(r) == Some(AboveInt64) <==>
            || (r.delivered.Some? && r.delivered.value > 9_223_372_036_854_775_807)
            || (Between(r.delivered, 9_223_372_036_854_775_807) && r.read.Some? && r.read.value > 9_223_372_036_854_775_807)
    ensures Validate(r) != Some(AboveHead)
    ensures ValidateBound(r, head) ==
            if (r.delivered.Some? && r.delivered.value > head) || (r.read.Some? && r.read.value > head) then Some(AboveHead) else None
  {
  }

  /** What a receipt claims: to have read is to have got, and what is not mentioned is not claimed. */
  lemma ClaimOf(r: Receipts)
    requires Validate(r).None?
    ensures r.read.Some? ==> StateOf(r).read == r.read.value
    ensures r.read.None? ==> StateOf(r).read == 0
    ensures r.delivered.Some? ==> StateOf(r).delivered >= r.delivered.value
    ensures StateOf(r).delivered == StateOf(r).read || r.delivered == Some(StateOf(r).delivered)
    ensures StateOf(r).read <= StateOf(r).delivered
  {
  }

  /** Every accepted receipt keeps `read <= delivered <= head`, whatever the order of writes. */
  lemma {:induction false} StoredWithinHead(rs: seq<Receipts>, head: nat)
    requires AllAccepted(rs, head)
    ensures Stored(rs).Some? ==> Stored(rs).value.read <= Stored(rs).value.delivered <= head
  {
    if rs != [] {
      StoredWithinHead(rs[..|rs| - 1], head);
    }
  }

  /** The stored row is the least upper bound of what the receipts claimed. */
  lemma {:induction false} StoredIsJoin(rs: seq<Receipts>)
    requires forall i :: 0 <= i < |rs| ==> Validate(rs[i]).None?
    ensures rs != [] <==> Stored(rs).Some?
    ensures forall i :: 0 <= i < |rs| ==> AtMost(StateOf(rs[i]), Stored(rs).value)
    ensures rs != [] ==> exists i :: 0 <= i < |rs| && StateOf(rs[i]).read == Stored(rs).value.read
    ensures rs != [] ==> exists i :: 0 <= i < |rs| && StateOf(rs[i]).delivered == Stored(rs).value.delivered
  {
    if rs != [] {
      var n := |rs| - 1;
      var before := rs[..n];
      StoredIsJoin(before);
      forall i | 0 <= i < |rs|
        ensures AtMost(StateOf(rs[i]), Stored(rs).value)
      {
        if i < n { assert before[i] == rs[i]; }
      }
      if before == [] || StateOf(rs[n]).read >= Stored(before).value.read {
        assert StateOf(rs[n]).read == Stored(rs).value.read;
      } else {
        var i :| 0 <= i < |before| && StateOf(before[i]).read == Stored(before).value.read;
        assert StateOf(rs[i]).read == Stored(rs).value.read;
      }
      if before == [] || StateOf(rs[n]).delivered >= Stored(before).value.delivered {
        assert StateOf(rs[n]).delivered == Stored(rs).value.delivered;
      } else {
        var i :| 0 <= i < |before| && StateOf(before[i]).delivered == Stored(before).value.delivered;
        assert StateOf(rs[i]).delivered == Stored(rs).value.delivered;
      }
    }
  }

  /** Order and repetition of receipts do not matter: only the set of them does. */
  lemma OrderAndRepeatsDoNotMatter(rs: seq<Receipts>, qs: seq<Receipts>)
    requires forall i :: 0 <= i < |rs| ==> Validate(rs[i]).None?
    requires forall i :: 0 <= i < |qs| ==> Validate(qs[i]).None?
    requires forall r :: r in rs <==> r in qs
    ensures Stored(rs) == Stored(qs)
  {
    StoredIsJoin(rs);
    StoredIsJoin(qs);
    if qs != [] { assert qs[0] in qs; }
    if rs != [] {
      assert rs[0] in rs;
      StoredBelow(rs, qs);
      StoredBelow(qs, rs);
    }
  }

  lemma StoredBelow(rs: seq<Receipts>, qs: seq<Receipts>)
    requires rs != []
    requires forall i :: 0 <= i < |rs| ==> Validate(rs[i]).None?
    requires forall i :: 0 <= i < |qs| ==> Validate(qs[i]).None?
    requires forall r :: r in rs ==> r in qs
    ensures Stored(rs).Some? && Stored(qs).Some? && AtMost(Stored(rs).value, Stored(qs).value)
  {
    StoredIsJoin(rs);
    StoredIsJoin(qs);
    assert rs[0] in qs;
    var i :| 0 <= i < |rs| && StateOf(rs[i]).read == Stored(rs).value.read;
    assert rs[i] in qs;
    var j :| 0 <= j < |rs| && StateOf(rs[j]).delivered == Stored(rs).value.delivered;
    assert rs[j] in qs;
  }

  /** A write is announced exactly when its receipt claims more than what was stored, and it never lowers a number. */
  lemma AdvanceMeansMore(previous: Option<ReadState>, s: ReadState)
    ensures var was := if previous.Some? then previous.value else EMPTY_STATE;
            && AtMost(was, Upsert(previous, s))
            && (AdvancedFrom(previous, Upsert(previous, s)) <==> !AtMost(s, was))
  {
  }

  /** Announced states climb strictly, so a reader announces at most two advances per message. */
  lemma {:induction false} AdvancesBounded(rs: seq<Receipts>, head: nat)
    requires AllAccepted(rs, head)
    ensures Stored(rs).Some? ==> Advances(rs) <= Stored(rs).value.delivered + Stored(rs).value.read
    ensures Advances(rs) <= 2 * head
  {
    StoredWithinHead(rs, head);
    if rs != [] {
      AdvancesBounded(rs[..|rs| - 1], head);
    }
  }
}
