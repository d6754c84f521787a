/** Repeated signed-testnet sessions (execution/testnet_session_harness.py) and their reconciliation
    (execution/signed_testnet_reconciliation.py), against a venue that fills market orders in full
    and clamps reduce-only orders to the position. */
module TestnetSessions {
  import opened Common

  const QTY_TOLERANCE := 0.00000001
  const MIN_QUANTITY := 0.001

  /** The tolerance on an opening fill of expected quantity q. */
  function Tolerance(q: real): real {
    Max(QTY_TOLERANCE, q * 0.000001)
  }

  // ---- reconciliation ----

  datatype Side = BUY | SELL

  datatype OrderStatus = Filled | PartiallyFilled | NotFilled

  /** What the exchange answers: the order, the position; `reached` when all three queries came back. */
  datatype Reply = Reply(reached: bool, orderFound: bool, status: OrderStatus, executed: real, positionAmt: real)

  datatype Mismatch =
    | OrderNotFound | FlippedToShort | FlippedToLong | FilledButNoPosition
    | BuyButShort | SellButLong | QuantityDiffers

  datatype Verdict = NoSubmission | Unreconciled | Mismatched | Reconciled

  /** The mismatch list of reconcile_signed_testnet, as the set of what applies. */
  function Mismatches(side: Side, reduceOnly: bool, expected: real, r: Reply): set<Mismatch> {
    var filled := r.status == Filled || r.status == PartiallyFilled;
    (if !r.orderFound then {OrderNotFound} else {}) +
    if reduceOnly then
      (if filled && side == SELL && r.positionAmt < -QTY_TOLERANCE then {FlippedToShort} else {}) +
      (if filled && side == BUY && r.positionAmt > QTY_TOLERANCE then {FlippedToLong} else {})
    else
      (if filled && Abs(r.positionAmt) < QTY_TOLERANCE then {FilledButNoPosition} else {}) +
      (if filled && side == BUY && r.positionAmt < 0.0 then {BuyButShort} else {}) +
      (if filled && side == SELL && r.positionAmt > 0.0 then {SellButLong} else {}) +
      (if filled && Abs(r.executed - Abs(r.positionAmt)) > Tolerance(expected) then {QuantityDiffers} else {})
  }

  function Reconcile(submitted: bool, side: Side, reduceOnly: bool, expected: real, r: Reply): Verdict {
    if !submitted then NoSubmission
    else if !r.reached then Unreconciled
    else if Mismatches(side, reduceOnly, expected, r) != {} then Mismatched
    else Reconciled
  }

  /** Exactly what reconciles, of any reply: a submitted order whose queries came back and found it, and, if it traded, a
      position that is not turned around (closing) or is the executed quantity on the order's side (opening). */
  lemma ReconcilesExactly(submitted: bool, side: Side, reduceOnly: bool, expected: real, r: Reply)
    ensures var v := Reconcile(submitted, side, reduceOnly, expected, r);
            var traded := r.status == Filled || r.status == PartiallyFilled;
            var size := if r.positionAmt < 0.0 then -r.positionAmt else r.positionAmt;
            var tolerance := if expected * 0.000001 > 0.00000001 then expected * 0.000001 else 0.00000001;
            && (v == NoSubmission <==> !submitted) && (v == Unreconciled <==> submitted && !r.reached)
            && (v == Mismatched <==> submitted && r.reached && v != Reconciled)
            && (v == Reconciled <==>
                  && submitted && r.reached && r.orderFound
                  && (traded && reduceOnly && side == SELL ==> r.positionAmt >= -0.00000001)
                  && (traded && reduceOnly && side == BUY ==> r.positionAmt <= 0.00000001)
                  && (traded && !reduceOnly ==>
                        && size >= 0.00000001 && (side == BUY ==> r.positionAmt >= 0.0) && (side == SELL ==> r.positionAmt <= 0.0)
                        && -tolerance <= r.executed - size <= tolerance))
  {
  }

  // ---- the venue ----

  /** How much a reduce-only sell of q takes off a position. */
  function Reducible(position: real, q: real): real {
    Max(0.0, Min(q, position))
  }

  /** The exchange's state after an order that was filled for `executed`. */
  function ReplyOf(reached: bool, executed: real, position: real): Reply {
    Reply(reached, true, if executed > 0.0 then Filled else NotFilled, executed, position)
  }

  // ---- sessions ----

  /** What one session meets: the price, whether the guard lets each leg through, whether its queries come back. */
  datatype Setting = Setting(price: real, openApproved: bool, openReached: bool, closeApproved: bool, closeReached: bool)

  datatype Leg = Leg(submitted: bool, verdict: Verdict)

  datatype SessionStatus = OK | PARTIAL | BLOCKED

  datatype Record = Record(quantity: real, status: SessionStatus, open: Leg, close: Option<Leg>)

  /** What is to be traded per session; `round3` is Python's round to three places. */
  datatype Sizing = Sizing(notional: real, round3: real -> real)

  /** _size. */
  function Size(z: Sizing, price: real): real {
    if price <= 0.0 then 0.0 else Max(MIN_QUANTITY, z.round3(z.notional / price))
  }

  /** The opening buy: an order of no quantity is not taken. */
  function OpenLeg(position: real, q: real, s: Setting): (Leg, real) {
    var submitted := s.openApproved && q > 0.0;
    var after := if submitted then position + q else position;
    (Leg(submitted, Reconcile(submitted, BUY, false, q, ReplyOf(s.openReached, q, after))), after)
  }

  /** The reduce-only sell: rejected outright when there is no long to reduce. */
  function CloseLeg(position: real, q: real, s: Setting): (Leg, real) {
    var executed := Reducible(position, q);
    var submitted := s.closeApproved && executed > 0.0;
    var after := if submitted then position - executed else position;
    (Leg(submitted, Reconcile(submitted, SELL, true, q, ReplyOf(s.closeReached, executed, after))), after)
  }

  function StatusOf(open: Leg, close: Option<Leg>): SessionStatus {
    if !open.submitted then BLOCKED
    else if open.verdict == Reconciled && close.Some? && close.value.verdict == Reconciled then OK
    else PARTIAL
  }

  /** One session, sized from the price it opens at. */
  function Session(position: real, z: Sizing, s: Setting): (Record, real) {
    var q := Size(z, s.price);
    var (open, held) := OpenLeg(position, q, s);
    if !open.submitted then (Record(q, StatusOf(open, None), open, None), held)
    else
      var (close, left) := CloseLeg(held, q, s);
      (Record(q, StatusOf(open, Some(close)), open, Some(close)), left)
  }

  /** The sessions from the i-th on, and the position they leave; a blocked one is the last. */
  function SessionsFrom(position: real, i: nat, n: nat, z: Sizing, settings: int -> Setting): (seq<Record>, real)
    decreases n - i
  {
    if i >= n then ([], position)
    else
      var (record, left) := Session(position, z, settings(i));
      if record.status == BLOCKED then ([record], left)
      else
        var (rest, final) := SessionsFrom(left, i + 1, n, z, settings);
        ([record] + rest, final)
  }

  /** The testnet account. */
  class Account {
    var position: real

    constructor (position: real)
      ensures this.position == position
    {
      this.position := position;
    }

    /** A market buy that the guard may refuse. */
    method Buy(q: real, approved: bool) returns (submitted: bool)
      modifies this
      ensures submitted == (approved && q > 0.0)
      ensures position == old(position) + if submitted then q else 0.0
    {
      submitted := approved && q > 0.0;
      if submitted { position := position + q; }
    }

    /** A reduce-only market sell, clamped to the position. */
    method SellReduceOnly(q: real, approved: bool) returns (submitted: bool, executed: real)
      modifies this
      ensures executed == Reducible(old(position), q) && submitted == (approved && executed > 0.0)
      ensures position == old(position) - if submitted then executed else 0.0
    {
      executed := Reducible(position, q);
      submitted := approved && executed > 0.0;
      if submitted { position := position - executed; }
    }

    /** run_one_session. */
    method RunOneSession(z: Sizing, s: Setting) returns (record: Record)
      modifies this
      ensures (record, position) == Session(old(position), z, s)
    {
      var q := Size(z, s.price);
      var bought := Buy(q, s.openApproved);
      var open := Leg(bought, Reconcile(bought, BUY, false, q, ReplyOf(s.openReached, q, position)));
      var close := None;
      if open.submitted {
        var closed, executed := SellReduceOnly(q, s.closeApproved);
        close := Some(Leg(closed, Reconcile(closed, SELL, true, q, ReplyOf(s.closeReached, executed, position))));
      }
      record := Record(q, StatusOf(open, close), open, close);
    }

    /** run_sessions. */
    method RunSessions(n: nat, z: Sizing, settings: int -> Setting) returns (records: seq<Record>)
      modifies this
      ensures (records, position) == SessionsFrom(old(position), 0, n, z, settings)
    {
      records := [];
      var i := 0;
      ghost var all := SessionsFrom(position, 0, n, z, settings);
      assert records + all.0 == all.0;
      while i < n
        invariant 0 <= i <= n
        invariant records + SessionsFrom(position, i, n, z, settings).0 == all.0
        invariant SessionsFrom(position, i, n, z, settings).1 == all.1
      {
        ghost var rest := SessionsFrom(position, i, n, z, settings).0;
        var record := RunOneSession(z, settings(i));
        assert rest == [record] + rest[1..];
        assert records + rest == records + [record] + rest[1..];
        records := records + [record];
        if record.status == BLOCKED {
          assert records + [] == records && rest[1..] == [];
          return;
        }
        i := i + 1;
      }
      assert records + [] == records;
    }
  }

  // ---- what a reconciled session says about the account ----

  /** At a positive price a session always trades at least the minimum quantity. */
  lemma SizeIsTradable(z: Sizing, price: real)
    requires price > 0.0
    ensures Size(z, price) >= MIN_QUANTITY
  {
  }

  /** What a session trades: its notional at its price, rounded, but at least 0.001; nothing without a price. */
  lemma SizeIs(z: Sizing, price: real)
    ensures price <= 0.0 ==> Size(z, price) == 0.0
    ensures price > 0.0 ==>
              var rounded := z.round3(z.notional / price);
              Size(z, price) == if rounded < 0.001 then 0.001 else rounded
  {
  }

  /** With a reachable venue, an opening buy reconciles exactly when the account was flat within tolerance before it. */
  lemma OpenReconcilesIffFlat(position: real, z: Sizing, s: Setting)
    requires s.price > 0.0 && s.openApproved && s.openReached
    ensures OpenLeg(position, Size(z, s.price), s).0.verdict == Reconciled <==> Abs(position) <= Tolerance(Size(z, s.price))
  {
    SizeIsTradable(z, s.price);
  }

  /** Exactly when a session is OK: there was a price, the account was flat within tolerance, the guard let
      both legs through, and both could be reconciled. */
  lemma SessionIsOkIff(position: real, z: Sizing, s: Setting)
    ensures Session(position, z, s).0.status == OK <==>
            && s.price > 0.0 && Abs(position) <= Tolerance(Size(z, s.price))
            && s.openApproved && s.openReached && s.closeApproved && s.closeReached
  {
    var q := Size(z, s.price);
    if s.price > 0.0 && s.openApproved && s.openReached {
      OpenReconcilesIffFlat(position, z, s);
    }
    if s.price > 0.0 && Abs(position) <= Tolerance(q) {
      var sold := Reducible(position + q, q);
      assert sold > 0.0;
      assert Mismatches(SELL, true, q, ReplyOf(true, sold, position + q - sold)) == {};
    }
  }

  /** A session is OK only from a flat account, and leaves it at least as flat; from exactly flat, exactly flat. */
  lemma OkSessionKeepsFlat(position: real, z: Sizing, s: Setting)
    requires Session(position, z, s).0.status == OK
    ensures Abs(position) <= Tolerance(Size(z, s.price))
    ensures Abs(Session(position, z, s).1) <= Abs(position)
  {
    SessionIsOkIff(position, z, s);
  }

  /** A long residual is never sold off: the session leaves at least what it found. */
  lemma ResidualLongStays(position: real, z: Sizing, s: Setting)
    requires position > Tolerance(Size(z, s.price))
    ensures Session(position, z, s).0.status != OK
    ensures Session(position, z, s).1 >= position
  {
    SessionIsOkIff(position, z, s);
  }

  /** OK sessions keep the account as flat as it started, over any number of them. */
  lemma {:induction false} OkRunKeepsFlat(position: real, i: nat, n: nat, z: Sizing, settings: int -> Setting)
    requires forall k :: 0 <= k < |SessionsFrom(position, i, n, z, settings).0| ==>
               SessionsFrom(position, i, n, z, settings).0[k].status == OK
    ensures Abs(SessionsFrom(position, i, n, z, settings).1) <= Abs(position)
    decreases n - i
  {
    if i < n {
      var (record, left) := Session(position, z, settings(i));
      var records := SessionsFrom(position, i, n, z, settings).0;
      assert records[0] == record;
      OkSessionKeepsFlat(position, z, settings(i));
      var rest := SessionsFrom(left, i + 1, n, z, settings).0;
      assert records == [record] + rest;
      forall k | 0 <= k < |rest| ensures rest[k].status == OK {
        assert records[k + 1] == rest[k];
      }
      OkRunKeepsFlat(left, i + 1, n, z, settings);
    }
  }

  /** From a residual long beyond every session's tolerance, no later session is ever OK, and the residual stays. */
  lemma {:induction false} ResidualLongNeverOk(position: real, i: nat, n: nat, z: Sizing, settings: int -> Setting)
    requires forall k :: i <= k < n ==> position > Tolerance(Size(z, settings(k).price))
    ensures forall k :: 0 <= k < |SessionsFrom(position, i, n, z, settings).0| ==>
              SessionsFrom(position, i, n, z, settings).0[k].status != OK
    ensures SessionsFrom(position, i, n, z, settings).1 >= position
    decreases n - i
  {
    if i < n {
      var (record, left) := Session(position, z, settings(i));
      ResidualLongStays(position, z, settings(i));
      if record.status != BLOCKED {
        ResidualLongNeverOk(left, i + 1, n, z, settings);
      }
    }
  }

  /** A residual short smaller than the order, by contrast, is gone after one approved session, OK or not. */
  lemma ResidualShortHeals(position: real, z: Sizing, s: Setting)
    requires s.price > 0.0 && -Size(z, s.price) < position < 0.0 && s.openApproved && s.closeApproved
    ensures Session(position, z, s).1 == 0.0
    ensures Session(position, z, s).0.status == OK <==>
            s.openReached && s.closeReached && -position <= Tolerance(Size(z, s.price))
  {
    SessionIsOkIff(position, z, s);
  }

  // ---- the aggregate ----

  function LegsOf(records: seq<Record>): seq<Leg> {
    if records == [] then []
    else
      var r := records[|records| - 1];
      LegsOf(records[..|records| - 1]) + [r.open] + if r.close.Some? then [r.close.value] else []
  }

  function CountOk(records: seq<Record>): nat {
    if records == [] then 0
    else CountOk(records[..|records| - 1]) + if records[|records| - 1].status == OK then 1 else 0
  }

  function CountSubmitted(legs: seq<Leg>): nat {
    if legs == [] then 0
    else CountSubmitted(legs[..|legs| - 1]) + if legs[|legs| - 1].submitted then 1 else 0
  }

  function CountReconciled(legs: seq<Leg>): nat {
    if legs == [] then 0
    else CountReconciled(legs[..|legs| - 1]) + if legs[|legs| - 1].verdict == Reconciled then 1 else 0
  }

  lemma LegsSnoc(legs: seq<Leg>, leg: Leg)
    ensures CountSubmitted(legs + [leg]) == CountSubmitted(legs) + if leg.submitted then 1 else 0
    ensures CountReconciled(legs + [leg]) == CountReconciled(legs) + if leg.verdict == Reconciled then 1 else 0
  {
  }

  /** A record as a session makes it. */
  predicate Plausible(r: Record) {
    && r.status == StatusOf(r.open, r.close) && (r.close.Some? <==> r.open.submitted)
    && (r.open.verdict == Reconciled ==> r.open.submitted)
    && (r.close.Some? && r.close.value.verdict == Reconciled ==> r.close.value.submitted)
  }

  lemma {:induction false} RecordsArePlausible(position: real, i: nat, n: nat, z: Sizing, settings: int -> Setting)
    ensures var records := SessionsFrom(position, i, n, z, settings).0;
            && |records| <= (if i < n then n - i else 0)
            && (forall k :: 0 <= k < |records| ==> Plausible(records[k]))
            && (forall k :: 0 <= k < |records| && records[k].status == BLOCKED ==> k == |records| - 1)
    decreases n - i
  {
    if i < n {
      var (record, left) := Session(position, z, settings(i));
      if record.status != BLOCKED {
        RecordsArePlausible(left, i + 1, n, z, settings);
      }
    }
  }

  /** The report's counts bound each other, so the reconcile rate lies in [0, 1]. */
  lemma {:induction false} AggregateCounts(records: seq<Record>)
    requires forall k :: 0 <= k < |records| ==> Plausible(records[k])
    ensures 2 * CountOk(records) <= CountReconciled(LegsOf(records)) <= CountSubmitted(LegsOf(records)) <= 2 * |records|
  {
    if records != [] {
      var init, r := records[..|records| - 1], records[|records| - 1];
      AggregateCounts(init);
      assert Plausible(r);
      var legs := LegsOf(init);
      LegsSnoc(legs, r.open);
      if r.close.Some? {
        LegsSnoc(legs + [r.open], r.close.value);
      } else {
        assert LegsOf(records) == legs + [r.open];
      }
    }
  }
}
