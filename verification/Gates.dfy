/** What a completed check-in has passed, in every interleaving: the payment gate and the test of the hold key. */
module Gates {
  import opened Domain
  import opened Baggage
  import opened Fees
  import opened Machine
  import opened Invariants
  import opened Preservation
  import opened Safety
  import opened Settlement
  import opened Requests
  import opened Plays
  import Calls

  /** How check-in `id` came to be completed: requested by event `j`, committed by event `k` of the same call. */
  ghost predicate CompletedBy(init: State, es: seq<Event>, id: CheckInId, j: nat, k: nat, p: PassengerId, weight: real,
                              payment: Option<string>)
  {
    && j < k < |es| && es[k].Advance? && Requested(init, es[..k], j, k, es[k].c, id, p, weight)
    && Commits(Exec(init, es[..k]), es[k], id, weight, payment)
    && PaidFor(Exec(init, es[..k]).sys, id, weight, payment)
  }

  /** The call that completed the check-in: when it was opened, when it made its checks, and when it committed. */
  lemma CompletingCall(init: State, es: seq<Event>, s: State, id: CheckInId)
    returns (j: nat, i: nat, k: nat, p: PassengerId, weight: real, payment: Option<string>)
    requires Reaches(init, es, s) && id < |s.sys.db.checkIns| && s.sys.db.checkIns[id].status.Completed?
    ensures CompletedBy(init, es, id, j, k, p, weight, payment) && weight >= 0.0
    ensures Settles(s.sys.db.checkIns[id], weight, payment)
    ensures var a := Exec(init, es[..k]);
      && es[k].c in a.calls && Completing(a.calls[es[k].c])
      && a.calls[es[k].c].row.seat == a.sys.db.checkIns[id].seat
      && HadRead(init, es[..k], j, id, p, a.calls[es[k].c].row) && Checked(init, es[..k], j, i, a.calls[es[k].c])
  {
    k, weight, payment := LastCommit(init, es, s, id);
    InitInv(init);
    ExecKeeps(init, es[..k]);
    CommitSettles(Exec(init, es[..k]), es[k], id, weight, payment);
    CommitReads(Exec(init, es[..k]), es[k], id, weight, payment);
    assert es[..k][..k] == es[..k];
    j, i, p := DeclaredInRequest(init, es[..k], es[k].c, id, weight);
  }

  /**
   * Every completed check-in stores, to the cent, the weight declared in the confirmation request whose call
   * completed it; if that weight is over the limit it carries a confirmed payment for this check-in, made before
   * it was completed, of exactly the fee of that weight, and otherwise none.
   */
  lemma PaymentGate(init: State, es: seq<Event>, s: State, id: CheckInId)
    returns (j: nat, k: nat, p: PassengerId, weight: real)
    requires Reaches(init, es, s) && id < |s.sys.db.checkIns| && s.sys.db.checkIns[id].status.Completed?
    ensures CompletedBy(init, es, id, j, k, p, weight, s.sys.db.checkIns[id].payment)
    ensures weight >= 0.0 && Settles(s.sys.db.checkIns[id], weight, s.sys.db.checkIns[id].payment)
  {
    var i, payment;
    j, i, k, p, weight, payment := CompletingCall(init, es, s, id);
  }

  /**
   * In every interleaving, a completed check-in was the requesting passenger's and pending when its confirmation
   * read it, and between the request and the commit there was a moment at which its seat had a live hold key.
   */
  lemma HoldKeyGate(init: State, es: seq<Event>, s: State, id: CheckInId)
    returns (j: nat, i: nat, k: nat, p: PassengerId, weight: real)
    requires Reaches(init, es, s) && id < |s.sys.db.checkIns| && s.sys.db.checkIns[id].status.Completed?
    ensures CompletedBy(init, es, id, j, k, p, weight, s.sys.db.checkIns[id].payment) && j < i < k
    ensures var rows := Exec(init, es[..j]).sys.db.checkIns;
      && id < |rows| && rows[id].passenger == p
      && (rows[id].status.InProgress? || rows[id].status.AwaitingPayment?)
    ensures s.sys.db.checkIns[id].seat.Some?
    ensures var x, sys := s.sys.db.checkIns[id].seat.value, Exec(init, es[..i]).sys;
      x in sys.holdKeys && sys.now < sys.holdKeys[x].expiresAt
  {
    var payment;
    j, i, k, p, weight, payment := CompletingCall(init, es, s, id);
    SeatKept(init, es, k, id);
    assert es[..k][..j] == es[..j] && es[..k][..i] == es[..i];
  }

  lemma SeatKept(init: State, es: seq<Event>, k: nat, id: CheckInId)
    requires Init(init) && k <= |es| && id < |Exec(init, es[..k]).sys.db.checkIns|
    ensures var rows, rows' := Exec(init, es[..k]).sys.db.checkIns, Exec(init, es).sys.db.checkIns;
      id < |rows'| && rows'[id].seat == rows[id].seat && rows[id].seat.Some?
  {
    InitInv(init);
    ExecKeeps(init, es[..k]);
    ExecKeeps(Exec(init, es[..k]), es[k..]);
    Calls.ExecConcat(init, es[..k], es[k..]);
    assert es[..k] + es[k..] == es;
    var rows, rows' := Exec(init, es[..k]).sys.db.checkIns, Exec(init, es).sys.db.checkIns;
    assert rows[id].SameKey(rows'[id]) && RowOk(Exec(init, es[..k]).sys.db, rows[id]);
  }

  /**
   * What a completed check-in was charged, against the fee of the weight it stores: the same if it was declared to
   * the cent, and in general exactly when the stored weight's fee is the cent nearest to the declared weight's charge.
   * With a limit of two decimals and a whole fee per kg, as the defaults are, that is exactly when the declared weight
   * is within the limit or what rounding took from it, or added, is worth less than half a cent.
   */
  lemma StoredWeightIsCharged(init: State, es: seq<Event>, s: State, id: CheckInId)
    returns (j: nat, k: nat, p: PassengerId, weight: real)
    requires Reaches(init, es, s) && id < |s.sys.db.checkIns| && s.sys.db.checkIns[id].status.Completed?
    ensures CompletedBy(init, es, id, j, k, p, weight, s.sys.db.checkIns[id].payment)
    ensures Settles(s.sys.db.checkIns[id], weight, s.sys.db.checkIns[id].payment)
    ensures TwoDecimals(weight) ==> SameFee(s.sys.config, weight)
    ensures SameFee(s.sys.config, weight) <==>
      Nearest(CalculateFee(s.sys.config, ToCents(weight)).excessFee, Exact(s.sys.config, weight))
    ensures WholeFees(s.sys.config) ==>
      (SameFee(s.sys.config, weight) <==>
         || weight <= s.sys.config.maxBaggageKg
         || Nearest(0.0, Worth(weight - ToCents(weight), s.sys.config.excessFeePerKg)))
  {
    j, k, p, weight := PaymentGate(init, es, s, id);
    StoredFeeExact(s.sys.config, weight);
    ChargedExactly(s.sys.config, weight);
  }

  /** A check-in stored over the limit went unpaid exactly when its declared weight was within it. */
  lemma StoredOverweightIsPaid(init: State, es: seq<Event>, s: State, id: CheckInId)
    returns (j: nat, k: nat, p: PassengerId, weight: real)
    requires Reaches(init, es, s) && id < |s.sys.db.checkIns| && s.sys.db.checkIns[id].status.Completed?
    requires s.sys.db.checkIns[id].weight.Some? && s.sys.db.checkIns[id].weight.value > s.sys.config.maxBaggageKg
    ensures CompletedBy(init, es, id, j, k, p, weight, s.sys.db.checkIns[id].payment)
    ensures ToCents(weight) == s.sys.db.checkIns[id].weight.value
    ensures s.sys.db.checkIns[id].payment.None? <==> weight <= s.sys.config.maxBaggageKg
  {
    j, k, p, weight := PaymentGate(init, es, s, id);
    ConfigFixed(init, es, k);
  }

  lemma ConfigFixed(init: State, es: seq<Event>, k: nat)
    requires Init(init) && k <= |es|
    ensures Exec(init, es[..k]).sys.config == Exec(init, es).sys.config
  {
    InitInv(init);
    ExecKeeps(init, es[..k]);
    ExecKeeps(init, es);
  }

  /** With a limit that its own rounding does not raise, no check-in stored over the limit is ever unpaid. */
  lemma OverweightAlwaysPaid(init: State, es: seq<Event>, s: State, id: CheckInId)
    requires Reaches(init, es, s) && id < |s.sys.db.checkIns| && s.sys.db.checkIns[id].status.Completed?
    requires s.sys.db.checkIns[id].weight.Some? && s.sys.db.checkIns[id].weight.value > s.sys.config.maxBaggageKg
    requires ToCents(s.sys.config.maxBaggageKg) <= s.sys.config.maxBaggageKg
    ensures s.sys.db.checkIns[id].payment.Some?
  {
    var j, k, p, weight := StoredOverweightIsPaid(init, es, s, id);
    StoredOverLimit(s.sys.config.maxBaggageKg);
  }

  // ---- Runs that show the conditions are needed ----

  /** The seat is held and its check-in's confirmation has passed its checks. */
  lemma PlayDeclared(config: Config, weight: real) returns (s: State)
    requires weight >= 0.0
    ensures Reachable(Seeded(config), s) && s.sys.config == config && s.sys.payments == {}
    ensures |s.sys.db.checkIns| == 1 && s.sys.db.checkIns[0].seat == Some(1)
    ensures 1 in s.calls && s.calls[1] == Validated(0, s.sys.db.checkIns[0], weight)
  {
    Initially(config);
    s := PlayHold(Seeded(config), Seeded(config), 0, 1);
    s := PlayValidate(Seeded(config), s, 1, 0, 1, weight);
  }

  /** With any limit that rounding does raise, some run completes a check-in stored over it without payment. */
  lemma OverweightCanGoUnpaid(config: Config) returns (es: seq<Event>, s: State)
    requires 0.0 <= config.maxBaggageKg < ToCents(config.maxBaggageKg) < WEIGHT_BOUND
    ensures Reaches(Seeded(config), es, s) && |s.sys.db.checkIns| == 1
    ensures var row := s.sys.db.checkIns[0];
      row.status.Completed? && row.payment.None? && row.weight.Some? && row.weight.value > config.maxBaggageKg
  {
    var limit := config.maxBaggageKg;
    s := PlayDeclared(config, limit);
    s := PlayComplete(Seeded(config), s, 1, 0, s.sys.db.checkIns[0], limit);
    es := ByRun(config, s);
  }

  /** The figures of StoredFeeCanDiffer. */
  lemma FeesAt25006()
    ensures ToCents(25.006) == 25.01
    ensures CalculateFee(DEFAULTS, 25.006).excessFee == 0.06 && ToCents(0.06) == 0.06
    ensures CalculateFee(DEFAULTS, 25.01).excessFee == 0.1
  {
    assert Round(2500.6) == 2501 && Round(6.0) == 6 && Round(10.0) == 10;
  }

  /**
   * With the default limits, a check-in declared at 25.006 kg pays 0.06 and is stored at 25.01 kg, whose fee is 0.10.
   */
  lemma StoredFeeCanDiffer() returns (es: seq<Event>, s: State)
    ensures Reaches(SEEDED, es, s) && |s.sys.db.checkIns| == 1
    ensures s.sys.db.checkIns[0].status.Completed? && s.sys.db.checkIns[0].weight == Some(25.01)
    ensures s.sys.payments == {Payment("t", 0, 0.06)}
    ensures CalculateFee(s.sys.config, 25.01).excessFee == 0.1
  {
    FeesAt25006();
    s := PlayDeclared(DEFAULTS, 25.006);
    var row := s.sys.db.checkIns[0];
    s := PlayAwait(SEEDED, s, 1, 0, row, 25.006);
    s := PlayPay(SEEDED, s, 1, 0, row, 25.006, "t");
    es := ByRun(DEFAULTS, s);
  }
}
