/**
 * Which step completed a check-in, in whole runs, and what it stored and had been paid.  No premise on the schedule,
 * so confirmations may overlap.
 */
module Settlement {
  import opened Domain
  import opened Baggage
  import opened Tables
  import opened Machine
  import opened Invariants
  import opened Preservation
  import opened Safety

  /** The event commits the transaction of completeCheckIn for check-in `id`, declared at `weight`. */
  predicate Commits(s: State, e: Event, id: CheckInId, weight: real, payment: Option<string>) {
    e.Advance? && e.c in s.calls && id < |s.sys.db.checkIns| &&
    match s.calls[e.c]
    case Validated(i, row, w) =>
      && i == id && w == weight && payment.None? && !CalculateFee(s.sys.config, w).isOverweight
      && Complete(s.sys.db, id, row, weight, payment).Some?
    case Paid(i, row, w, transaction) =>
      && i == id && w == weight && payment == Some(transaction)
      && Complete(s.sys.db, id, row, weight, payment).Some?
    case _ => false
  }

  /** What a row has of its completion: the declared weight to the cent and the payment made for it. */
  predicate Settles(row: CheckIn, weight: real, payment: Option<string>) {
    row.status.Completed? && row.weight == Some(ToCents(weight)) && row.payment == payment
  }

  /** Over the limit the fee of exactly this weight has been paid for this check-in; within it nothing is. */
  predicate PaidFor(sys: System, id: CheckInId, weight: real, payment: Option<string>) {
    if weight > sys.config.maxBaggageKg then
      payment.Some? && Payment(payment.value, id, CalculateFee(sys.config, weight).excessFee) in sys.payments
    else payment.None?
  }

  lemma CommitSettles(s: State, e: Event, id: CheckInId, weight: real, payment: Option<string>)
    requires Inv(s) && Commits(s, e, id, weight, payment)
    ensures var rows := Next(s, e).sys.db.checkIns; id < |rows| && Settles(rows[id], weight, payment)
    ensures weight >= 0.0 && PaidFor(s.sys, id, weight, payment)
  {
    assert CallOk(s.sys, s.calls[e.c]);
  }

  predicate Completing(call: Call) {
    call.Validated? || call.Paid?
  }

  /** The transactions other than completion leave completed rows only where they found them. */
  lemma StepCompletesNothing(sys: System, call: Call, reply: Reply, id: CheckInId)
    requires !Completing(call)
    ensures var rows, rows' := sys.db.checkIns, Step(sys, call, reply).0.db.checkIns;
      id < |rows'| && rows'[id].status.Completed? ==> id < |rows| && rows'[id] == rows[id]
  {
  }

  /** A row that a step leaves completed and did not find that way was completed by that step. */
  lemma StepCompletes(s: State, c: CallId, reply: Reply, id: CheckInId, weight: real, payment: Option<string>)
    requires Inv(s) && c in s.calls && Completing(s.calls[c]) && weight == s.calls[c].weight
    requires payment == if s.calls[c].Paid? then Some(s.calls[c].transaction) else None
    requires var rows := Step(s.sys, s.calls[c], reply).0.db.checkIns;
      id < |rows| && rows[id].status.Completed? && (id < |s.sys.db.checkIns| ==> rows[id] != s.sys.db.checkIns[id])
    ensures Commits(s, Advance(c, reply), id, weight, payment)
  {
  }

  /** The last step that completed the check-in, after which its row has not changed. */
  lemma {:induction false} LastCommit(init: State, es: seq<Event>, s: State, id: CheckInId)
    returns (k: nat, weight: real, payment: Option<string>)
    requires Reaches(init, es, s) && id < |s.sys.db.checkIns| && s.sys.db.checkIns[id].status.Completed?
    ensures k < |es| && Commits(Exec(init, es[..k]), es[k], id, weight, payment)
    ensures var rows := Next(Exec(init, es[..k]), es[k]).sys.db.checkIns;
      id < |rows| && s.sys.db.checkIns[id] == rows[id]
    decreases |es|
  {
    var n := |es| - 1;
    var before := es[..n];
    var a := Exec(init, before);
    InitInv(init);
    ExecKeeps(init, before);
    if id < |a.sys.db.checkIns| && s.sys.db.checkIns[id] == a.sys.db.checkIns[id] {
      k, weight, payment := LastCommit(init, before, a, id);
      assert before[..k] == es[..k];
    } else {
      k := n;
      assert es[n].Advance? && es[n].c in a.calls;
      var call := a.calls[es[n].c];
      if !Completing(call) {
        StepCompletesNothing(a.sys, call, es[n].reply, id);
        assert false;
      }
      weight, payment := call.weight, if call.Paid? then Some(call.transaction) else None;
      StepCompletes(a, es[n].c, es[n].reply, id, weight, payment);
    }
  }

  lemma CommitReads(s: State, e: Event, id: CheckInId, weight: real, payment: Option<string>)
    requires Inv(s) && Commits(s, e, id, weight, payment)
    ensures Completing(s.calls[e.c]) && s.calls[e.c].row.seat == s.sys.db.checkIns[id].seat
  {
    assert CallOk(s.sys, s.calls[e.c]);
  }
}
