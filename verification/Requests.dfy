/** From a confirmation under way back to the request that opened it, and what it has read and checked since. */
module Requests {
  import opened Domain
  import opened Machine

  /** The call confirms check-in `id`, declared at `weight`. */
  predicate Confirms(call: Call, id: CheckInId, weight: real) {
    (call.Confirming? || call.Validated? || call.Paying? || call.Paid?) && call.id == id && call.weight == weight
  }

  /** The call keeps what it has read, and goes on only if the check-in was pending and its seat has a live hold key. */
  lemma StepConfirms(sys: System, call: Call, reply: Reply, id: CheckInId, weight: real)
    ensures var call' := Step(sys, call, reply).1;
      call'.Some? && Confirms(call'.value, id, weight) ==>
      && Confirms(call, id, weight) && call'.value.row == call.row && !call'.value.Confirming?
      && (call.Confirming? ==>
            && (call.row.status.InProgress? || call.row.status.AwaitingPayment?)
            && (call.row.seat.Some? ==>
                  call.row.seat.value in sys.holdKeys && sys.now < sys.holdKeys[call.row.seat.value].expiresAt))
  {
  }

  /** After the first `i` events call `c` is a confirmation of the check-in, declared at `weight`. */
  ghost predicate Carries(init: State, es: seq<Event>, i: nat, c: CallId, id: CheckInId, weight: real) {
    i <= |es| && c in Exec(init, es[..i]).calls && Confirms(Exec(init, es[..i]).calls[c], id, weight)
  }

  /** Event `j` opened call `c` for this confirmation request, and the call has carried it until after event `k`. */
  ghost predicate Requested(init: State, es: seq<Event>, j: nat, k: nat, c: CallId, id: CheckInId, p: PassengerId,
                            weight: real)
  {
    && j < k <= |es| && es[j] == Open(c, ConfirmRequest(id, p, weight)) && c !in Exec(init, es[..j]).calls
    && forall i: nat :: j < i <= k ==> Carries(init, es, i, c, id, weight)
  }

  lemma RequestedEarlier(init: State, es: seq<Event>, j: nat, c: CallId, id: CheckInId, p: PassengerId, weight: real)
    requires es != [] && Requested(init, es[..|es| - 1], j, |es| - 1, c, id, p, weight)
    requires Carries(init, es, |es|, c, id, weight)
    ensures Requested(init, es, j, |es|, c, id, p, weight)
  {
    var before := es[..|es| - 1];
    assert before[..j] == es[..j];
    forall i: nat | j < i <= |es|
      ensures Carries(init, es, i, c, id, weight)
    {
      if i < |es| {
        assert before[..i] == es[..i] && Carries(init, before, i, c, id, weight);
      }
    }
  }

  /** If a call confirms after an event and did not before, the event opened it. */
  lemma StartsConfirming(s: State, e: Event, c: CallId, id: CheckInId, weight: real)
    requires c in s.calls ==> !Confirms(s.calls[c], id, weight)
    ensures c in Next(s, e).calls && Confirms(Next(s, e).calls[c], id, weight) ==>
      && c !in s.calls && e.Open? && e.c == c && e.request.ConfirmRequest?
      && e.request.checkIn == id && e.request.weight == weight
      && id < |s.sys.db.checkIns| && s.sys.db.checkIns[id].passenger == e.request.passenger
      && Next(s, e).calls[c] == Confirming(id, s.sys.db.checkIns[id], weight)
  {
    if e.Advance? && e.c in s.calls && e.c == c {
      StepConfirms(s.sys, s.calls[e.c], e.reply, id, weight);
    }
  }

  /** After the first `j` events the table had `row` for the check-in, and it was this passenger's. */
  ghost predicate HadRead(init: State, es: seq<Event>, j: nat, id: CheckInId, p: PassengerId, row: CheckIn) {
    j <= |es| &&
    var rows := Exec(init, es[..j]).sys.db.checkIns;
    id < |rows| && rows[id] == row && row.passenger == p
  }

  /** After the first `i` events the seat had a live hold key. */
  ghost predicate KeyHeld(init: State, es: seq<Event>, i: nat, x: SeatId) {
    i <= |es| &&
    var sys := Exec(init, es[..i]).sys;
    x in sys.holdKeys && sys.now < sys.holdKeys[x].expiresAt
  }

  /** A confirmation past its checks: they were made at moment `i`, on a pending check-in whose seat had a live key. */
  ghost predicate Checked(init: State, es: seq<Event>, j: nat, i: nat, call: Call)
    requires call.Confirming? || call.Validated? || call.Paying? || call.Paid?
  {
    !call.Confirming? ==>
      && j < i < |es| && (call.row.status.InProgress? || call.row.status.AwaitingPayment?)
      && (call.row.seat.Some? ==> KeyHeld(init, es, i, call.row.seat.value))
  }

  /** What a confirmation under way has read and checked stays so after another event. */
  lemma NextChecked(init: State, es: seq<Event>, j: nat, i: nat, c: CallId, id: CheckInId, p: PassengerId, weight: real)
    returns (i': nat)
    requires es != [] && j < |es| - 1
    requires Carries(init, es, |es| - 1, c, id, weight) && Carries(init, es, |es|, c, id, weight)
    requires var before := es[..|es| - 1]; var call := Exec(init, before).calls[c];
      HadRead(init, before, j, id, p, call.row) && Checked(init, before, j, i, call)
    ensures c in Exec(init, es).calls
    ensures var call := Exec(init, es).calls[c];
      Confirms(call, id, weight) && HadRead(init, es, j, id, p, call.row) && Checked(init, es, j, i', call)
  {
    var n, before := |es| - 1, es[..|es| - 1];
    var a := Exec(init, before);
    assert es[..|es|] == es && before[..j] == es[..j];
    i' := i;
    if es[n].Advance? && es[n].c == c {
      StepConfirms(a.sys, a.calls[c], es[n].reply, id, weight);
      if a.calls[c].Confirming? {
        i' := n;
      }
    }
    if i' < n {
      assert before[..i'] == es[..i'];
    }
  }

  lemma {:induction false} DeclaredInRequest(init: State, es: seq<Event>, c: CallId, id: CheckInId, weight: real)
    returns (j: nat, i: nat, p: PassengerId)
    requires Init(init) && Carries(init, es, |es|, c, id, weight)
    ensures Requested(init, es, j, |es|, c, id, p, weight)
    ensures c in Exec(init, es).calls && Confirms(Exec(init, es).calls[c], id, weight)
    ensures HadRead(init, es, j, id, p, Exec(init, es).calls[c].row)
    ensures Checked(init, es, j, i, Exec(init, es).calls[c])
    decreases |es|
  {
    assert es[..|es|] == es;
    var n := |es| - 1;
    var a := Exec(init, es[..n]);
    if c in a.calls && Confirms(a.calls[c], id, weight) {
      assert es[..n][..n] == es[..n];
      j, i, p := DeclaredInRequest(init, es[..n], c, id, weight);
      RequestedEarlier(init, es, j, c, id, p, weight);
      i := NextChecked(init, es, j, i, c, id, p, weight);
    } else {
      StartsConfirming(a, es[n], c, id, weight);
      j, i, p := n, n, es[n].request.passenger;
    }
  }
}
