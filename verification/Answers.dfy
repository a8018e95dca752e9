// What each operation answers: the error, whether it is accepted, and the literal reason that
// clients match on.
module Answers {
  import opened Orders
  import opened Books
  import opened Invariants
  import opened Takers
  import opened Stops

  // ---- cancelling and reducing ----

  lemma CancelAnswers(b: Book, id: int)
    ensures Cancel(b, id).1 == (if Resting(b, id) then NoError else CancelOrderFailed)
    ensures !Resting(b, id) ==> Cancel(b, id).0 == b
    ensures Apply(b, CancelOp(id)).result ==
      Result([], Resting(b, id), if Resting(b, id) then "" else "cancelling order failed")
  {
  }

  lemma ReduceAnswers(b: Book, id: int, v: Qty)
    ensures ReduceVolume(b, id, v).1 ==
      if !Resting(b, id) then CancelOrderFailed
      else if v != 0 && v >= Lookup(b, id).value.volume then ModifyIncrease
      else NoError
    ensures ReduceVolume(b, id, v).1 != NoError ==> ReduceVolume(b, id, v).0 == b
    ensures ErrorText(ReduceVolume(b, id, v).1) ==
      if !Resting(b, id) then "cancelling order failed"
      else if v != 0 && v >= Lookup(b, id).value.volume then "reduce: new volume must be smaller than resting"
      else ""
  {
  }

  // ---- submitting ----

  // Why a submission is refused; None when it is not.
  function Refusal(b: Book, o: Order): Option<string> {
    if o.kind.OtherType? then Some("unsupported_order_type: " + o.kind.tag)
    else if o.kind == MARKET || (o.kind == STOP_LIMIT && !AtOnce(o)) then None
    else if o.tif == PostOnly && InReach(b, o) > 0 then Some("post_only_would_cross")
    else if o.tif == FOK && (InReach(b, o) < o.volume || InReach(b, o) <= 0) then Some("fok_not_fully_fillable")
    else None
  }

  // A submission is refused exactly for these reasons, and then changes nothing.
  lemma SubmitAnswers(b: Book, o: Order)
    requires Wf(b)
    ensures var r := Submit(b, o);
      match Refusal(b, o)
      case None => r.result.accepted && r.result.reason == ""
      case Some(reason) => r == Outcome(b, Result([], false, reason))
  {
    hide HandleLimit, HandleMarket, Wf, InReach;
    var n := Normalize(o);
    SameReach(b, o);
    LimitAnswers(b, n);
    MarketAnswers(b, n);
    if o.kind.OtherType? {
      assert "unsupported_order_type" + ": " + o.kind.tag == "unsupported_order_type: " + o.kind.tag;
    }
  }

  lemma SameReach(b: Book, o: Order)
    ensures InReach(b, Normalize(o)) == InReach(b, o)
  {
  }

  lemma LimitAnswers(b: Book, o: Order)
    requires Wf(b)
    ensures var r := HandleLimit(b, o);
      if o.tif == PostOnly && InReach(b, o) > 0 then r == Outcome(b, Result([], false, "post_only_would_cross"))
      else if o.tif == FOK && (InReach(b, o) < o.volume || InReach(b, o) <= 0)
      then r == Outcome(b, Result([], false, "fok_not_fully_fillable"))
      else r.result.accepted && r.result.reason == ""
  {
    hide MatchTaker, WouldCross, CanFullyFill, Rest, InReach, Wf;
    LimitAccepts(b, o);
    ReachableIsInReach(b, o);
  }

  lemma MarketAnswers(b: Book, o: Order)
    ensures HandleMarket(b, o).result.accepted && HandleMarket(b, o).result.reason == ""
  {
    hide MatchTaker;
  }

  // ---- modifying ----

  // A modify answers for itself only when it does not submit again; otherwise the submission on
  // the book without the order does.
  lemma ModifyAnswers(b: Book, id: int, p: Px, v: Qty)
    requires Wf(b)
    ensures var r := Modify(b, id, p, v).result; var op := ModifyOp(id, p, v);
      r == if !Resting(b, id) then Result([], false, "modify_order_not_found")
           else if !Resubmits(b, op) then Result([], true, "")
           else Submit(Cancel(b, id).0, Resubmitted(b, op)).result
  {
    hide Submit, Wf, Lookup, Cancel;
    CancelAnswers(b, id);
    ReduceAnswers(b, id, v);
    CancelKeeps(b, id);
  }
}
