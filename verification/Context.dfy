/** The deadline of an invocation, as every link sees it. */
module Context {
  import opened Wrappers

  /** The time left, never negative; none without a deadline. */
  function Remaining(deadline: Option<real>, now: real): Option<real> {
    match deadline
    case None => None
    case Some(d) => Some(if d - now > 0.0 then d - now else 0.0)
  }

  predicate Expired(deadline: Option<real>, now: real) {
    deadline.Some? && now >= deadline.value
  }

  /** Waiting for what remains leads to the deadline and not past it; it is gone
      exactly when nothing remains; and a pause shorter than what remains is one
      that ends before it. */
  lemma RemainingMeans(deadline: Option<real>, now: real, pause: real)
    requires pause >= 0.0
    ensures deadline.None? <==> Remaining(deadline, now).None?
    ensures deadline.Some? ==>
      var left := Remaining(deadline, now).value;
      && left >= 0.0 && (now <= deadline.value ==> now + left == deadline.value)
      && (Expired(deadline, now) <==> left == 0.0)
      && (pause < left <==> now + pause < deadline.value)
    ensures Expired(deadline, now) <==> deadline.Some? && deadline.value <= now
  {
  }
}
