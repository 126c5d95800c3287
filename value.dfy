/** Value.java: the base of every closure already in weak head normal form.
    Entering one is a fatal contract violation; probing one for its
    evaluated form gives the value itself. */
module StgValue {
  import opened Stg

  /** The fatal report for entering `v`: its printed form followed by " entered.". */
  function EnteredMessage(v: Value): string
  {
    v.shown + " entered."
  }

  /** `enter` on a Value: always the fatal `barf`, never a closure. */
  function Enter(v: Value): (r: Entered)
    ensures !r.Returned? && !r.Threw?
    ensures r == Barfed(EnteredMessage(v))
  {
    Barfed(EnteredMessage(v))
  }

  /** `getEvaluated` on a Value (final, so the same for every kind of value):
      the value itself, never null. */
  function GetEvaluated(v: Value): (r: Closure)
    ensures r != Null && r.ValueClosure? && r.value == v
  {
    ValueClosure(v)
  }

  /** The fatal report identifies the entered node: two values whose reports
      are equal print the same. */
  lemma EnteredMessageIdentifies(v: Value, w: Value)
    requires Enter(v) == Enter(w)
    ensures v.shown == w.shown
  {
    var suffix := " entered.";
    assert v.shown + suffix == w.shown + suffix;
    assert |v.shown| == |w.shown|;
    assert v.shown == (v.shown + suffix)[..|v.shown|];
    assert w.shown == (w.shown + suffix)[..|w.shown|];
  }
}
