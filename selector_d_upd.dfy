/** SelectorDUpd.java: the selector thunk that projects a double field.
    Its `selectEnter` places the field in the context's double register 1
    instead of allocating a result. */
module SelectorDUpdThunk {
  import opened Stg

  /** `selectEnter`: `context.D(1, result.getD(index))`, then return null to
      signal that the result is already in the context.  `result` has the
      static type DataCon, so it is null or a data constructor. */
  method SelectEnter(context: StgContext, index: int, result: Closure) returns (r: Entered)
    requires IsDataConOrNull(result)
    modifies context`dRegs
    ensures result == Null ==> r == Threw(NullPointerException) && context.dRegs == old(context.dRegs)
    ensures result != Null ==> (r == Returned(Null) <==> index in result.value.doubles)
    ensures result != Null && index !in result.value.doubles ==>
              r == Threw(NoSuchField) && context.dRegs == old(context.dRegs)
    ensures result != Null && index in result.value.doubles ==>
              context.dRegs == old(context.dRegs)[1 := result.value.doubles[index]]
  {
    if result == Null {
      return Threw(NullPointerException);
    }
    var doubles := result.value.doubles;
    if index !in doubles {
      return Threw(NoSuchField);
    }
    context.D(1, doubles[index]);
    return Returned(Null);
  }
}
