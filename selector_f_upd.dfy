/** SelectorFUpd.java: the selector thunk that projects a float field.
    Its `selectEnter` places the field in the context's float register 1
    instead of allocating a result. */
module SelectorFUpdThunk {
  import opened Stg

  /** `selectEnter`: `context.F(1, result.getF(index))`, then return null to
      signal that the result is already in the context.  `result` has the
      static type DataCon, so it is null or a data constructor. */
  method SelectEnter(context: StgContext, index: int, result: Closure) returns (r: Entered)
    requires IsDataConOrNull(result)
    modifies context`fRegs
    ensures result == Null ==> r == Threw(NullPointerException) && context.fRegs == old(context.fRegs)
    ensures result != Null ==> (r == Returned(Null) <==> index in result.value.floats)
    ensures result != Null && index !in result.value.floats ==>
              r == Threw(NoSuchField) && context.fRegs == old(context.fRegs)
    ensures result != Null && index in result.value.floats ==>
              context.fRegs == old(context.fRegs)[1 := result.value.floats[index]]
  {
    if result == Null {
      return Threw(NullPointerException);
    }
    var floats := result.value.floats;
    if index !in floats {
      return Threw(NoSuchField);
    }
    context.F(1, floats[index]);
    return Returned(Null);
  }
}
