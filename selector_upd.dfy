/** SelectorUpd.java: the updatable thunk that projects field `index` out of
    the data constructor its producer `p` evaluates to.  Its `thunkEnter` is
    final; the two kinds (double and float field) differ only in
    `selectEnter`. */
module SelectorUpdThunk {
  import opened Stg
  import SelectorDUpdThunk
  import SelectorFUpdThunk

  /** Which subclass supplies `selectEnter`: SelectorDUpd or SelectorFUpd. */
  datatype SelectorKind = SelectD | SelectF

  /** Whether the constructor has a field of the kind's type at `index`. */
  predicate HasField(kind: SelectorKind, index: int, con: Value)
    requires con.DataCon?
  {
    match kind
    case SelectD => index in con.doubles
    case SelectF => index in con.floats
  }

  /** The cast `(DataCon) c` followed by the kind's `selectEnter`, starting
      from registers `regs`: a failed cast, a null constructor or a missing
      field fail with `regs` untouched; otherwise register 1 of the kind's
      bank receives the field and null is returned. */
  function Select(kind: SelectorKind, index: int, c: Closure, regs: Registers): (r: Effect)
    ensures !IsDataConOrNull(c) ==> r == Effect(Threw(ClassCastException), regs)
    ensures c == Null ==> r == Effect(Threw(NullPointerException), regs)
    ensures r.outcome.Returned? <==> c.ValueClosure? && c.value.DataCon? && HasField(kind, index, c.value)
    ensures !r.outcome.Returned? ==> r.regs == regs
    ensures r.outcome.Returned? ==> r.outcome.result == Null
    ensures r.outcome.Returned? && kind == SelectD ==>
              r.regs == Registers(regs.d[1 := c.value.doubles[index]], regs.f)
    ensures r.outcome.Returned? && kind == SelectF ==>
              r.regs == Registers(regs.d, regs.f[1 := c.value.floats[index]])
  {
    if !IsDataConOrNull(c) then Effect(Threw(ClassCastException), regs)
    else if c == Null then Effect(Threw(NullPointerException), regs)
    else if !HasField(kind, index, c.value) then Effect(Threw(NoSuchField), regs)
    else match kind
      case SelectD => Effect(Returned(Null), Registers(regs.d[1 := c.value.doubles[index]], regs.f))
      case SelectF => Effect(Returned(Null), Registers(regs.d, regs.f[1 := c.value.floats[index]]))
  }

  /** What `thunkEnter` does, starting from registers `regs`: evaluating the
      producer may fail (and that failure propagates, with whatever registers
      the evaluation left) or may write registers before `Select` runs. */
  function EnterOutcome(kind: SelectorKind, index: int, p: Closure, regs: Registers, world: World): (r: Effect)
    ensures p == Null ==> r == Effect(Threw(NullPointerException), regs)
    ensures p != Null && !world.evaluate(p, regs).outcome.Returned? ==> r == world.evaluate(p, regs)
    ensures p != Null && world.evaluate(p, regs).outcome.Returned? ==>
              r == Select(kind, index, world.evaluate(p, regs).outcome.result, world.evaluate(p, regs).regs)
    ensures r.outcome.Returned? ==> r.outcome.result == Null
  {
    if p == Null then Effect(Threw(NullPointerException), regs)
    else
      var e := world.evaluate(p, regs);
      if !e.outcome.Returned? then e
      else Select(kind, index, e.outcome.result, e.regs)
  }

  /** `thunkEnter`: evaluate the producer in the context, cast the result to
      DataCon, and hand it to the kind's `selectEnter`, returning what that
      returns.  The registers end as `EnterOutcome` says. */
  method ThunkEnter(kind: SelectorKind, index: int, p: Closure, context: StgContext, world: World)
    returns (r: Entered)
    modifies context`dRegs, context`fRegs
    ensures Effect(r, context.Regs()) == EnterOutcome(kind, index, p, old(context.Regs()), world)
  {
    if p == Null {
      return Threw(NullPointerException);
    }
    var e := world.evaluate(p, context.Regs());
    context.SetRegisters(e.regs);
    if !e.outcome.Returned? {
      return e.outcome;
    }
    var c := e.outcome.result;
    if !IsDataConOrNull(c) {
      return Threw(ClassCastException);
    }
    if kind == SelectD {
      r := SelectorDUpdThunk.SelectEnter(context, index, c);
    } else {
      r := SelectorFUpdThunk.SelectEnter(context, index, c);
    }
  }

  /** When the producer evaluates to a constructor with the field and leaves
      the registers alone, entering writes exactly register 1 of the kind's
      bank and returns null. */
  lemma SelectsField(kind: SelectorKind, index: int, p: Closure, regs: Registers, world: World, con: Value)
    requires p != Null && world.evaluate(p, regs) == Effect(Returned(ValueClosure(con)), regs)
    requires con.DataCon? && HasField(kind, index, con)
    ensures EnterOutcome(kind, index, p, regs, world).outcome == Returned(Null)
    ensures kind == SelectD ==> EnterOutcome(kind, index, p, regs, world).regs == Registers(regs.d[1 := con.doubles[index]], regs.f)
    ensures kind == SelectF ==> EnterOutcome(kind, index, p, regs, world).regs == Registers(regs.d, regs.f[1 := con.floats[index]])
  {
  }
}
