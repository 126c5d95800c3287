/** Ap4Upd.java: an updatable thunk for the saturated application of a
    function `p1` to three pointer arguments `p2`, `p3`, `p4`.  Its four
    fields live in `Thunks.ThunkFields.Ap4UpdFields`; this module holds what
    entering it does. */
module Ap4UpdThunk {
  import opened Stg

  /** The arguments `thunkEnter` passes, in order: the applyPPP shape. */
  function Arguments(p2: Closure, p3: Closure, p4: Closure): (args: seq<Arg>)
    ensures IsApplyShape(args)
    ensures |args| == 3 && args[0] == P(p2) && args[1] == P(p3) && args[2] == P(p4)
  {
    [P(p2), P(p3), P(p4)]
  }

  /** `thunkEnter`: `p1.applyPPP(context, p2, p3, p4)`.  The call on a null
      `p1` (as after the fields were cleared) raises a NullPointerException
      and touches no register; otherwise the outcome and the registers are
      whatever applying `p1` gives, which may itself be a failure. */
  function ThunkEnter(p1: Closure, p2: Closure, p3: Closure, p4: Closure, regs: Registers, world: World): (r: Effect)
    ensures p1 == Null ==> r == Effect(Threw(NullPointerException), regs)
    ensures p1 != Null ==> r == world.apply(p1, Arguments(p2, p3, p4), regs)
  {
    if p1 == Null then Effect(Threw(NullPointerException), regs)
    else world.apply(p1, Arguments(p2, p3, p4), regs)
  }
}
