/** The runtime vocabulary that the thunk and value code works with: closures,
    logical threads, the evaluation context and the capability.  The classes
    behind most of these (TSO, BlockingQueue, DataCon, StgContext, Capability)
    are collaborators; only what the thunk code reads or calls is kept. */
module Stg {

  /** A logical thread (a TSO), known by its numeric id. */
  datatype Tso = Tso(id: int)

  /** Raw IEEE-754 payloads of double and float registers and fields; the
      runtime code here only copies them, so no arithmetic is modelled. */
  type JDouble = bv64
  type JFloat = bv32

  /** A closure in weak head normal form.  `shown` is its printed form
      (`toString`). A data constructor carries its double and float fields by
      index; every other value (functions, partial applications, compiled
      closures) is only known by its printed form. */
  datatype Value =
    | DataCon(shown: string, doubles: map<int, JDouble>, floats: map<int, JFloat>)
    | OtherValue(shown: string)

  /** What a reference of static type Closure can point to, as far as the
      update protocol distinguishes it.  Reference identity is modelled as
      equality of these descriptions. */
  datatype Closure =
    | Null
    | ValueClosure(value: Value)
    | TsoClosure(tso: Tso)
    | BlockingQueue(queueId: nat, owner: Tso)
    | BlackHole
    | WhiteHole
    | Suspended(thunkId: nat)

  /** A reference of static type DataCon: null, or a data constructor value
      (what the cast `(DataCon) c` lets through). */
  predicate IsDataConOrNull(c: Closure)
  {
    c == Null || (c.ValueClosure? && c.value.DataCon?)
  }

  /** One argument of the apply family: pointer, int, long, float, double,
      object, or the trailing void. */
  datatype Arg = P(ptr: Closure) | N(intArg: int) | L(longArg: int) | F(floatArg: JFloat) | D(doubleArg: JDouble) | O(obj: nat) | V

  /** The argument shapes of the apply family (applyV, applyN, ..., applyPPPPPP). */
  predicate IsApplyShape(args: seq<Arg>)
  {
    || (|args| == 1 && (args[0].V? || args[0].N? || args[0].L? || args[0].F? || args[0].D? || args[0].O? || args[0].P?))
    || (|args| >= 2 && args[|args| - 1].V? && |args| <= 4 && forall i :: 0 <= i < |args| - 1 ==> args[i].P?)
    || (|args| >= 2 && |args| <= 6 && forall i :: 0 <= i < |args| ==> args[i].P?)
  }

  /** The Java exceptions the modelled code can raise. NoSuchField stands for
      a typed field accessor of a data constructor failing on an index the
      constructor does not have. */
  datatype Failure = NullPointerException | ClassCastException | NoSuchField

  /** The outcome of entering a closure: a closure is returned, a Java
      exception propagates, or the runtime reports a fatal error (`barf`). */
  datatype Entered = Returned(result: Closure) | Threw(failure: Failure) | Barfed(message: string)

  /** The double and float registers of a context, by register number. */
  datatype Registers = Registers(d: map<int, JDouble>, f: map<int, JFloat>)

  /** What running a piece of code does: its outcome, and the registers it
      leaves behind. */
  datatype Effect = Effect(outcome: Entered, regs: Registers)

  /** Code outside this model, given as functions of the registers it starts
      from: applying a closure to arguments, and evaluating a closure to weak
      head normal form.  Either may throw, return null or write registers. */
  datatype World = World(apply: (Closure, seq<Arg>, Registers) -> Effect, evaluate: (Closure, Registers) -> Effect)

  /** A call the thunk code makes on its capability (the scheduler). */
  datatype CapCall = CheckBlockingQueues(tso: Tso) | WakeBlockingQueue(queue: Closure)

  /** The capability, reduced to the log of the scheduler calls made on it. */
  class Capability {
    var calls: seq<CapCall>

    constructor ()
      ensures calls == []
    {
      calls := [];
    }

    method CheckBlockingQueues(tso: Tso)
      modifies this
      ensures calls == old(calls) + [CapCall.CheckBlockingQueues(tso)]
    {
      calls := calls + [CapCall.CheckBlockingQueues(tso)];
    }

    method WakeBlockingQueue(bq: Closure)
      modifies this
      ensures calls == old(calls) + [CapCall.WakeBlockingQueue(bq)]
    {
      calls := calls + [CapCall.WakeBlockingQueue(bq)];
    }
  }

  /** The evaluation context of a worker: its capability, the thread it runs,
      and the double and float registers, by register number. */
  class StgContext {
    var myCapability: Capability
    var currentTSO: Tso
    var dRegs: map<int, JDouble>
    var fRegs: map<int, JFloat>

    constructor (cap: Capability, tso: Tso)
      ensures myCapability == cap && currentTSO == tso
      ensures dRegs == map[] && fRegs == map[]
    {
      myCapability := cap;
      currentTSO := tso;
      dRegs := map[];
      fRegs := map[];
    }

    /** The registers, as one value. */
    function Regs(): Registers
      reads this
    {
      Registers(dRegs, fRegs)
    }

    /** The registers as code outside this model leaves them. */
    method SetRegisters(regs: Registers)
      modifies this`dRegs, this`fRegs
      ensures Regs() == regs
    {
      dRegs := regs.d;
      fRegs := regs.f;
    }

    /** `context.D(n, d)`: write double register n. */
    method D(n: int, d: JDouble)
      modifies this`dRegs
      ensures dRegs == old(dRegs)[n := d]
    {
      dRegs := dRegs[n := d];
    }

    /** `context.F(n, f)`: write float register n. */
    method F(n: int, f: JFloat)
      modifies this`fRegs
      ensures fRegs == old(fRegs)[n := f]
    {
      fRegs := fRegs[n := f];
    }
  }
}
