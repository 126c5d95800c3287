/** Thunk.java: the suspended computation.  A thunk has one mutable slot,
    `indirectee`, that is empty while nobody has produced its value and holds
    the result once it is updated; in between it may hold the evaluating
    thread, a blocking queue of waiting threads, a black hole or the lock
    sentinel.  The class also owns the free-variable clearing done after an
    update and the registry of revertible CAFs.

    Dafny has no subclassing, so the instance fields that Ap4Upd and the
    selector thunks add are the datatype `ThunkFields`, and `thunkEnter`
    dispatches on it to the code of those classes. */
module Thunks {
  import opened Stg
  import Ap4UpdThunk
  import SelectorUpdThunk

  /** The instance fields a concrete thunk class adds to Thunk: the public,
      mutable `p1`..`p4` of Ap4Upd, or the protected, final `index` and
      producer `p` of a selector thunk. */
  datatype ThunkFields =
    | Ap4UpdFields(p1: Closure, p2: Closure, p3: Closure, p4: Closure)
    | SelectorFields(kind: SelectorUpdThunk.SelectorKind, index: int, p: Closure)

  // ---------------------------------------------------------------------
  // Free-variable clearing

  /** What `clear` looks at in a field: its name, whether its type is
      primitive, whether it is static. */
  datatype FieldInfo = FieldInfo(name: string, isPrimitive: bool, isStatic: bool)

  /** `canClearField`: any reference instance field except `indirectee`. */
  predicate CanClearField(f: FieldInfo)
  {
    f.name != "indirectee" && !f.isPrimitive && !f.isStatic
  }

  /** `getClass().getFields()`: the public fields of the thunk's class,
      inherited and static ones included: Thunk's `indirectee` and its static
      `thunkFieldsCache`, after the class's own.  The selectors' `index` and
      `p` are not public, so only Thunk's two fields are visible for them. */
  function PublicFields(fs: ThunkFields): seq<FieldInfo>
  {
    var inherited := [FieldInfo("indirectee", false, false), FieldInfo("thunkFieldsCache", false, true)];
    match fs
    case Ap4UpdFields(_, _, _, _) =>
      [FieldInfo("p1", false, false), FieldInfo("p2", false, false),
       FieldInfo("p3", false, false), FieldInfo("p4", false, false)] + inherited
    case SelectorFields(_, _, _) => inherited
  }

  /** The fields of `lookup` that `canClearField` accepts, in order. */
  function Clearable(lookup: seq<FieldInfo>): (r: seq<FieldInfo>)
    ensures |r| <= |lookup|
  {
    if lookup == [] then []
    else (if CanClearField(lookup[0]) then [lookup[0]] else []) + Clearable(lookup[1..])
  }

  /** The table holds exactly the clearable fields of the lookup. */
  lemma {:induction false} ClearableSelects(lookup: seq<FieldInfo>, f: FieldInfo)
    ensures f in Clearable(lookup) <==> f in lookup && CanClearField(f)
  {
    if lookup != [] {
      ClearableSelects(lookup[1..], f);
      assert lookup == [lookup[0]] + lookup[1..];
    }
  }

  lemma {:induction false} ClearableAppend(xs: seq<FieldInfo>, ys: seq<FieldInfo>)
    ensures Clearable(xs + ys) == Clearable(xs) + Clearable(ys)
  {
    if xs == [] {
      assert xs + ys == ys;
    } else {
      var head := if CanClearField(xs[0]) then [xs[0]] else [];
      assert (xs + ys)[0] == xs[0];
      assert (xs + ys)[1..] == xs[1..] + ys;
      ClearableAppend(xs[1..], ys);
      calc {
        Clearable(xs + ys);
        head + Clearable(xs[1..] + ys);
        head + (Clearable(xs[1..]) + Clearable(ys));
        (head + Clearable(xs[1..])) + Clearable(ys);
        Clearable(xs) + Clearable(ys);
      }
    }
  }

  /** Clearable fields of a list extended by one field. */
  lemma ClearableSnoc(xs: seq<FieldInfo>, x: FieldInfo)
    ensures Clearable(xs + [x]) == Clearable(xs) + (if CanClearField(x) then [x] else [])
  {
    ClearableAppend(xs, [x]);
    assert [x][1..] == [];
  }

  /** One more field of the lookup, seen from both ends of the scan. */
  lemma ClearableStep(lookup: seq<FieldInfo>, k: nat)
    requires k < |lookup|
    ensures Clearable(lookup[..k + 1]) == Clearable(lookup[..k]) + (if CanClearField(lookup[k]) then [lookup[k]] else [])
    ensures Clearable(lookup[k..]) == (if CanClearField(lookup[k]) then [lookup[k]] else []) + Clearable(lookup[k + 1..])
  {
    assert lookup[..k + 1] == lookup[..k] + [lookup[k]];
    ClearableSnoc(lookup[..k], lookup[k]);
    assert lookup[k..][1..] == lookup[k + 1..];
  }

  /** The field-table construction of `clear`: one pass counts the clearable
      fields, an array of that size is allocated, a second pass fills it. */
  method ClearableFields(lookup: seq<FieldInfo>) returns (fields: seq<FieldInfo>)
    ensures fields == Clearable(lookup)
  {
    var count := 0;
    for k := 0 to |lookup|
      invariant count == |Clearable(lookup[..k])|
    {
      ClearableStep(lookup, k);
      if CanClearField(lookup[k]) {
        count := count + 1;
      }
    }
    assert lookup[..|lookup|] == lookup;
    var table := new FieldInfo[count];
    var i := 0;
    for k := 0 to |lookup|
      invariant i <= table.Length
      invariant table[..i] == Clearable(lookup[..k])
      invariant table.Length - i == |Clearable(lookup[k..])|
    {
      ClearableStep(lookup, k);
      if CanClearField(lookup[k]) {
        table[i] := lookup[k];
        i := i + 1;
      }
    }
    assert table[..] == table[..i];
    fields := table[..];
  }

  /** `f.set(this, null)` for the field called `name`. */
  function WithFieldNulled(fs: ThunkFields, name: string): ThunkFields
  {
    match fs
    case Ap4UpdFields(_, _, _, _) =>
      if name == "p1" then fs.(p1 := Null)
      else if name == "p2" then fs.(p2 := Null)
      else if name == "p3" then fs.(p3 := Null)
      else if name == "p4" then fs.(p4 := Null)
      else fs
    case SelectorFields(_, _, _) => fs
  }

  /** Nulling each field of `fields` in turn. */
  function NulledAll(fs: ThunkFields, fields: seq<FieldInfo>): ThunkFields
  {
    if fields == [] then fs
    else WithFieldNulled(NulledAll(fs, fields[..|fields| - 1]), fields[|fields| - 1].name)
  }

  /** The free variables of each thunk class after clearing, stated per
      class: Ap4Upd loses all four references, a selector keeps its final
      index and producer. */
  function Cleared(fs: ThunkFields): ThunkFields
  {
    match fs
    case Ap4UpdFields(_, _, _, _) => Ap4UpdFields(Null, Null, Null, Null)
    case SelectorFields(_, _, _) => fs
  }

  /** The four reference fields of Ap4Upd, in declaration order. */
  function Ap4Pointers(): seq<FieldInfo>
  {
    [FieldInfo("p1", false, false), FieldInfo("p2", false, false),
     FieldInfo("p3", false, false), FieldInfo("p4", false, false)]
  }

  /** The field table of Ap4Upd is its four pointers: `indirectee` and the
      static cache are dropped. */
  lemma ClearableAp4(fs: ThunkFields)
    requires fs.Ap4UpdFields?
    ensures Clearable(PublicFields(fs)) == Ap4Pointers()
  {
    var pf := PublicFields(fs);
    assert Clearable(pf[5..]) == [] by {
      assert pf[5..][1..] == [];
    }
    assert Clearable(pf[4..]) == [] by {
      assert pf[4..][1..] == pf[5..];
    }
    assert Clearable(pf[3..]) == [pf[3]] by {
      assert pf[3..][1..] == pf[4..];
    }
    assert Clearable(pf[2..]) == [pf[2], pf[3]] by {
      assert pf[2..][1..] == pf[3..];
    }
    assert Clearable(pf[1..]) == [pf[1], pf[2], pf[3]] by {
      assert pf[1..][1..] == pf[2..];
    }
  }

  /** Nulling the four pointers of an Ap4Upd one after the other. */
  lemma NulledAp4(fs: ThunkFields)
    requires fs.Ap4UpdFields?
    ensures NulledAll(fs, Ap4Pointers()) == Cleared(fs)
  {
    var c := Ap4Pointers();
    var n1 := WithFieldNulled(fs, "p1");
    var n2 := WithFieldNulled(n1, "p2");
    var n3 := WithFieldNulled(n2, "p3");
    assert c[..1][..0] == [];
    assert NulledAll(fs, c[..1]) == n1;
    assert c[..2][..1] == c[..1];
    assert NulledAll(fs, c[..2]) == n2;
    assert c[..3][..2] == c[..2];
    assert NulledAll(fs, c[..3]) == n3;
    assert c[..|c| - 1] == c[..3];
  }

  /** The reflective clear (null every public, non-static, non-primitive field
      but `indirectee`) does exactly the per-class clearing. */
  lemma ClearMatchesFieldTable(fs: ThunkFields)
    ensures NulledAll(fs, Clearable(PublicFields(fs))) == Cleared(fs)
  {
    match fs
    case Ap4UpdFields(_, _, _, _) =>
      ClearableAp4(fs);
      NulledAp4(fs);
    case SelectorFields(_, _, _) =>
      var pf := PublicFields(fs);
      assert pf[1..][1..] == [];
      assert Clearable(pf[1..]) == [];
  }

  // ---------------------------------------------------------------------
  // Entering and applying

  /** What `thunkEnter` does, by class, starting from registers `regs`. */
  function EnterOutcome(fs: ThunkFields, regs: Registers, world: World): Effect
  {
    match fs
    case Ap4UpdFields(p1, p2, p3, p4) => Ap4UpdThunk.ThunkEnter(p1, p2, p3, p4, regs, world)
    case SelectorFields(kind, index, p) => SelectorUpdThunk.EnterOutcome(kind, index, p, regs, world)
  }

  /** Entering an Ap4Upd thunk whose free variables were cleared fails at
      once, touching no register: the result has to be installed before the
      fields are cleared. */
  lemma ClearedAp4CannotBeEntered(fs: ThunkFields, regs: Registers, world: World)
    requires fs.Ap4UpdFields?
    ensures EnterOutcome(Cleared(fs), regs, world) == Effect(Threw(NullPointerException), regs)
  {
  }

  /** `.applyX(context, ...)` on the closure an entry produced: a failed
      entry propagates, a null closure raises a NullPointerException, any
      other closure is applied in the registers the entry left. */
  function Forward(target: Effect, args: seq<Arg>, world: World): (r: Effect)
    ensures !target.outcome.Returned? ==> r == target
    ensures target.outcome == Returned(Null) ==> r == Effect(Threw(NullPointerException), target.regs)
    ensures target.outcome.Returned? && target.outcome.result != Null ==>
              r == world.apply(target.outcome.result, args, target.regs)
  {
    match target.outcome
    case Returned(c) =>
      if c == Null then Effect(Threw(NullPointerException), target.regs) else world.apply(c, args, target.regs)
    case _ => target
  }

  /** An unevaluated selector thunk cannot be applied: its entry returns null
      (the field went to a register) or fails, so the apply never returns;
      the registers are those its entry left. */
  lemma ApplyUnevaluatedSelectorFails(kind: SelectorUpdThunk.SelectorKind, index: int, p: Closure,
                                      regs: Registers, args: seq<Arg>, world: World)
    ensures var e := EnterOutcome(SelectorFields(kind, index, p), regs, world);
            var r := Forward(e, args, world);
            !r.outcome.Returned? && r.regs == e.regs
  {
  }

  // ---------------------------------------------------------------------
  // The update protocol, as a function of the slot

  /** `updateThunk`'s obligations to the scheduler, given what the slot held
      before the update and the current thread. */
  function OwedCalls(prior: Closure, tso: Tso): (calls: seq<CapCall>)
    ensures |calls| <= 1
    ensures calls == [] <==> prior == Null || prior == TsoClosure(tso)
    ensures calls == [CapCall.WakeBlockingQueue(prior)] <==> prior.BlockingQueue? && prior.owner == tso
    ensures calls != [] && !(prior.BlockingQueue? && prior.owner == tso) ==>
              calls == [CapCall.CheckBlockingQueues(tso)]
  {
    if prior == Null || prior == TsoClosure(tso) then []
    else if prior.BlockingQueue? && prior.owner == tso then [CapCall.WakeBlockingQueue(prior)]
    else [CapCall.CheckBlockingQueues(tso)]
  }

  /** One `updateCode` on a slot: the new slot, the closure returned, whether
      free variables are cleared, and the scheduler calls made. */
  datatype UpdateStep = UpdateStep(slot: Closure, result: Closure, clears: bool, calls: seq<CapCall>)

  function UpdateCodeStep(prior: Closure, tso: Tso, ret: Closure): (u: UpdateStep)
    ensures u.slot == u.result
    ensures prior.ValueClosure? ==>
              u.result == prior && !u.clears && u.calls == [CapCall.CheckBlockingQueues(tso)]
    ensures !prior.ValueClosure? ==> u.result == ret && u.clears && u.calls == OwedCalls(prior, tso)
  {
    if prior.ValueClosure? then UpdateStep(prior, prior, false, [CapCall.CheckBlockingQueues(tso)])
    else UpdateStep(ret, ret, true, OwedCalls(prior, tso))
  }

  /** A candidate result offered by a thread. */
  datatype Update = Update(tso: Tso, ret: Closure)

  /** The closures returned by a sequence of `updateCode` calls on one slot. */
  function Results(slot: Closure, updates: seq<Update>): (rs: seq<Closure>)
    ensures |rs| == |updates|
    decreases |updates|
  {
    if updates == [] then []
    else
      var u := UpdateCodeStep(slot, updates[0].tso, updates[0].ret);
      [u.result] + Results(u.slot, updates[1..])
  }

  /** The slot after a sequence of `updateCode` calls. */
  function FinalSlot(slot: Closure, updates: seq<Update>): Closure
    decreases |updates|
  {
    if updates == [] then slot
    else
      var u := UpdateCodeStep(slot, updates[0].tso, updates[0].ret);
      FinalSlot(u.slot, updates[1..])
  }

  /** Memoisation is permanent: once the slot holds a Value, every later
      `updateCode` returns that Value and leaves it in place. */
  lemma {:induction false} InstalledValuePermanent(slot: Closure, updates: seq<Update>)
    requires slot.ValueClosure?
    ensures forall i :: 0 <= i < |updates| ==> Results(slot, updates)[i] == slot
    ensures FinalSlot(slot, updates) == slot
  {
    if updates != [] {
      InstalledValuePermanent(slot, updates[1..]);
    }
  }

  /** Racing updates agree: when the first update to land installs a Value,
      every thread that updates the thunk gets that same Value back. */
  lemma FirstValueWins(slot: Closure, updates: seq<Update>)
    requires updates != [] && !slot.ValueClosure? && updates[0].ret.ValueClosure?
    ensures forall i :: 0 <= i < |updates| ==> Results(slot, updates)[i] == updates[0].ret
    ensures FinalSlot(slot, updates) == updates[0].ret
  {
    InstalledValuePermanent(updates[0].ret, updates[1..]);
  }

  // ---------------------------------------------------------------------
  // The thunk object

  class Thunk {
    var indirectee: Closure
    var fields: ThunkFields

    /** `new Ap4Upd(p1, p2, p3, p4)`: an unevaluated thunk storing its
        function and arguments as given. */
    constructor Ap4Upd(p1: Closure, p2: Closure, p3: Closure, p4: Closure)
      ensures indirectee == Null && fields == Ap4UpdFields(p1, p2, p3, p4)
    {
      indirectee := Null;
      fields := Ap4UpdFields(p1, p2, p3, p4);
    }

    /** `new SelectorDUpd(i, p)`: passes index and producer on unchanged. */
    constructor SelectorDUpd(i: int, p: Closure)
      ensures indirectee == Null && fields == SelectorFields(SelectorUpdThunk.SelectD, i, p)
    {
      indirectee := Null;
      fields := SelectorFields(SelectorUpdThunk.SelectD, i, p);
    }

    /** `new SelectorFUpd(i, p)`: passes index and producer on unchanged. */
    constructor SelectorFUpd(i: int, p: Closure)
      ensures indirectee == Null && fields == SelectorFields(SelectorUpdThunk.SelectF, i, p)
    {
      indirectee := Null;
      fields := SelectorFields(SelectorUpdThunk.SelectF, i, p);
    }

    /** `getEvaluated`: the slot's content exactly when it is a Value. */
    function GetEvaluated(): (r: Closure)
      reads this
      ensures r != Null <==> indirectee.ValueClosure?
      ensures r != Null ==> r == indirectee
    {
      if indirectee.ValueClosure? then indirectee else Null
    }

    /** `setIndirection`: a plain store into the slot. */
    method SetIndirection(c: Closure)
      modifies this`indirectee
      ensures indirectee == c
    {
      indirectee := c;
    }

    /** `clear`: null every clearable public field, using the field table. */
    method Clear()
      modifies this`fields
      ensures fields == Cleared(old(fields))
    {
      var clearable := ClearableFields(PublicFields(fields));
      ClearMatchesFieldTable(fields);
      NullFields(clearable);
    }

    /** The loop of `clear` over the field table: `f.set(this, null)` for
        each field in turn. */
    method NullFields(table: seq<FieldInfo>)
      modifies this`fields
      ensures fields == NulledAll(old(fields), table)
    {
      for k := 0 to |table|
        invariant fields == NulledAll(old(fields), table[..k])
      {
        assert table[..k + 1][..k] == table[..k];
        fields := WithFieldNulled(fields, table[k].name);
      }
      assert table[..|table|] == table;
    }

    /** `updateWithIndirection`: install the result, then clear the free
        variables; the slot is not touched by the clearing. */
    method UpdateWithIndirection(ret: Closure)
      modifies this
      ensures indirectee == ret
      ensures fields == Cleared(old(fields))
    {
      SetIndirection(ret);
      Clear();
    }

    /** `updateThunk`: the slot always ends holding `val`; the scheduler is
        owed the calls `OwedCalls` gives for the previous content. */
    method UpdateThunk(cap: Capability, tso: Tso, val: Closure)
      modifies this, cap
      ensures indirectee == val
      ensures fields == Cleared(old(fields))
      ensures cap.calls == old(cap.calls) + OwedCalls(old(indirectee), tso)
    {
      var v := indirectee;
      if v == Null {
        UpdateWithIndirection(val);
        return;
      }
      UpdateWithIndirection(val);
      if v == TsoClosure(tso) {
        return;
      }
      if v.BlockingQueue? {
        var owner := v.owner;
        if owner != tso {
          cap.CheckBlockingQueues(tso);
        } else {
          cap.WakeBlockingQueue(v);
        }
      } else {
        cap.CheckBlockingQueues(tso);
        return;
      }
    }

    /** `updateCode`: install `ret` unless the thunk already holds a Value,
        in which case that Value is returned and `ret` is discarded.  Either
        way the slot ends holding what is returned. */
    method UpdateCode(context: StgContext, ret: Closure) returns (r: Closure)
      modifies this, context.myCapability
      ensures r == indirectee
      ensures old(indirectee).ValueClosure? ==>
                r == old(indirectee) && fields == old(fields) &&
                context.myCapability.calls ==
                  old(context.myCapability.calls) + [CapCall.CheckBlockingQueues(context.currentTSO)]
      ensures !old(indirectee).ValueClosure? ==>
                r == ret && fields == Cleared(old(fields)) &&
                context.myCapability.calls ==
                  old(context.myCapability.calls) + OwedCalls(old(indirectee), context.currentTSO)
      ensures var u := UpdateCodeStep(old(indirectee), context.currentTSO, ret);
              r == u.result && indirectee == u.slot &&
              fields == (if u.clears then Cleared(old(fields)) else old(fields)) &&
              context.myCapability.calls == old(context.myCapability.calls) + u.calls
    {
      var v := indirectee;
      var cap := context.myCapability;
      var tso := context.currentTSO;
      if v.ValueClosure? {
        cap.CheckBlockingQueues(tso);
        return v;
      }
      if v == TsoClosure(tso) {
        UpdateWithIndirection(ret);
        return ret;
      }
      UpdateThunk(cap, tso, ret);
      return ret;
    }

    /** `tryLock`: take the lock by swapping the empty slot for the WhiteHole
        sentinel. */
    method TryLock() returns (ok: bool)
      modifies this`indirectee
      ensures ok <==> old(indirectee) == Null
      ensures ok ==> indirectee == WhiteHole && GetEvaluated() == Null
      ensures !ok ==> indirectee == old(indirectee)
    {
      ok := Cas(Null, WhiteHole);
    }

    /** `cas`: compare-and-set on the slot (both implementation paths of the
        source perform the same operation). */
    method Cas(expected: Closure, update: Closure) returns (ok: bool)
      modifies this`indirectee
      ensures ok <==> old(indirectee) == expected
      ensures indirectee == if ok then update else old(indirectee)
    {
      ok := indirectee == expected;
      if ok {
        indirectee := update;
      }
    }

    /** `enter` of a thunk is its class's `thunkEnter`: the outcome and the
        registers it leaves are `EnterOutcome` of the registers before. */
    method ThunkEnter(context: StgContext, world: World) returns (r: Entered)
      modifies context`dRegs, context`fRegs
      ensures Effect(r, context.Regs()) == EnterOutcome(fields, old(context.Regs()), world)
    {
      match fields
      case Ap4UpdFields(p1, p2, p3, p4) =>
        var e := Ap4UpdThunk.ThunkEnter(p1, p2, p3, p4, context.Regs(), world);
        context.SetRegisters(e.regs);
        r := e.outcome;
      case SelectorFields(kind, index, p) =>
        r := SelectorUpdThunk.ThunkEnter(kind, index, p, context, world);
    }

    /** The apply family on a thunk: with an empty slot, enter the thunk and
        apply what that returns; otherwise apply whatever the slot holds,
        without entering. */
    method Apply(context: StgContext, args: seq<Arg>, world: World) returns (r: Entered)
      requires IsApplyShape(args)
      modifies context`dRegs, context`fRegs
      ensures indirectee != Null ==> Effect(r, context.Regs()) == world.apply(indirectee, args, old(context.Regs()))
      ensures indirectee == Null ==>
                Effect(r, context.Regs()) == Forward(EnterOutcome(fields, old(context.Regs()), world), args, world)
    {
      var target: Closure;
      if indirectee == Null {
        var e := ThunkEnter(context, world);
        if !e.Returned? {
          return e;
        }
        target := e.result;
      } else {
        target := indirectee;
      }
      if target == Null {
        return Threw(NullPointerException);
      }
      var a := world.apply(target, args, context.Regs());
      context.SetRegisters(a.regs);
      r := a.outcome;
    }
  }

  // ---------------------------------------------------------------------
  // Revertible CAFs

  /** The static CAF state of Thunk: the queue of revertible CAFs and the
      keep-CAFs toggle. */
  class CafRegistry {
    var revertibleCAFList: seq<Thunk>
    var keepCAFs: bool

    constructor ()
      ensures revertibleCAFList == [] && !keepCAFs
    {
      revertibleCAFList := [];
      keepCAFs := false;
    }

    method SetKeepCAFs()
      modifies this`keepCAFs
      ensures ShouldKeepCAFs()
    {
      keepCAFs := true;
    }

    method ResetKeepCAFs()
      modifies this`keepCAFs
      ensures !ShouldKeepCAFs()
    {
      keepCAFs := false;
    }

    /** `shouldKeepCAFs`: the toggle the two methods above set and reset. */
    function ShouldKeepCAFs(): bool
      reads this`keepCAFs
    {
      keepCAFs
    }

    /** A CAF adds itself to the queue when it is made revertible. */
    method AddRevertible(c: Thunk)
      modifies this`revertibleCAFList
      ensures revertibleCAFList == old(revertibleCAFList) + [c]
    {
      revertibleCAFList := revertibleCAFList + [c];
    }

    /** `revertCAFs`: empty the slot of every registered CAF, then empty the
        queue.  Nothing else of the CAFs changes. */
    method RevertCAFs()
      modifies this`revertibleCAFList, revertibleCAFList
      ensures revertibleCAFList == []
      ensures forall c :: c in old(revertibleCAFList) ==> c.indirectee == Null
      ensures forall c :: c in old(revertibleCAFList) ==> c.fields == old(c.fields)
    {
      for i := 0 to |revertibleCAFList|
        invariant revertibleCAFList == old(revertibleCAFList)
        invariant forall k :: 0 <= k < i ==> revertibleCAFList[k].indirectee == Null
        invariant forall c :: c in old(revertibleCAFList) ==> c.fields == old(c.fields)
      {
        revertibleCAFList[i].SetIndirection(Null);
      }
      revertibleCAFList := [];
    }
  }
}
