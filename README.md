# Eta runtime: thunk update protocol, RTS option parser, file-lock table

This project models three sequential pieces of the Eta runtime (a Haskell
runtime on the JVM) and proves properties of them in Dafny.

**Thunks and values** (`thunk.dfy`, `value.dfy`, `ap4_upd.dfy`,
`selector_upd.dfy`, `selector_d_upd.dfy`, `selector_f_upd.dfy`, with the
shared vocabulary in `stg.dfy`).
- A thunk is an object with one mutable slot, `indirectee`. The slot holds
  one of:
  - nothing;
  - the value the thunk was updated with;
  - the thread evaluating it;
  - a blocking queue of waiting threads;
  - a black hole;
  - the white-hole lock sentinel.
- `updateCode` / `updateThunk` decide what ends up in the slot and which
  scheduler call the capability is owed. The capability is a log of
  `checkBlockingQueues` / `wakeBlockingQueue` calls.
- After an update, `clear` nulls the free variables a thunk holds: every
  public, non-static reference field except `indirectee`. Its field table is
  built with the two-pass count-then-fill loop of the source.
- `tryLock` and `cas` are a sequential compare-and-set.
- The CAF registry can be reverted.
- Entering a value is a fatal error. Entering an `Ap4Upd` applies `p1` to
  `p2`, `p3`, `p4`. Entering a selector thunk evaluates its producer and
  copies a double or float field of the resulting data constructor into
  register D1 or F1 of the context.
- Java has subclasses; Dafny does not. So the one `Thunks.Thunk` class keeps
  the instance fields of the concrete class as a `ThunkFields` value, and
  its constructors are named after the Java classes.
- Applying a closure and evaluating a closure are code outside this model.
  They are given as the functions of a `World` value. Each takes the
  registers it starts from and gives back an `Effect`: an outcome, which may
  be an exception or a null closure, and the registers it leaves. So an
  applied closure that is itself a selector thunk may write a register and
  then fail, and the model's contracts allow exactly that.

**RTS flags** (`rtsflags.dfy`).
- `setup` takes options from three sources, in this order:
  - the linked-in option string;
  - the `ETA_RTS` environment variable;
  - the command line, split around `+RTS`, `-RTS`, `--RTS` and `--`.
- `splitRtsFlags` is `trim().split("\\s+")`. It is modelled exactly,
  including the `[""]` that splitting a blank string gives.
- `procRtsOpts` decodes `-?`, `--info`, `-D<letters>`, `-C`, `-N`, `-e` and
  `-q`, and flags an error for any other option that starts with `-`. Two
  options never reach that error: on the empty option `charAt(0)` throws,
  and on the bare `-` `charAt(1)` throws. Either
  `StringIndexOutOfBoundsException` ends the run (`RtsFlags.ProcArg`).
- `getIntOrZero` is `Integer.parseInt` with 0 as the fallback.
- The static fields are the fields of the class `RtsFlags.RtsFlags`. The
  imperative methods are proved equal to pure specification functions
  (`ProcArg`, `ProcFrom`, `ScanArgs`, `SetupSpec`). The lemmas are stated
  about those functions.
- `stgExit`, `badOption`, `errorUsage` and uncaught Java exceptions all end
  the run. They are modelled as an `Exit` value returned by the phase they
  end.
- The environment variable, the processor count and the float parser behind
  `-C` are parameters.

**Utils** (`utils.dfy`).
- The reader/writer file-lock table: a key maps to -1 while one writer holds
  it, and to n ≥ 1 while n readers do.
- The per-thread `errno`.
- `cmp_thread`.

Four things in the source differ from what one might expect. The model
follows the code in each case:
- `RtsFlags.java` does not compile as given. `procRtsOpts` takes two
  parameters, yet it is called with three and reads an `rtsOptsEnabled`
  that is not in scope. `ParFlags` declares neither `nNodes` nor `migrate`.
  The model passes the enabled level as a parameter. It keeps those flags,
  and `ctxtSwitchTime`, as fields, starting from Java's defaults.
- `initDefaults` resets every debug flag except `block`. No `-D` letter sets
  `block` either.
- A blank `ETA_RTS` (or linked-in option string) splits into the single
  option `""`. `procRtsOpts` then calls `charAt(0)` on it, which throws
  `StringIndexOutOfBoundsException` (`RtsFlags.BlankOptionsCrash`).
- `-q` never marks the option as checked, so every `-q…` option ends the
  run. A bare `-q` throws `StringIndexOutOfBoundsException` at `charAt(2)`.
  Any longer one reaches the internal-error exit, after `-qm` has cleared
  `migrate` (`RtsFlags.QAlwaysExits`).

## Model

| member | source | states |
|---|---|---|
| `StgValue.Enter` | rts/src/eta/runtime/stg/Value.java:8-11 | entering a value never yields a closure or an exception: it is always the fatal report "<value> entered." |
| `StgValue.EnteredMessageIdentifies` | rts/src/eta/runtime/stg/Value.java:9 | the fatal report identifies the node: equal reports imply equal printed forms |
| `StgValue.GetEvaluated` | rts/src/eta/runtime/stg/Value.java:14 | `getEvaluated` on any value returns that value and is never null |
| `Ap4UpdThunk.Arguments` | rts/src/eta/runtime/thunk/Ap4Upd.java:23 | the arguments passed are `p2`, `p3`, `p4` in that order, an applyPPP shape |
| `Ap4UpdThunk.ThunkEnter` | rts/src/eta/runtime/thunk/Ap4Upd.java:21-24 | a null `p1` raises a NullPointerException and leaves the registers as they were; otherwise outcome and registers are exactly those of applying `p1` to (`p2`,`p3`,`p4`), a failure included |
| `SelectorUpdThunk.EnterOutcome` | rts/src/eta/runtime/thunk/SelectorUpd.java:17-20 | a null producer raises NPE with no register change; a failed evaluation propagates with the registers it left; otherwise the cast and `selectEnter` run on the registers evaluation left; a returned closure is always null |
| `SelectorUpdThunk.Select` | rts/src/eta/runtime/thunk/SelectorUpd.java:19 | the cast fails on a non-constructor (ClassCastException) and a null constructor raises NPE, registers untouched; null is returned exactly when the constructor has the field, and then only register 1 of the kind's bank changes, to that field |
| `SelectorUpdThunk.SelectsField` | rts/src/eta/runtime/thunk/SelectorUpd.java:17-20 | a producer that evaluates to a constructor with the field, touching no register, makes entry return null with exactly register 1 of the kind's bank set to the field |
| `SelectorUpdThunk.ThunkEnter` | rts/src/eta/runtime/thunk/SelectorUpd.java:17-22 | evaluating in the context, casting and calling the kind's `selectEnter` gives the outcome and the final registers of `EnterOutcome` on the registers before |
| `SelectorDUpdThunk.SelectEnter` | rts/src/eta/runtime/thunk/SelectorDUpd.java:14-18 | writes field `index` of the constructor into double register 1 (the only register that changes) and returns null; null constructor or missing field leave the registers unchanged |
| `SelectorFUpdThunk.SelectEnter` | rts/src/eta/runtime/thunk/SelectorFUpd.java:14-18 | writes field `index` of the constructor into float register 1 (the only register that changes) and returns null; null constructor or missing field leave the registers unchanged |
| `Thunks.Thunk.Ap4Upd` | rts/src/eta/runtime/thunk/Ap4Upd.java:13-19 | a new Ap4Upd has an empty slot and stores `p1`..`p4` as given |
| `Thunks.Thunk.SelectorDUpd` | rts/src/eta/runtime/thunk/SelectorDUpd.java:10-12 | index and producer are passed on unchanged; the slot starts empty |
| `Thunks.Thunk.SelectorFUpd` | rts/src/eta/runtime/thunk/SelectorFUpd.java:10-12 | index and producer are passed on unchanged; the slot starts empty |
| `Thunks.Thunk.GetEvaluated` | rts/src/eta/runtime/thunk/Thunk.java:38-42 | the result is non-null exactly when the slot holds a value, and is then that value |
| `Thunks.Thunk.SetIndirection` | rts/src/eta/runtime/thunk/Thunk.java:46-52 | the slot holds `c` afterwards (both store paths are the same store) |
| `Thunks.CanClearField` | rts/src/eta/runtime/thunk/Thunk.java:277-281 | a field is clearable when it is not `indirectee`, not primitive and not static |
| `Thunks.PublicFields` | rts/src/eta/runtime/thunk/Thunk.java:255 | the public fields reflection sees: Ap4Upd's `p1`..`p4`, then Thunk's `indirectee` and static `thunkFieldsCache`; a selector shows only Thunk's two |
| `Thunks.Clearable` | rts/src/eta/runtime/thunk/Thunk.java:256-267 | the field table is no longer than the field lookup |
| `Thunks.ClearableSelects` | rts/src/eta/runtime/thunk/Thunk.java:277-281 | a field is in the table exactly when it is in the lookup and `canClearField` accepts it |
| `Thunks.ClearableFields` | rts/src/eta/runtime/thunk/Thunk.java:254-267 | the count pass sizes the array exactly and the fill pass yields the clearable fields in lookup order |
| `Thunks.ClearableAp4` | rts/src/eta/runtime/thunk/Thunk.java:255-267 | the field table of an Ap4Upd is exactly `p1`..`p4`, in order: `indirectee` and the static cache are left out |
| `Thunks.NulledAp4` | rts/src/eta/runtime/thunk/Thunk.java:270-274 | setting `p1`..`p4` to null in turn leaves an Ap4Upd with all four references null |
| `Thunks.ClearMatchesFieldTable` | rts/src/eta/runtime/thunk/Thunk.java:250-281 | nulling the table's fields of an Ap4Upd nulls `p1`..`p4`; a selector has no public field but `indirectee`, so nothing of it changes |
| `Thunks.Thunk.Clear` | rts/src/eta/runtime/thunk/Thunk.java:250-275 | building the field table and nulling its fields leaves the fields cleared per class; `indirectee` is not touched |
| `Thunks.Thunk.NullFields` | rts/src/eta/runtime/thunk/Thunk.java:270-274 | setting each field of the table to null in turn, in place, leaves the fields nulled in table order |
| `Thunks.ClearedAp4CannotBeEntered` | rts/src/eta/runtime/thunk/Ap4Upd.java:8-24 | after clearing, entering an Ap4Upd raises a NullPointerException without touching a register, so the result must be installed first |
| `Thunks.Thunk.UpdateWithIndirection` | rts/src/eta/runtime/thunk/Thunk.java:54-57 | the slot holds `ret` and the fields are cleared |
| `Thunks.OwedCalls` | rts/src/eta/runtime/thunk/Thunk.java:75-96 | no call when the slot was empty or held the current thread; a wake-up exactly for a queue the current thread owns; otherwise one checkBlockingQueues |
| `Thunks.Thunk.UpdateThunk` | rts/src/eta/runtime/thunk/Thunk.java:75-96 | whatever the slot held, it ends holding `val`, the fields are cleared, and the capability's log grows by exactly the owed calls |
| `Thunks.UpdateCodeStep` | rts/src/eta/runtime/thunk/Thunk.java:59-73 | a slot holding a value is kept and returned with one checkBlockingQueues; otherwise `ret` is installed and returned, with the owed calls |
| `Thunks.Thunk.UpdateCode` | rts/src/eta/runtime/thunk/Thunk.java:59-73 | the slot ends holding what is returned; an installed value is returned unchanged with only checkBlockingQueues; otherwise `ret` is installed and the fields cleared |
| `Thunks.InstalledValuePermanent` | rts/src/eta/runtime/thunk/Thunk.java:63-66 | once the slot holds a value, every later `updateCode` returns it and leaves it in place (`updateThunk` alone would overwrite it) |
| `Thunks.FirstValueWins` | rts/src/eta/runtime/thunk/Thunk.java:59-73 | when the first `updateCode` installs a value, every thread whose `updateCode` comes later gets that same value |
| `Thunks.Thunk.TryLock` | rts/src/eta/runtime/thunk/Thunk.java:196-198 | succeeds exactly when the slot was empty, and then holds the white hole (so the thunk reads as unevaluated); on failure the slot is unchanged |
| `Thunks.Thunk.Cas` | rts/src/eta/runtime/thunk/Thunk.java:208-214 | compare-and-set: succeeds exactly when the slot held `expected`, and only then stores `update` |
| `Thunks.Thunk.ThunkEnter` | rts/src/eta/runtime/thunk/Thunk.java:33-36 | entering a thunk is its class's `thunkEnter`: outcome and final registers are `EnterOutcome` of the registers before |
| `Thunks.Forward` | rts/src/eta/runtime/thunk/Thunk.java:120-122 | a failed entry propagates unchanged; a null closure raises a NullPointerException in the registers the entry left; any other closure is applied in those registers |
| `Thunks.ApplyUnevaluatedSelectorFails` | rts/src/eta/runtime/thunk/Thunk.java:119-192 | applying an unevaluated selector thunk never returns a closure (its entry returns null or fails), and leaves the registers its entry left |
| `Thunks.Thunk.Apply` | rts/src/eta/runtime/thunk/Thunk.java:117-192 | with a filled slot, the slot's content is applied without entering, outcome and registers as that application gives; with an empty slot, the thunk is entered and what it returned is forwarded, registers threaded through both |
| `Thunks.CafRegistry.SetKeepCAFs` | rts/src/eta/runtime/thunk/Thunk.java:224-226 | `shouldKeepCAFs` answers true afterwards |
| `Thunks.CafRegistry.ResetKeepCAFs` | rts/src/eta/runtime/thunk/Thunk.java:228-230 | `shouldKeepCAFs` answers false afterwards |
| `Thunks.CafRegistry.ShouldKeepCAFs` | rts/src/eta/runtime/thunk/Thunk.java:232-234 | reads the toggle that `setKeepCAFs` and `resetKeepCAFs` write |
| `Thunks.CafRegistry.RevertCAFs` | rts/src/eta/runtime/thunk/Thunk.java:236-241 | every registered CAF has an empty slot, no other field of them changes, and the registry is empty |
| `RtsFlags.ParseInt` | rts/src/eta/runtime/RtsFlags.java:278 | a parse succeeds only on a string with a digit, with a 32-bit result |
| `RtsFlags.GetIntOrZero` | rts/src/eta/runtime/RtsFlags.java:275-283 | the result is a 32-bit int; 0 when the string does not parse, and the parsed value whenever it does |
| `RtsFlags.GetIntOrZeroInvertsToString` | rts/src/eta/runtime/RtsFlags.java:275-283 | every 32-bit int written in decimal reads back as itself |
| `RtsFlags.GetIntOrZeroRejects` | rts/src/eta/runtime/RtsFlags.java:275-283 | a non-digit after the first character makes the result 0 |
| `RtsFlags.Words` | rts/src/eta/runtime/RtsFlags.java:116 | the pieces of a split on `\s+` are non-empty and contain no space character |
| `RtsFlags.Trim` | rts/src/eta/runtime/RtsFlags.java:116 | `String.trim`: the longest stretch of `s` that starts and ends above space; `TrimEnds`, `TrimDropsOnlyTrimmed` and `TrimPadded` state this |
| `RtsFlags.TrimEnds` | rts/src/eta/runtime/RtsFlags.java:116 | a non-empty trimmed string starts and ends with a character above space |
| `RtsFlags.TrimDropsOnlyTrimmed` | rts/src/eta/runtime/RtsFlags.java:116 | every character dropped, from the front or from the back, is one up to space |
| `RtsFlags.TrimEndDropsTrimmed` | rts/src/eta/runtime/RtsFlags.java:116 | every character removed from the back is one up to space |
| `RtsFlags.TrimPadded` | rts/src/eta/runtime/RtsFlags.java:116 | padding a string that starts and ends above space with blanks at either end does not change its trim |
| `RtsFlags.SplitWs` | rts/src/eta/runtime/RtsFlags.java:116 | the split is never empty; it is `[""]` exactly when the trimmed string is empty, and otherwise consists of words |
| `RtsFlags.SplitWsOfJoin` | rts/src/eta/runtime/RtsFlags.java:115-120 | options written with single spaces, with any blanks before and after them, split back into exactly those options, in order (so `"-N2 "` gives `["-N2"]`) |
| `RtsFlags.SplitWsBlank` | rts/src/eta/runtime/RtsFlags.java:116 | a blank string splits into the single empty option |
| `RtsFlags.RtsFlags.AppendRtsArg` | rts/src/eta/runtime/RtsFlags.java:304-306 | the option is appended at the end |
| `RtsFlags.RtsFlags.SplitRtsFlags` | rts/src/eta/runtime/RtsFlags.java:115-120 | the words of the string are appended to the options, in order |
| `RtsFlags.ScanArgsConcat` | rts/src/eta/runtime/RtsFlags.java:85-103 | before a terminator, scanning is compositional: the split of a concatenation is the concatenated splits, carrying the RTS mode across |
| `RtsFlags.ScanArgs` | rts/src/eta/runtime/RtsFlags.java:85-108 | the two scan loops as one function of the arguments and the mode (`+RTS`/`-RTS` switch, `--RTS` dropped, `--` kept); its properties are the `ScanArgs…` lemmas |
| `RtsFlags.ScanArgsPlain` | rts/src/eta/runtime/RtsFlags.java:98-102 | without markers, all arguments go, in order, to the side the mode selects |
| `RtsFlags.ScanArgsRtsTerminator` | rts/src/eta/runtime/RtsFlags.java:87-108 | `--RTS` is dropped and every later argument, markers included, is a program argument |
| `RtsFlags.ScanArgsDoubleDash` | rts/src/eta/runtime/RtsFlags.java:87-108 | `--` ends RTS scanning and is kept as the first trailing program argument |
| `RtsFlags.ScanArgsRtsHasNoMarker` | rts/src/eta/runtime/RtsFlags.java:89-99 | no marker is ever stored as an RTS option |
| `RtsFlags.ScanArgsProgHasNoMarker` | rts/src/eta/runtime/RtsFlags.java:89-103 | before a terminator, no marker is stored as a program argument either |
| `RtsFlags.RtsFlags.ScanUntilTerminator` | rts/src/eta/runtime/RtsFlags.java:85-103 | the first loop stores what the scan assigns before the terminator and stops where the verbatim tail begins |
| `RtsFlags.RtsFlags.AppendProgArgs` | rts/src/eta/runtime/RtsFlags.java:105-108 | every remaining argument is appended to the program arguments, in order |
| `RtsFlags.RtsFlags.ScanCommandLine` | rts/src/eta/runtime/RtsFlags.java:85-108 | the two loops together append exactly the scan's program arguments and RTS options |
| `RtsFlags.DebugLetter` | rts/src/eta/runtime/RtsFlags.java:154-202 | no letter sets `block`; `printStack` is set by exactly 'r' and 'k' (the 'r' case falls through) |
| `RtsFlags.DebugLetters` | rts/src/eta/runtime/RtsFlags.java:151-204 | letters only add flags, never `block`; the only exit is `badOption` on the whole option |
| `RtsFlags.DebugLettersSets` | rts/src/eta/runtime/RtsFlags.java:151-204 | `-D` exits exactly when some letter is unknown; otherwise it sets exactly the flags of its letters |
| `RtsFlags.DebugRFallsThrough` | rts/src/eta/runtime/RtsFlags.java:195-199 | `-Dr` sets both `sparks` and `printStack` |
| `RtsFlags.RtsFlags.ProcDebug` | rts/src/eta/runtime/RtsFlags.java:153-203 | the letter loop sets the letters' flags and stops at the first unknown letter; no other flag changes |
| `RtsFlags.ProcArg` | rts/src/eta/runtime/RtsFlags.java:128-261 | `--info` is the only successful exit; `block` is never changed; an option shorter than two characters changes no flag |
| `RtsFlags.QAlwaysExits` | rts/src/eta/runtime/RtsFlags.java:246-260 | every `-q…` option ends the run: `-q` alone by an uncaught index exception, any longer one by the internal-error exit, after `-qm` cleared `migrate` |
| `RtsFlags.NodesOption` | rts/src/eta/runtime/RtsFlags.java:216-233 | bare `-N` sets one node; a non-positive or unparsable value is flagged and still stored; unless only safe options are enabled, the value is always stored |
| `RtsFlags.AcceptedAnyFlags` | rts/src/eta/runtime/RtsFlags.java:128-261 | whether an option is accepted does not depend on the flags already set |
| `RtsFlags.RtsFlags.ProcOneArg` | rts/src/eta/runtime/RtsFlags.java:128-261 | one pass of the option loop computes `ProcArg` and leaves its flags |
| `RtsFlags.ProcFrom` | rts/src/eta/runtime/RtsFlags.java:127-263 | a flagged error always ends the run (by `errorUsage` if nothing ends it earlier); `block` never changes |
| `RtsFlags.ProcRtsOptsSpec` | rts/src/eta/runtime/RtsFlags.java:122-127 | with no option past `rtsArgc`, nothing changes and processing returns; `block` never changes |
| `RtsFlags.ProcFromReturnsNormally` | rts/src/eta/runtime/RtsFlags.java:122-264 | option processing returns normally exactly when every option is accepted |
| `RtsFlags.RtsFlags.ProcRtsOpts` | rts/src/eta/runtime/RtsFlags.java:122-264 | the loop from `rtsArgc` with its error flag computes exactly the specification's flags and exit |
| `RtsFlags.OptionsPhase` | rts/src/eta/runtime/RtsFlags.java:73-83 | a source's words are appended to the options; the program arguments are untouched; a source that returns moves `rtsArgc` to the end |
| `RtsFlags.RtsFlags.ProcessSource` | rts/src/eta/runtime/RtsFlags.java:73-83 | splitting and processing one source computes `OptionsPhase` |
| `RtsFlags.SetupArguments` | rts/src/eta/runtime/RtsFlags.java:64-113 | a setup that returns leaves the scanned program arguments, and the options of all sources appended in order |
| `RtsFlags.SetupSpec` | rts/src/eta/runtime/RtsFlags.java:64-113 | `block` is never changed by setup; a setup that returns leaves the scanned program arguments |
| `RtsFlags.BlankOptionsCrash` | rts/src/eta/runtime/RtsFlags.java:78-82 | a blank option source ends the run with a StringIndexOutOfBoundsException |
| `RtsFlags.RtsFlags.Setup` | rts/src/eta/runtime/RtsFlags.java:64-113 | the whole of `setup` computes `SetupSpec`, with an early exit when a source's processing ends the run |
| `RtsFlags.RtsFlags.InitDefaults` | rts/src/eta/runtime/RtsFlags.java:43-62 | one node, 4096 sparks, migration on, all debug flags off except `block`, which keeps its value |
| `RtsFlags.RtsFlags.constructor` | rts/src/eta/runtime/RtsFlags.java:15-41 | empty argument lists, debug flags off, `maxLocalSparks` 4096 |
| `Utils.Lock` | libraries/base/java-utils/Utils.java:298-308 | an untracked key gets -1 (writer) or 1 (reader); a write on a tracked key, or a read on a writer's key, fails and changes nothing; a read on a readers' key increments the count |
| `Utils.Unlock` | libraries/base/java-utils/Utils.java:310-325 | fails exactly on an untracked key; no other key's entry changes |
| `Utils.LockPreservesWellFormed` | libraries/base/java-utils/Utils.java:298-308 | every stored count stays -1 or at least 1 |
| `Utils.UnlockPreservesWellFormed` | libraries/base/java-utils/Utils.java:310-325 | the count moves one step toward 0 and the key is forgotten on reaching it, so every count stays -1 or at least 1 |
| `Utils.LockThenUnlockRestores` | libraries/base/java-utils/Utils.java:298-325 | a successful lock followed by an unlock restores the original table |
| `Utils.WriterExcludes` | libraries/base/java-utils/Utils.java:304 | after a write lock, no lock on that key is granted |
| `Utils.ReadersShare` | libraries/base/java-utils/Utils.java:299-305 | a read lock is granted whenever no writer holds the key |
| `Utils.FileLockTable.LockFile` | libraries/base/java-utils/Utils.java:298-308 | the synchronized method computes `Lock` on the static map and keeps it well formed |
| `Utils.FileLockTable.UnlockFile` | libraries/base/java-utils/Utils.java:310-325 | the synchronized method computes `Unlock` on the static map and keeps it well formed |
| `Utils.ErrnoOf` | libraries/base/java-utils/Utils.java:196-206 | a thread with no value reads 0, otherwise its value |
| `Utils.ErrnoIsPerThread` | libraries/base/java-utils/Utils.java:196-210 | a thread reads its last set value and never another thread's |
| `Utils.Errno.InitErrno` | libraries/base/java-utils/Utils.java:198-201 | stores 0 only for a thread without a value; no thread's reading changes |
| `Utils.Errno.GetErrno` | libraries/base/java-utils/Utils.java:203-206 | returns 0 if nothing was set for the thread, otherwise the last value set |
| `Utils.Errno.SetErrno` | libraries/base/java-utils/Utils.java:208-210 | the thread's value is replaced |
| `Utils.CmpThread` | libraries/base/java-utils/Utils.java:374-380 | 0, 1 or -1 exactly as the first id equals, exceeds or is below the second |
| `Utils.CmpThreadOrder` | libraries/base/java-utils/Utils.java:374-380 | the comparison is antisymmetric and transitive, and 0 only for the same thread |

## Left out

- Concurrency and memory ordering. `volatile`, the field updater and
  `Unsafe` become sequential reads, writes and compare-and-set. The name
  `useUnsafe` is inverted: it is true when `Unsafe` is missing. Both paths
  of `setIndirection` and `cas` perform the same operation, so one is
  modelled.
- `blackHole` (Thunk.java:98-115): its retry loop exchanges messages with
  the scheduler (`messageBlackHole`, `blockedLoop`), which is not part of
  this model.
- The `thunkFieldsCache` of `clear`. The field table is rebuilt on every
  call, and the reflective `getFields` is the per-class `PublicFields`
  list. It holds the public fields of the thunk classes and of Thunk.
  Closure.java and UpdatableThunk.java are not part of this model, so any
  public fields they declare are not listed. The order `getFields` returns
  is unspecified in Java; the model fixes one. `IllegalAccessException`
  cannot arise for public fields.
- UpdatableThunk.java, CAF.java, Closure.java, DataCon.java, TSO.java,
  BlockingQueue.java, Capability.java and StgContext.java are not part of
  this model. So:
  - the thunks' `enter` is `Thunk.enter`;
  - a CAF is a `Thunk`, and `CafRegistry.AddRevertible` stands for CAF
    registration;
  - a data constructor's typed field accessors are maps by index;
  - the capability is a log of calls;
  - TSOs, blocking queues, black holes and the white hole are assumed not
    to be values;
  - reference identity is equality of the closure descriptions.
- `Thunks.Thunk.Apply`: one method covers the fifteen `apply*` overrides.
  Arguments are an `Arg` list of one of those shapes. What the target does
  with them is the opaque `World.apply`.
- `SelectorUpdThunk.ThunkEnter`: that the producer is evaluated once is not
  observable here, because evaluation is the opaque `World.evaluate`. What
  outside code does to the context is only its effect on the registers.
  Its effect on the capability, the current thread and the heap is not
  modelled.
- `StgValue.Enter`: `barf` is modelled as an outcome that does not return.
  The source's `return null` after it is unreachable in that reading.
- `RtsFlags.ParseInt`: only ASCII digits are accepted. `Integer.parseInt`
  also accepts other Unicode decimal digits.
- `RtsFlags.RtsFlags.ProcOneArg`: `-C<seconds>` parses a float.
  `(long)(1000 * Float.parseFloat(s))` is the host function
  `ctxtSwitchMillis`, which returns None when the float does not parse.
- `RtsFlags.RtsFlags.ProcRtsOpts`: `checkUnsafe` is called by `-C` and `-e`
  but defined nowhere in the file. It is treated as doing nothing.
- The messages printed by `errorBelch`, `printRtsInfo` and `errorUsage`
  are left out. So are `setProgName`, `normaliseRtsOpts` (both empty),
  `setFullProgArgs`, and the static `maxWorkerCapabilities` and
  `minTSOIdleTime`. An exit is modelled as the end of the run, since
  `stgExit` is not part of this model.
- `Utils.CmpThread`: a `Tso` is never null in the model. Java's
  `cmp_thread` throws a NullPointerException on a null `TSO`.
- `Utils.Lock`: counts are unbounded integers. Java's `Integer` would wrap
  after 2^31 - 1 concurrent readers.
- The rest of Utils.java (I/O channels, memory buffers, MD5, the clock,
  random numbers, float helpers, `isPrintableChar`) is foreign or
  floating-point code.
