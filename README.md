# ktor pipeline core in Dafny

This project models three small sequential pieces of `ktor-core` and proves properties about them.

- **The stage runner of `Async.kt`** (`async.dfy`, module `Async`). The engine moves control with thrown `PipelineControl` signals: `Continue`, `Paused`, `Completed`, `Finished` and `FinishedAll`.
  - `runBlock` runs a stage body. It re-throws a control signal unchanged. It passes any other exception to `fail`. After a normal return it calls `proceed`. A `Continue` reaching its outer `try` hands control to `continuePipeline`.
  - `continuePipeline` calls `proceed` in a loop. It swallows `Continue`, and any other throwable leaves the loop.
  - `runBlockWithResult` turns `Completed` into the state `Finished` and `Paused` into `Executing`.
  - Here every throwable is a value (`Throwable = Control(signal) | Fault(id)`). The stage body, `fail` and `proceed` are not modelled. What they throw is given as an `Env`: the body's outcome, what `fail` throws, and what successive `proceed` calls throw.
  - `RunBlock` records the calls it makes as a trace. A small-step machine (`Step`, `Steps`) states the same dispatch rules one call at a time, and `RunBlock` is proved to agree with it.
  - The `PipelineContext` and `PipelineMachine` overloads are textually identical, so each is modelled once.
- **The execution context of `PipelineExecution.kt`** (`execution.dfy`, module `Execution`). This is a class with one mutable `PipelineBlock` object per stage function, plus `blockIndex`, `state` and `exception`.
  - `OnSuccess` and `OnFail` append a hook to one list of the block at `blockIndex - 1`, in place.
  - Their contracts give the new value of every block as a function of the old one (`Register`).
  - A lemma proves that any interleaving of registrations keeps each list in registration order.
- **Key hashing and key equality of `CaseInsensitiveMap.kt`** (`case_insensitive_map.dfy`, module `CaseInsensitiveMap`).
  - `Char` is modelled as a UTF-16 code unit and `Int` as a 32-bit value, with wrap-around written out (`ToInt32`).
  - The map's own case fold is modelled as written. `Character.toUpperCase` and `Character.toLowerCase` are a parameter (`CaseTables`).
  - `AsciiCaseTables` states the fast path's premise: up to `'~'` the JDK's mapping is plain ASCII case mapping.
  - `hash` is a method with a loop, proved equal to `java.lang.String.hashCode` of the folded key. That hash is proved equal to the documented polynomial.
  - On the fast path, the hash is proved consistent with `isEqualKey`. Beyond it, the two disagree (see Findings).

`pipeline.dfy` (module `Pipeline`) holds the shared types: signals, throwables, `PipelineState` and `Option`.

Two behaviours of the code that a reader might not expect:

- `runBlockWithResult` catches only the `Completed` and `Paused` signals. `Finished`, `FinishedAll` and ordinary exceptions leave it as throwables. `RunBlockWithResult` returns them as `Throws`.
- `PipelineExecution` does not bound the block index. `blockIndex` is a plain `Int` that the machine sets. Calling `onSuccess`/`onFail` outside `1..blocks.size` throws `IndexOutOfBoundsException`. The model gives `ok == false` and changes nothing.

## Model

| member | source | states |
|---|---|---|
| `Async.Drive` | ktor-core/src/org/jetbrains/ktor/pipeline/Async.kt:98-106 | the driving loop stops at the first `proceed` outcome that is not Continue and throws it on; every earlier outcome was Continue; if every outcome is Continue, all are consumed and the loop is still running |
| `Async.ContinuePipeline` | ktor-core/src/org/jetbrains/ktor/pipeline/Async.kt:98-116 | the `while (true)` loop over `proceed`, proved to make exactly the calls and end with exactly the throwable that `Drive` gives |
| `Async.DriveStopsAtFirstNonContinue` | ktor-core/src/org/jetbrains/ktor/pipeline/Async.kt:99-105 | if outcomes 0..k-1 are Continue and outcome k is not, the loop makes k+1 `proceed` calls and throws outcome k |
| `Async.Attempt` | ktor-core/src/org/jetbrains/ktor/pipeline/Async.kt:47-56 | the inner `try` and the first `proceed` always run the body first; `fail` is called exactly when the body threw an ordinary exception, and with that exception; at most one `proceed` is made, it uses the first outcome, and its outcome is what escapes; only a normal return with no outcomes left ends the script |
| `Async.RunBlock` | ktor-core/src/org/jetbrains/ktor/pipeline/Async.kt:46-76 | runBlock always starts by running the body, and a Continue never escapes it |
| `Async.ControlFromBodyIsRethrown` | ktor-core/src/org/jetbrains/ktor/pipeline/Async.kt:50-51 | a control signal other than Continue from the body is re-thrown unchanged, after no other call, and `fail` is never called |
| `Async.FaultIsPassedToFailOnce` | ktor-core/src/org/jetbrains/ktor/pipeline/Async.kt:52-53 | a non-control exception from the body is passed to `fail` exactly once, as that same exception, right after the body; what `fail` throws escapes, unless it is Continue, in which case the driving loop takes over |
| `Async.NormalReturnProceedsOnce` | ktor-core/src/org/jetbrains/ktor/pipeline/Async.kt:56 | after a normal return, `proceed` is called once before any loop and `fail` never; a non-Continue outcome of that call escapes unchanged |
| `Async.ContinueHandsOverToDriver` | ktor-core/src/org/jetbrains/ktor/pipeline/Async.kt:57-58 | a Continue from the body, from `fail` or from the first `proceed` hands control to continuePipeline over the remaining outcomes, and runBlock ends as that loop does |
| `Async.RunBlockWithResult` | ktor-core/src/org/jetbrains/ktor/pipeline/Async.kt:78-96 | the result is Finished exactly when runBlock ends with Completed, and Executing exactly when it ends with Paused; any other throwable escapes unchanged and is never Continue |
| `Async.NormalRunEndsAtFirstStop` | ktor-core/src/org/jetbrains/ktor/pipeline/Async.kt:46-96 | a body that returns normally, followed by k Continues and then a terminal signal, makes k+1 `proceed` calls; Completed then yields Finished and Paused yields Executing |
| `Async.RunBlockAgreesWithMachine` | ktor-core/src/org/jetbrains/ktor/pipeline/Async.kt:46-60 | runBlock's calls and outcome are those of a one-call-at-a-time machine, reached within the number of outcomes plus three steps: Continue leads to `proceed`, and anything else leaves |
| `Execution.PipelineBlock.constructor` | ktor-core/src/org/jetbrains/ktor/pipeline/PipelineExecution.kt:23 | a new block holds its stage function and two empty hook lists |
| `Execution.NewBlocks` | ktor-core/src/org/jetbrains/ktor/pipeline/PipelineExecution.kt:23 | `functions.map { PipelineBlock(it) }` makes one new, distinct block per function, in the same order |
| `Execution.InitialView` | ktor-core/src/org/jetbrains/ktor/pipeline/PipelineExecution.kt:23 | the blocks of a fresh execution: as many as there are functions, block i holding function i and no hooks |
| `Execution.PipelineExecution.constructor` | ktor-core/src/org/jetbrains/ktor/pipeline/PipelineExecution.kt:3-27 | a fresh execution has one block per function in order, blockIndex 0, state Executing and no exception |
| `Execution.Register` | ktor-core/src/org/jetbrains/ktor/pipeline/PipelineExecution.kt:8-14 | one registration appends the hook to the end of the matching list of one block; it leaves the other list, that block's function and every other block unchanged |
| `Execution.RegisterAllKeepsOrder` | ktor-core/src/org/jetbrains/ktor/pipeline/PipelineExecution.kt:9-13 | after any interleaving of onSuccess and onFail on a block, each list is its old contents followed by the hooks registered to it, in registration order |
| `Execution.RegisterAllLeavesOthers` | ktor-core/src/org/jetbrains/ktor/pipeline/PipelineExecution.kt:9-13 | registrations on one block, however many, leave every other block exactly as it was |
| `Execution.PipelineExecution.OnSuccess` | ktor-core/src/org/jetbrains/ktor/pipeline/PipelineExecution.kt:8-10 | appends the body to the success hooks of block `blockIndex - 1` exactly when 1 <= blockIndex <= blocks.size; nothing else changes, and outside that range nothing changes at all |
| `Execution.PipelineExecution.OnFail` | ktor-core/src/org/jetbrains/ktor/pipeline/PipelineExecution.kt:12-14 | the same for the failure hooks |
| `CaseInsensitiveMap.ToLowerCase` | ktor-core/src/org/jetbrains/ktor/util/CaseInsensitiveMap.kt:28-35 | up to '~' the fold changes exactly the capitals A-Z, each to the small letter 32 above; it never yields a capital there; above '~' it is the JDK's toLowerCase |
| `CaseInsensitiveMap.ToLowerCaseIdempotent` | ktor-core/src/org/jetbrains/ktor/util/CaseInsensitiveMap.kt:29-33 | on the fast path, folding twice equals folding once |
| `CaseInsensitiveMap.ToInt32` | ktor-core/src/org/jetbrains/ktor/util/CaseInsensitiveMap.kt:14 | Int arithmetic: the result is a 32-bit value congruent to the exact value modulo 2^32 |
| `CaseInsensitiveMap.Hash` | ktor-core/src/org/jetbrains/ktor/util/CaseInsensitiveMap.kt:6-18 | hash(null) = 0; a non-String key gives its own hashCode; a String key gives the String hash (left fold `31*h + c` in Int) of its folded code units, so the empty string hashes to 0 |
| `CaseInsensitiveMap.StringHashCodeIsPowerSum` | ktor-core/src/org/jetbrains/ktor/util/CaseInsensitiveMap.kt:11-17 | the String hash equals s[0]*31^(n-1) + ... + s[n-1], reduced to Int |
| `CaseInsensitiveMap.CharsEqualIgnoreCase` | ktor-core/src/org/jetbrains/ktor/util/CaseInsensitiveMap.kt:22 | the three per-code-unit tests of `equalsIgnoreCase` (equal, equal upper case, equal lower-of-upper case) hold together exactly when the lower-of-upper cases agree |
| `CaseInsensitiveMap.IsEqualKey` | ktor-core/src/org/jetbrains/ktor/util/CaseInsensitiveMap.kt:20-22 | two String keys are equal keys exactly when they have the same length and agree at every position after upper- then lower-casing |
| `CaseInsensitiveMap.IsEqualKeyReflexive` | ktor-core/src/org/jetbrains/ktor/util/CaseInsensitiveMap.kt:20-22 | every String key is an equal key to itself |
| `CaseInsensitiveMap.IsEqualKeySymmetric` | ktor-core/src/org/jetbrains/ktor/util/CaseInsensitiveMap.kt:20-22 | isEqualKey on Strings is symmetric |
| `CaseInsensitiveMap.IsEqualKeyOnFastPath` | ktor-core/src/org/jetbrains/ktor/util/CaseInsensitiveMap.kt:20-33 | for keys on the fast path, isEqualKey holds exactly when the folded keys are equal, and exactly when the keys differ only in letter case |
| `CaseInsensitiveMap.DifferOnlyInCaseHashEqually` | ktor-core/src/org/jetbrains/ktor/util/CaseInsensitiveMap.kt:11-15 | two keys that differ only in the case of ASCII letters have equal hashes, whatever else they contain |
| `CaseInsensitiveMap.HashConsistentOnFastPath` | ktor-core/src/org/jetbrains/ktor/util/CaseInsensitiveMap.kt:6-26 | on the fast path, keys that isEqualKey calls equal have equal hashes |
| `CaseInsensitiveMap.DotlessIHashesApart` | ktor-core/src/org/jetbrains/ktor/util/CaseInsensitiveMap.kt:6-35 | "i" and "ı" (U+0131) are equal keys, yet their hashes differ |
| `CaseInsensitiveMap.ConsistentKeyHash` | ktor-core/src/org/jetbrains/ktor/util/CaseInsensitiveMap.kt:11-15 | the corrected key hash agrees with the written one on every key on the fast path |
| `CaseInsensitiveMap.ConsistentHashRespectsIsEqualKey` | ktor-core/src/org/jetbrains/ktor/util/CaseInsensitiveMap.kt:6-26 | with the corrected fold, any two keys that isEqualKey calls equal have equal hashes, whatever their code units |
| `CaseInsensitiveMap.BackingCapacity` | ktor-core/src/org/jetbrains/ktor/util/CaseInsensitiveMap.kt:5 | the backing map's capacity is `max(2, initialCapacity)`: at least 2 and at least the request, and one of the two |

## Left out

- `runAsync` and both `executeOn` overloads (`Async.kt:6-44`): they hand work to an `Executor` and complete a `CompletableFuture` across threads. That is concurrency and a foreign library.
- `Async.ContinuePipeline`: the `proceed` outcomes are a finite sequence. If all of them are Continue, the model ends with `OutOfOutcomes` where the source would go on calling `proceed`.
- `Async.RunBlock` and `Async.RunBlockWithResult` can likewise end as `OutOfOutcomes` / `StillDriving`.
- The stage body, `proceed` and `fail` are not modelled. Only what they throw is given, as an `Env`.
  - `proceed` and `fail` never return normally in the source, so the model never lets them return.
  - `Drive` uses the outcomes of continuePipeline's own `proceed` calls.
- The definition of `PipelineControl` is not part of this model. The set of signals is taken as `Continue`, `Paused`, `Completed`, `Finished` and `FinishedAll`. Only the first three are treated specially by the code shown.
- `Execution.PipelineBlock`: the `PipelineBlock` class is not part of this model; `PipelineExecution.kt` shows only its construction (`PipelineBlock(it)`, line 23) and its use (lines 9 and 13). The model assumes that a block stores its stage function, that its hook lists are the fields `successes` and `failures` appended to by `onSuccess`/`onFail`, and that both lists start empty. The "empty hook lists" in the contracts of `PipelineBlock.constructor`, `InitialView` and the `PipelineExecution` constructor rest on these assumptions.
- The machine's internals (`proceed`, `fail`, `finish`, `finishAll`, `execute`), hook unwinding order and fork semantics are not part of this model. No code shown implements them.
- The forwarding members of `PipelineExecution` (`fork`, `pause`, `proceed`, `fail`, `finish`, `finishAll`, `PipelineExecution.kt:16-21`) only call into the machine, which is not part of this model. The `machine` field is left out for the same reason.
- Hooks, stage functions and the subject are Kotlin values, known here only by identity (`Body`, `Subject`).
- The machine writes `blockIndex`, `state` and `exception` after construction. Those writes belong to the machine and are not modelled. Only their initial values are.
- `AbstractLinkedMap` storage (`CaseInsensitiveMap.kt:5`) is not part of this model. It comes from a vendored Apache Commons Collections.
- `key.hashCode()` for a non-String key (`CaseInsensitiveMap.kt:8`) is a foreign call. Its value is carried by the key (`Key.Other`).
- `super.isEqualKey` for non-String keys (`CaseInsensitiveMap.kt:25`) is not modelled. `IsEqualKey` covers only the String case.
- `Character.toLowerCase` and `Character.toUpperCase` are JDK tables and are not modelled. They are the parameter `CaseTables`.
  - Results about the fast path assume `AsciiCaseTables`: up to `'~'` these tables do plain ASCII case mapping.
  - The finding below assumes two facts of the Unicode data the JDK follows: U+0131 upper-cases to `'I'` and lower-cases to itself.
- `key1.equals(key2, ignoreCase = true)` is a Kotlin library call. It is modelled as `java.lang.String.equalsIgnoreCase`, which it calls on the JVM. Two keys are equal when they have the same length and, at each position, the code units are equal, or equal after upper-casing, or equal after upper- then lower-casing.
- `ktor-jmh/src/org/jetbrains/ktor/tests/full/FullBenchmark.kt` is a benchmark harness (HTTP test host, file and classpath I/O, a profiling loop). It is not part of this model.

## Findings

| source | as written | input that shows it | evidently intended | confidence | as-written member | corrected member |
|---|---|---|---|---|---|---|
| ktor-core/src/org/jetbrains/ktor/util/CaseInsensitiveMap.kt:14 | `hash` folds a code unit above `'~'` with `Character.toLowerCase` alone. `isEqualKey` (`equalsIgnoreCase`) also treats as equal two code units with the same upper case. | keys `"i"` and `"ı"` (U+0131): both upper-case to `'I'`, so they are equal keys, but their hashes are 0x69 and 0x131. A value stored under one is not found under the other. | equal keys hash equally, e.g. by folding above `'~'` with `toLowerCase(toUpperCase(c))` | not executed; follows from the JDK's documented case mapping of U+0131 | `CaseInsensitiveMap.DotlessIHashesApart` | `CaseInsensitiveMap.ConsistentHashRespectsIsEqualKey` |
