/** The signal-driven stage runner of Async.kt: runBlock, runBlockWithResult and
    continuePipeline. The PipelineContext and PipelineMachine overloads of each are
    textually identical and are modelled once.

    In the source, `proceed` and `fail` never return normally: each ends by throwing
    a control signal or an exception. The stage body, `fail` and `proceed` are not
    part of this model; what they throw is given as an `Env`. */
module Async {
  import opened Pipeline

  /** How the stage body handed control back: it returned, or it threw. */
  datatype Outcome = Returned | Threw(thrown: Throwable)

  /** A call made by runBlock, recorded in call order. */
  datatype Call = Block | Fail(exception: Throwable) | Proceed

  /** The uninterpreted collaborators of one runBlock: what the stage body does,
      what `fail` throws when it is called, and what the successive `proceed`
      calls throw, in call order. */
  datatype Env = Env(body: Outcome, failThrows: Throwable, proceeds: seq<Throwable>)

  /** How a runner is left: by a throwable, or still calling `proceed` when the
      given proceed outcomes ran out (the source would go on calling it). */
  datatype Escape = Raised(thrown: Throwable) | OutOfOutcomes

  /** What continuePipeline did: how many times it called `proceed`, and how it was left. */
  datatype Driven = Driven(calls: nat, escape: Escape)

  /** What runBlock did: the calls it made, in order, and how it was left. */
  datatype Run = Run(trace: seq<Call>, escape: Escape)

  /** What the outer `try` of runBlock saw, with the proceed outcomes not yet used. */
  datatype Attempted = Attempted(trace: seq<Call>, escape: Escape, rest: seq<Throwable>)

  /** What runBlockWithResult does: return a state, throw, or (when the outcomes
      ran out) still be driving the pipeline. */
  datatype Completion = Returns(state: PipelineState) | Throws(thrown: Throwable) | StillDriving

  /** Every outcome in `ps` is the Continue signal. */
  predicate AllContinue(ps: seq<Throwable>)
  {
    forall j :: 0 <= j < |ps| ==> ps[j] == Control(Continue)
  }

  /** `n` calls of `proceed`. */
  function Proceeds(n: nat): (r: seq<Call>)
    ensures |r| == n
  {
    seq(n, _ => Proceed)
  }

  /** The driving loop of continuePipeline, on the outcomes of its `proceed` calls:
      it stops at the first outcome that is not Continue and throws it on. */
  function Drive(ps: seq<Throwable>): (d: Driven)
    ensures d.calls <= |ps|
    ensures d.escape.Raised? ==>
              0 < d.calls && ps[d.calls - 1] == d.escape.thrown &&
              d.escape.thrown != Control(Continue) && AllContinue(ps[..d.calls - 1])
    ensures d.escape.OutOfOutcomes? ==> d.calls == |ps| && AllContinue(ps)
  {
    if ps == [] then Driven(0, OutOfOutcomes)
    else if ps[0] != Control(Continue) then Driven(1, Raised(ps[0]))
    else
      var d := Drive(ps[1..]);
      assert d.escape.Raised? ==> ps[..d.calls + 1 - 1] == [ps[0]] + ps[1..][..d.calls - 1];
      assert d.escape.OutOfOutcomes? ==> ps == [ps[0]] + ps[1..];
      Driven(d.calls + 1, d.escape)
  }

  /** continuePipeline: call `proceed` over and over, swallowing Continue; the first
      other throwable leaves the loop (the function never returns normally). */
  method ContinuePipeline(ps: seq<Throwable>) returns (d: Driven)
    ensures d == Drive(ps)
  {
    var i := 0;
    while i < |ps|
      invariant 0 <= i <= |ps|
      invariant Drive(ps) == Driven(Drive(ps[i..]).calls + i, Drive(ps[i..]).escape)
    {
      var thrown := ps[i];
      assert ps[i..][1..] == ps[i + 1..];
      i := i + 1;
      if thrown != Control(Continue) {
        return Driven(i, Raised(thrown));
      }
    }
    return Driven(i, OutOfOutcomes);
  }

  /** The outcome of the driving loop is the first non-Continue outcome of `proceed`. */
  lemma DriveStopsAtFirstNonContinue(ps: seq<Throwable>, k: nat)
    requires k < |ps| && AllContinue(ps[..k]) && ps[k] != Control(Continue)
    ensures Drive(ps) == Driven(k + 1, Raised(ps[k]))
  {
  }

  /** The inner `try` of runBlock followed by its first `proceed`: a control signal
      from the body is rethrown as is, any other exception is passed to `fail`
      (which throws in turn), and a normal return leads to `proceed`. */
  function Attempt(env: Env): (a: Attempted)
    ensures |a.trace| > 0 && a.trace[0] == Block
    ensures |a.rest| <= |env.proceeds| && a.rest == env.proceeds[|env.proceeds| - |a.rest|..]
    ensures (Proceed in a.trace <==> |a.rest| < |env.proceeds|) && |env.proceeds| - |a.rest| <= 1
    ensures Proceed in a.trace ==> a.escape == Raised(env.proceeds[0])
    ensures FailArgs(a.trace) == if env.body.Threw? && env.body.thrown.Fault? then [env.body.thrown] else []
    ensures a.escape == OutOfOutcomes <==> env.body == Returned && env.proceeds == []
  {
    match env.body
    case Threw(Control(signal)) => Attempted([Block], Raised(Control(signal)), env.proceeds)
    case Threw(Fault(id)) => Attempted([Block, Fail(Fault(id))], Raised(env.failThrows), env.proceeds)
    case Returned =>
      if env.proceeds == [] then Attempted([Block], OutOfOutcomes, [])
      else Attempted([Block, Proceed], Raised(env.proceeds[0]), env.proceeds[1..])
  }

  /** runBlock: run the stage body; a Continue reaching the outer `try` hands
      control to continuePipeline. It never returns normally. */
  function RunBlock(env: Env): (r: Run)
    ensures |r.trace| > 0 && r.trace[0] == Block
    ensures r.escape != Raised(Control(Continue))
  {
    var a := Attempt(env);
    if a.escape == Raised(Control(Continue)) then
      var d := Drive(a.rest);
      Run(a.trace + Proceeds(d.calls), d.escape)
    else
      Run(a.trace, a.escape)
  }

  /** runBlockWithResult: Completed becomes Finished, Paused becomes Executing, and
      every other throwable leaves unchanged. */
  function RunBlockWithResult(env: Env): (r: Completion)
    ensures r == Returns(PipelineState.Finished) <==> RunBlock(env).escape == Raised(Control(Completed))
    ensures r == Returns(Executing) <==> RunBlock(env).escape == Raised(Control(Paused))
    ensures r.Throws? <==>
              RunBlock(env).escape.Raised? &&
              RunBlock(env).escape.thrown !in {Control(Completed), Control(Paused)}
    ensures r.Throws? ==> r.thrown == RunBlock(env).escape.thrown && r.thrown != Control(Continue)
    ensures r == StillDriving <==> RunBlock(env).escape == OutOfOutcomes
  {
    match RunBlock(env).escape
    case Raised(Control(Completed)) => Returns(PipelineState.Finished)
    case Raised(Control(Paused)) => Returns(Executing)
    case Raised(thrown) => Throws(thrown)
    case OutOfOutcomes => StillDriving
  }

  /** The exceptions passed to `fail` in a trace, in call order. */
  function FailArgs(trace: seq<Call>): seq<Throwable>
  {
    if trace == [] then []
    else (if trace[0].Fail? then [trace[0].exception] else []) + FailArgs(trace[1..])
  }

  lemma {:induction false} FailArgsAppend(s: seq<Call>, u: seq<Call>)
    ensures FailArgs(s + u) == FailArgs(s) + FailArgs(u)
  {
    if s != [] {
      assert (s + u)[1..] == s[1..] + u;
      FailArgsAppend(s[1..], u);
    } else {
      assert s + u == u;
    }
  }

  lemma {:induction false} NoFailInProceeds(n: nat)
    ensures FailArgs(Proceeds(n)) == []
  {
    if n > 0 {
      assert Proceeds(n)[1..] == Proceeds(n - 1);
      NoFailInProceeds(n - 1);
    }
  }

  /** A control signal other than Continue thrown by the stage body is rethrown
      unchanged, and `fail` is never called. */
  lemma ControlFromBodyIsRethrown(env: Env, s: Signal)
    requires env.body == Threw(Control(s)) && s != Continue
    ensures RunBlock(env) == Run([Block], Raised(Control(s)))
    ensures FailArgs(RunBlock(env).trace) == []
  {
  }

  /** An ordinary exception from the stage body is passed to `fail` exactly once,
      and it is that same exception; what `fail` throws is then handled like any
      throwable reaching the outer `try`. */
  lemma FaultIsPassedToFailOnce(env: Env, id: nat)
    requires env.body == Threw(Fault(id))
    ensures FailArgs(RunBlock(env).trace) == [Fault(id)]
    ensures RunBlock(env).trace[..2] == [Block, Fail(Fault(id))]
    ensures env.failThrows != Control(Continue) ==>
              RunBlock(env) == Run([Block, Fail(Fault(id))], Raised(env.failThrows))
    ensures env.failThrows == Control(Continue) ==>
              RunBlock(env).escape == Drive(env.proceeds).escape
  {
    var r := RunBlock(env);
    var pre := [Block, Fail(Fault(id))];
    assert FailArgs(pre) == [Fault(id)] by {
      assert pre[1..] == [Fail(Fault(id))];
      assert pre[1..][1..] == [];
      assert FailArgs(pre[1..]) == [Fault(id)] + FailArgs([]);
    }
    if env.failThrows == Control(Continue) {
      FailArgsAppend(pre, Proceeds(Drive(env.proceeds).calls));
      NoFailInProceeds(Drive(env.proceeds).calls);
    }
  }

  /** When the stage body returns normally, `proceed` is called exactly once before
      any driving loop, and `fail` is never called. */
  lemma NormalReturnProceedsOnce(env: Env)
    requires env.body == Returned && env.proceeds != []
    ensures RunBlock(env).trace[..2] == [Block, Proceed]
    ensures FailArgs(RunBlock(env).trace) == []
    ensures env.proceeds[0] != Control(Continue) ==>
              RunBlock(env) == Run([Block, Proceed], Raised(env.proceeds[0]))
  {
    var pre := [Block, Proceed];
    assert FailArgs(pre) == [] by {
      assert pre[1..][1..] == [];
    }
    if env.proceeds[0] == Control(Continue) {
      var n := Drive(env.proceeds[1..]).calls;
      FailArgsAppend(pre, Proceeds(n));
      NoFailInProceeds(n);
    }
  }

  /** A Continue thrown by the body, by `fail`, or by the first `proceed` hands
      control to continuePipeline over the proceed outcomes not yet used. */
  lemma ContinueHandsOverToDriver(env: Env)
    ensures env.body == Threw(Control(Continue)) ==>
              RunBlock(env) ==
              Run([Block] + Proceeds(Drive(env.proceeds).calls), Drive(env.proceeds).escape)
    ensures env.body.Threw? && env.body.thrown.Fault? && env.failThrows == Control(Continue) ==>
              RunBlock(env) ==
              Run([Block, Fail(env.body.thrown)] + Proceeds(Drive(env.proceeds).calls),
                  Drive(env.proceeds).escape)
    ensures env.body == Returned && env.proceeds != [] && env.proceeds[0] == Control(Continue) ==>
              RunBlock(env) ==
              Run([Block, Proceed] + Proceeds(Drive(env.proceeds[1..]).calls),
                  Drive(env.proceeds[1..]).escape)
  {
  }

  /** A stage body that returns normally, followed by `k` Continues and then a
      terminal throwable `t`, makes k + 1 calls of `proceed` and ends with `t`;
      runBlockWithResult then gives Finished for Completed and Executing for Paused. */
  lemma NormalRunEndsAtFirstStop(env: Env, k: nat)
    requires env.body == Returned
    requires k < |env.proceeds| && AllContinue(env.proceeds[..k])
    requires env.proceeds[k] != Control(Continue)
    ensures RunBlock(env) == Run([Block] + Proceeds(k + 1), Raised(env.proceeds[k]))
    ensures env.proceeds[k] == Control(Completed) ==> RunBlockWithResult(env) == Returns(PipelineState.Finished)
    ensures env.proceeds[k] == Control(Paused) ==> RunBlockWithResult(env) == Returns(Executing)
  {
  }

  // ---------------------------------------------------------------------------
  // A small-step machine that states the dispatch rules of runBlock one call at a
  // time, and the proof that RunBlock agrees with it.

  /** Where runBlock is: about to run the body, about to call `fail`, about to
      call `proceed`, or left. */
  datatype Phase = InBody | InFail(exception: Throwable) | InProceed | Done(escape: Escape)

  datatype Config = Config(phase: Phase, trace: seq<Call>, rest: seq<Throwable>)

  /** The dispatch rule of the outer `try`: Continue leads to (another) `proceed`,
      any other throwable leaves runBlock. */
  function Dispatch(t: Throwable): Phase
  {
    if t == Control(Continue) then InProceed else Done(Raised(t))
  }

  function Step(env: Env, c: Config): Config
  {
    match c.phase
    case InBody =>
      (match env.body
       case Returned => Config(InProceed, c.trace + [Block], c.rest)
       case Threw(Fault(id)) => Config(InFail(Fault(id)), c.trace + [Block], c.rest)
       case Threw(Control(s)) => Config(Dispatch(Control(s)), c.trace + [Block], c.rest))
    case InFail(t) => Config(Dispatch(env.failThrows), c.trace + [Fail(t)], c.rest)
    case InProceed =>
      if c.rest == [] then Config(Done(OutOfOutcomes), c.trace, [])
      else Config(Dispatch(c.rest[0]), c.trace + [Proceed], c.rest[1..])
    case Done(_) => c
  }

  function Steps(env: Env, c: Config, fuel: nat): Config
    decreases fuel
  {
    if fuel == 0 then c else Steps(env, Step(env, c), fuel - 1)
  }

  lemma {:induction false} DoneIsStable(env: Env, c: Config, fuel: nat)
    requires c.phase.Done?
    ensures Steps(env, c, fuel) == c
    decreases fuel
  {
    if fuel > 0 {
      DoneIsStable(env, c, fuel - 1);
    }
  }

  /** From a `proceed` call with outcomes `ps`, the machine does what the driving
      loop does, within |ps| + 1 steps. */
  lemma {:induction false} MachineDrives(env: Env, trace: seq<Call>, ps: seq<Throwable>)
    ensures Steps(env, Config(InProceed, trace, ps), |ps| + 1).phase == Done(Drive(ps).escape)
    ensures Steps(env, Config(InProceed, trace, ps), |ps| + 1).trace == trace + Proceeds(Drive(ps).calls)
    decreases |ps|
  {
    var c := Config(InProceed, trace, ps);
    if ps == [] {
      assert trace + Proceeds(0) == trace;
      DoneIsStable(env, Step(env, c), 0);
    } else if ps[0] != Control(Continue) {
      assert Proceeds(1) == [Proceed];
      DoneIsStable(env, Step(env, c), |ps|);
    } else {
      MachineDrives(env, trace + [Proceed], ps[1..]);
      assert trace + [Proceed] + Proceeds(Drive(ps[1..]).calls) == trace + Proceeds(Drive(ps).calls);
    }
  }

  lemma {:induction false} StepsAdd(env: Env, c: Config, a: nat, b: nat)
    ensures Steps(env, c, a + b) == Steps(env, Steps(env, c, a), b)
    decreases a
  {
    if a > 0 {
      StepsAdd(env, Step(env, c), a - 1, b);
    }
  }

  /** From the start of runBlock, the machine reaches `Done(e)` with trace `tr`
      within |proceeds| + 3 steps. */
  predicate MachineEnds(env: Env, e: Escape, tr: seq<Call>)
  {
    var c := Steps(env, Config(InBody, [], env.proceeds), |env.proceeds| + 3);
    c.phase == Done(e) && c.trace == tr
  }

  /** The machine from the start of runBlock, when the body hands on to `proceed`
      (a normal return, or a Continue): one step, then the driving loop. */
  lemma {:induction false} MachineAfterBody(env: Env)
    requires env.body == Returned || env.body == Threw(Control(Continue))
    ensures MachineEnds(env, Drive(env.proceeds).escape, [Block] + Proceeds(Drive(env.proceeds).calls))
  {
    var ps := env.proceeds;
    var start := Config(InBody, [], ps);
    var c1 := Config(InProceed, [Block], ps);
    assert Step(env, start) == c1;
    StepsAdd(env, start, 1, |ps| + 2);
    StepsAdd(env, c1, |ps| + 1, 1);
    MachineDrives(env, [Block], ps);
    DoneIsStable(env, Steps(env, c1, |ps| + 1), 1);
  }

  /** The machine from the start of runBlock, when the body throws an ordinary exception. */
  lemma {:induction false} MachineAfterFault(env: Env, id: nat)
    requires env.body == Threw(Fault(id))
    ensures MachineEnds(env, RunBlock(env).escape, RunBlock(env).trace)
  {
    var ps := env.proceeds;
    var start := Config(InBody, [], ps);
    var c1 := Config(InFail(Fault(id)), [Block], ps);
    var c2 := Config(Dispatch(env.failThrows), [Block, Fail(Fault(id))], ps);
    assert Step(env, start) == c1;
    assert Step(env, c1) == c2;
    StepsAdd(env, start, 1, |ps| + 2);
    StepsAdd(env, c1, 1, |ps| + 1);
    if env.failThrows == Control(Continue) {
      MachineDrives(env, [Block, Fail(Fault(id))], ps);
    } else {
      DoneIsStable(env, c2, |ps| + 1);
    }
  }

  /** RunBlock is what the small-step machine reaches from the start of runBlock
      within |proceeds| + 3 steps. */
  lemma RunBlockAgreesWithMachine(env: Env)
    ensures MachineEnds(env, RunBlock(env).escape, RunBlock(env).trace)
  {
    var ps := env.proceeds;
    match env.body
    case Returned =>
      MachineAfterBody(env);
      if ps != [] && ps[0] == Control(Continue) {
        assert [Block] + Proceeds(Drive(ps).calls) == [Block, Proceed] + Proceeds(Drive(ps[1..]).calls);
      } else if ps != [] {
        assert Proceeds(1) == [Proceed];
      } else {
        assert [Block] + Proceeds(0) == [Block];
      }
    case Threw(Fault(id)) =>
      MachineAfterFault(env, id);
    case Threw(Control(s)) =>
      if s == Continue {
        MachineAfterBody(env);
      } else {
        var start := Config(InBody, [], ps);
        var c1 := Config(Done(Raised(Control(s))), [Block], ps);
        assert Step(env, start) == c1;
        StepsAdd(env, start, 1, |ps| + 2);
        DoneIsStable(env, c1, |ps| + 2);
      }
  }
}
