/** The per-execution context of PipelineExecution.kt: one block per stage function,
    each with its success and failure hook lists, the current block index, the
    state and the captured exception. The forwarding members (fork, pause,
    proceed, fail, finish, finishAll) only call into the pipeline machine, which is
    not part of this model. */
module Execution {
  import opened Pipeline

  /** A stage function or a hook: a Kotlin lambda, known here only by identity. */
  datatype Body = Body(id: nat)

  /** The subject the pipeline runs over, known only by identity. */
  datatype Subject = Subject(id: nat)

  /** What can be observed of one block: its function and its two hook lists. */
  datatype BlockView = BlockView(stage: Body, successes: seq<Body>, failures: seq<Body>)

  /** A hook registration made by a running stage: onSuccess or onFail. */
  datatype Hook = SuccessHook(body: Body) | FailureHook(body: Body)

  /** A pipeline block: the stage function, with the hook lists that the stage
      appends to while it runs. */
  class PipelineBlock {
    const stage: Body
    var successes: seq<Body>
    var failures: seq<Body>

    constructor (stage: Body)
      ensures View() == BlockView(stage, [], [])
    {
      this.stage := stage;
      successes := [];
      failures := [];
    }

    function View(): BlockView
      reads this
    {
      BlockView(stage, successes, failures)
    }
  }

  /** The blocks of a fresh execution: one per stage function, in order, with
      empty hook lists. */
  function InitialView(functions: seq<Body>): (v: seq<BlockView>)
    ensures |v| == |functions|
    ensures forall i :: 0 <= i < |v| ==> v[i] == BlockView(functions[i], [], [])
  {
    seq(|functions|, i requires 0 <= i < |functions| => BlockView(functions[i], [], []))
  }

  /** One registration on the block at index `i` (0-based): the hook goes to the
      end of the matching list. */
  function Register(v: seq<BlockView>, i: nat, h: Hook): (w: seq<BlockView>)
    requires i < |v|
    ensures |w| == |v|
    ensures w[i].stage == v[i].stage
    ensures h.SuccessHook? ==> w[i].successes == v[i].successes + [h.body] && w[i].failures == v[i].failures
    ensures h.FailureHook? ==> w[i].failures == v[i].failures + [h.body] && w[i].successes == v[i].successes
    ensures forall j :: 0 <= j < |v| && j != i ==> w[j] == v[j]
  {
    match h
    case SuccessHook(body) => v[i := v[i].(successes := v[i].successes + [body])]
    case FailureHook(body) => v[i := v[i].(failures := v[i].failures + [body])]
  }

  /** A series of registrations on the block at index `i`, in order. */
  function RegisterAll(v: seq<BlockView>, i: nat, hs: seq<Hook>): (w: seq<BlockView>)
    requires i < |v|
    ensures |w| == |v|
    decreases |hs|
  {
    if hs == [] then v else RegisterAll(Register(v, i, hs[0]), i, hs[1..])
  }

  /** The bodies of the onSuccess registrations in `hs`, in order. */
  function SuccessBodies(hs: seq<Hook>): seq<Body>
  {
    if hs == [] then [] else (if hs[0].SuccessHook? then [hs[0].body] else []) + SuccessBodies(hs[1..])
  }

  /** The bodies of the onFail registrations in `hs`, in order. */
  function FailureBodies(hs: seq<Hook>): seq<Body>
  {
    if hs == [] then [] else (if hs[0].FailureHook? then [hs[0].body] else []) + FailureBodies(hs[1..])
  }

  /** Registrations on block `i` leave every other block as it was. */
  lemma {:induction false} RegisterAllLeavesOthers(v: seq<BlockView>, i: nat, hs: seq<Hook>, j: nat)
    requires i < |v| && j < |v| && j != i
    ensures RegisterAll(v, i, hs)[j] == v[j]
    decreases |hs|
  {
    if hs != [] {
      RegisterAllLeavesOthers(Register(v, i, hs[0]), i, hs[1..], j);
    }
  }

  /** Hooks keep their registration order: after any interleaving of onSuccess and
      onFail on one block, each list is its old contents followed by the bodies
      registered to it, in the order they were registered; other blocks and the
      stage function are untouched. */
  lemma {:induction false} RegisterAllKeepsOrder(v: seq<BlockView>, i: nat, hs: seq<Hook>)
    requires i < |v|
    ensures RegisterAll(v, i, hs)[i].successes == v[i].successes + SuccessBodies(hs)
    ensures RegisterAll(v, i, hs)[i].failures == v[i].failures + FailureBodies(hs)
    ensures RegisterAll(v, i, hs)[i].stage == v[i].stage
    ensures forall j :: 0 <= j < |v| && j != i ==> RegisterAll(v, i, hs)[j] == v[j]
    decreases |hs|
  {
    forall j | 0 <= j < |v| && j != i
      ensures RegisterAll(v, i, hs)[j] == v[j]
    {
      RegisterAllLeavesOthers(v, i, hs, j);
    }
    if hs != [] {
      var h, rest := hs[0], hs[1..];
      var v' := Register(v, i, h);
      assert RegisterAll(v, i, hs) == RegisterAll(v', i, rest);
      RegisterAllKeepsOrder(v', i, rest);
      match h
      case SuccessHook(b) =>
        assert SuccessBodies(hs) == [b] + SuccessBodies(rest);
        assert FailureBodies(hs) == FailureBodies(rest);
        assert v'[i].successes + SuccessBodies(rest) == v[i].successes + SuccessBodies(hs);
      case FailureHook(b) =>
        assert FailureBodies(hs) == [b] + FailureBodies(rest);
        assert SuccessBodies(hs) == SuccessBodies(rest);
        assert v'[i].failures + FailureBodies(rest) == v[i].failures + FailureBodies(hs);
    }
  }

  /** `functions.map { PipelineBlock(it) }`: one new block per stage function, in order. */
  method NewBlocks(functions: seq<Body>) returns (blocks: seq<PipelineBlock>)
    ensures |blocks| == |functions|
    ensures forall i :: 0 <= i < |blocks| ==> fresh(blocks[i])
    ensures forall i, j :: 0 <= i < j < |blocks| ==> blocks[i] != blocks[j]
    ensures forall i :: 0 <= i < |blocks| ==> blocks[i].View() == BlockView(functions[i], [], [])
  {
    blocks := [];
    for k := 0 to |functions|
      invariant |blocks| == k
      invariant forall i :: 0 <= i < k ==> fresh(blocks[i])
      invariant forall i, j :: 0 <= i < j < k ==> blocks[i] != blocks[j]
      invariant forall i :: 0 <= i < k ==> blocks[i].View() == BlockView(functions[i], [], [])
    {
      var block := new PipelineBlock(functions[k]);
      blocks := blocks + [block];
    }
  }

  class PipelineExecution {
    const subject: Subject
    const blocks: seq<PipelineBlock>
    var blockIndex: int
    var state: PipelineState
    var exception: Option<Throwable>

    /** Every block is its own object, so appending to one block's lists leaves the
        others alone. */
    ghost predicate Valid()
      reads this
    {
      forall i, j :: 0 <= i < j < |blocks| ==> blocks[i] != blocks[j]
    }

    /** The blocks as values, in order. */
    ghost function View(): (v: seq<BlockView>)
      reads this, blocks
      ensures |v| == |blocks|
      ensures forall i :: 0 <= i < |blocks| ==> v[i] == blocks[i].View()
    {
      seq(|blocks|, i reads this, blocks requires 0 <= i < |blocks| => blocks[i].View())
    }

    /** A fresh execution: one block per stage function in the same order, block
        index 0, state Executing and no exception. */
    constructor (subject: Subject, functions: seq<Body>)
      ensures Valid()
      ensures View() == InitialView(functions)
      ensures forall i :: 0 <= i < |blocks| ==> fresh(blocks[i])
      ensures this.subject == subject
      ensures blockIndex == 0 && state == Executing && exception == None
    {
      var bs := NewBlocks(functions);
      this.subject := subject;
      blocks := bs;
      blockIndex := 0;
      state := Executing;
      exception := None;
    }

    /** onSuccess: append `body` to the success hooks of the block at
        `blockIndex - 1`. Outside 1..|blocks| the Kotlin indexing throws
        IndexOutOfBoundsException; then `ok` is false and nothing changes. */
    method OnSuccess(body: Body) returns (ok: bool)
      requires Valid()
      modifies if 1 <= blockIndex <= |blocks| then {blocks[blockIndex - 1]} else {}
      ensures ok <==> 1 <= blockIndex <= |blocks|
      ensures View() == if ok then Register(old(View()), blockIndex - 1, SuccessHook(body)) else old(View())
      ensures unchanged(this)
    {
      ok := 1 <= blockIndex <= |blocks|;
      if ok {
        var block := blocks[blockIndex - 1];
        block.successes := block.successes + [body];
      }
    }

    /** onFail: append `body` to the failure hooks of the block at
        `blockIndex - 1`, under the same conditions as onSuccess. */
    method OnFail(body: Body) returns (ok: bool)
      requires Valid()
      modifies if 1 <= blockIndex <= |blocks| then {blocks[blockIndex - 1]} else {}
      ensures ok <==> 1 <= blockIndex <= |blocks|
      ensures View() == if ok then Register(old(View()), blockIndex - 1, FailureHook(body)) else old(View())
      ensures unchanged(this)
    {
      ok := 1 <= blockIndex <= |blocks|;
      if ok {
        var block := blocks[blockIndex - 1];
        block.failures := block.failures + [body];
      }
    }
  }
}
