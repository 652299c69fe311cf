/** What a consumer receives, in terms of the plugins' answers alone. */
module Delivery {
  import opened Common
  import opened Stream
  import opened Replay

  // ---------------------------------------------------------- block hooks

  /** Each hook was given what the one before it made of the block, and accepted it. */
  ghost predicate HookChain(hooks: seq<Hooks>, chain: seq<Block>) {
    |chain| == |hooks| + 1 && forall i :: 0 <= i < |hooks| ==> hooks[i].onChunk(chain[i]) == Ok(chain[i + 1])
  }

  /** Such a chain leads from `start` to `b`. */
  ghost predicate Leads(hooks: seq<Hooks>, start: Block, chain: seq<Block>, b: Block) {
    HookChain(hooks, chain) && chain[0] == start && chain[|hooks|] == b
  }

  lemma ChainCons(hooks: seq<Hooks>, block: Block, chain: seq<Block>)
    requires hooks != [] && HookChain(hooks[1..], chain) && hooks[0].onChunk(block) == Ok(chain[0])
    ensures HookChain(hooks, [block] + chain)
  {
    var all := [block] + chain;
    forall i | 0 <= i < |hooks| ensures hooks[i].onChunk(all[i]) == Ok(all[i + 1]) {
      if i > 0 { assert hooks[i] == hooks[1..][i - 1] && all[i] == chain[i - 1] && all[i + 1] == chain[i]; }
    }
  }

  lemma ChainTail(hooks: seq<Hooks>, chain: seq<Block>)
    requires hooks != [] && HookChain(hooks, chain)
    ensures HookChain(hooks[1..], chain[1..]) && hooks[0].onChunk(chain[0]) == Ok(chain[1])
  {
    forall i | 0 <= i < |hooks| - 1 ensures hooks[1..][i].onChunk(chain[1..][i]) == Ok(chain[1..][i + 1]) {
      assert hooks[i + 1].onChunk(chain[i + 1]) == Ok(chain[i + 2]);
    }
  }

  /** A chain of accepting hooks, each working on what the last one left, ends in what the hooks make of the block. */
  lemma {:induction false} ChainDelivers(hooks: seq<Hooks>, chain: seq<Block>)
    requires HookChain(hooks, chain)
    ensures ChunkHooks(hooks, chain[0]) == Ok(chain[|hooks|])
  {
    if hooks != [] {
      ChainTail(hooks, chain);
      ChainDelivers(hooks[1..], chain[1..]);
    }
  }

  /** The first hook that fails, on what the hooks before it made of the block, decides. */
  lemma {:induction false} ChainFails(hooks: seq<Hooks>, chain: seq<Block>, k: nat, e: string)
    requires k < |hooks| && HookChain(hooks[..k], chain) && hooks[k].onChunk(chain[k]) == Err(e)
    ensures ChunkHooks(hooks, chain[0]) == Err(Plugin(e))
  {
    if k > 0 {
      ChainTail(hooks[..k], chain);
      assert hooks[..k][1..] == hooks[1..][..k - 1];
      assert hooks[..k][0] == hooks[0];
      ChainFails(hooks[1..], chain[1..], k - 1, e);
    }
  }

  /** Every outcome comes from such a chain. */
  lemma {:induction false} ChunkHooksChain(hooks: seq<Hooks>, block: Block) returns (chain: seq<Block>, k: nat)
    ensures k <= |hooks| && HookChain(hooks[..k], chain) && chain[0] == block
    ensures k == |hooks| ==> ChunkHooks(hooks, block) == Ok(chain[k])
    ensures k < |hooks| ==>
              var failed := hooks[k].onChunk(chain[k]);
              failed.Err? && ChunkHooks(hooks, block) == Err(Plugin(failed.error))
  {
    if hooks == [] {
      chain, k := [block], 0;
    } else {
      var first := hooks[0].onChunk(block);
      if first.Err? {
        chain, k := [block], 0;
      } else {
        var tail, j := ChunkHooksChain(hooks[1..], first.value);
        chain, k := [block] + tail, j + 1;
        assert hooks[..k][1..] == hooks[1..][..j] && hooks[..k][0] == hooks[0];
        ChainCons(hooks[..k], block, tail);
      }
    }
  }

  /** The hooks deliver `b` if and only if each accepts, in order, what the last one left, and the last leaves `b`. */
  lemma HooksDeliverIff(hooks: seq<Hooks>, block: Block, b: Block)
    ensures ChunkHooks(hooks, block) == Ok(b) <==>
              exists chain: seq<Block> :: Leads(hooks, block, chain, b)
  {
    hide ChunkHooks;
    var chain, k := ChunkHooksChain(hooks, block);
    if k == |hooks| && chain[k] == b { assert hooks[..k] == hooks && Leads(hooks, block, chain, b); }
    if other: seq<Block> :| Leads(hooks, block, other, b) {
      ChainDelivers(hooks, other);
    }
  }

  // ----------------------------------------------------------- local tools

  ghost predicate NobodyRuns(hooks: seq<Hooks>, call: Block) {
    forall i :: 0 <= i < |hooks| ==> hooks[i].localTool(call) == Ok(None)
  }

  lemma NobodyInTail(hooks: seq<Hooks>, call: Block)
    requires hooks != [] && NobodyRuns(hooks, call)
    ensures NobodyRuns(hooks[1..], call) && hooks[0].localTool(call) == Ok(None)
  {
    forall i | 0 <= i < |hooks| - 1 ensures hooks[1..][i].localTool(call) == Ok(None) {
      assert hooks[i + 1].localTool(call) == Ok(None);
    }
  }

  /** With no executor the call goes on unchanged. */
  lemma {:induction false} NoExecutor(hooks: seq<Hooks>, call: Block)
    requires call.ToolCall? && NobodyRuns(hooks, call)
    ensures LocalTool(hooks, call) == Ok(call)
  {
    if hooks != [] {
      NobodyInTail(hooks, call);
      NoExecutor(hooks[1..], call);
    }
  }

  /**
    The first plugin that executes the call, or fails, decides: its result replaces the call if it is a tool result for
    the same id, and is an error otherwise.
   */
  lemma {:induction false} FirstExecutorDecides(hooks: seq<Hooks>, call: Block, k: nat)
    requires call.ToolCall? && k < |hooks| && NobodyRuns(hooks[..k], call) && hooks[k].localTool(call) != Ok(None)
    ensures var ran := hooks[k].localTool(call);
            && (ran.Err? ==> LocalTool(hooks, call) == Err(Plugin(ran.error)))
            && (ran.Ok? ==>
                  var b := ran.value.value;
                  LocalTool(hooks, call) ==
                    if b.ToolResult? && b.toolCallId == call.id then Ok(b) else Err(BadLocalTool))
  {
    if k > 0 {
      NobodyInTail(hooks[..k], call);
      assert hooks[..k][0] == hooks[0] && hooks[..k][1..] == hooks[1..][..k - 1];
      FirstExecutorDecides(hooks[1..], call, k - 1);
    }
  }

  lemma {:induction false} FirstRunner(hooks: seq<Hooks>, call: Block) returns (k: nat)
    requires !NobodyRuns(hooks, call)
    ensures k < |hooks| && NobodyRuns(hooks[..k], call) && hooks[k].localTool(call) != Ok(None)
  {
    if hooks[0].localTool(call) != Ok(None) {
      k := 0;
    } else {
      assert !NobodyRuns(hooks[1..], call) by {
        var i :| 0 <= i < |hooks| && hooks[i].localTool(call) != Ok(None);
        assert hooks[1..][i - 1].localTool(call) != Ok(None);
      }
      var j := FirstRunner(hooks[1..], call);
      k := j + 1;
      forall i | 0 <= i < k ensures hooks[..k][i].localTool(call) == Ok(None) {
        if i > 0 { assert hooks[..k][i] == hooks[1..][..j][i - 1]; }
      }
    }
  }

  lemma NobodyAt(hooks: seq<Hooks>, call: Block, k: nat, j: nat)
    requires j < k <= |hooks| && NobodyRuns(hooks[..k], call)
    ensures hooks[j].localTool(call) == Ok(None)
  {
    assert hooks[j] == hooks[..k][j];
  }

  /** There is only one first executor. */
  lemma OnlyFirst(hooks: seq<Hooks>, call: Block, j: nat, k: nat)
    requires j < |hooks| && NobodyRuns(hooks[..j], call) && hooks[j].localTool(call) != Ok(None)
    requires k < |hooks| && NobodyRuns(hooks[..k], call) && hooks[k].localTool(call) != Ok(None)
    ensures j == k
  {
    hide NobodyRuns;
    if j < k { NobodyAt(hooks, call, k, j); }
    if k < j { NobodyAt(hooks, call, j, k); }
  }

  // ------------------------------------------------------------- delivery

  /** What the block hooks start from: the block itself, or what the first executor made of a tool call. */
  ghost predicate Started(hooks: seq<Hooks>, block: Block, start: Block) {
    if !block.ToolCall? then start == block
    else
      || (start == block && NobodyRuns(hooks, block))
      || (start.ToolResult? && start.toolCallId == block.id
          && exists k ::
               0 <= k < |hooks| && NobodyRuns(hooks[..k], block) && hooks[k].localTool(block) == Ok(Some(start)))
  }

  lemma StartedIff(hooks: seq<Hooks>, block: Block, start: Block)
    ensures Started(hooks, block, start) <==>
              (if block.ToolCall? then LocalTool(hooks, block) == Ok(start) else start == block)
  {
    hide LocalTool;
    if block.ToolCall? {
      if NobodyRuns(hooks, block) {
        NoExecutor(hooks, block);
      } else {
        var k := FirstRunner(hooks, block);
        FirstExecutorDecides(hooks, block, k);
        var ran := hooks[k].localTool(block);
        if ran.Ok? && LocalTool(hooks, block) == Ok(start) {
          assert ran.value != None;
          assert ran.value.value == start;
        }
        if j :| 0 <= j < |hooks| && NobodyRuns(hooks[..j], block) && hooks[j].localTool(block) == Ok(Some(start)) {
          OnlyFirst(hooks, block, j, k);
        }
      }
    }
  }

  /**
    A poll delivers the block `b` if and only if the inner stream yielded a block, the first executor, if any, replaced
    it by a result of its own call, and from there each plugin's hook accepted what the one before left, ending in `b`.
   */
  lemma DeliveredIff(i: Input, b: Block)
    ensures Answer(i) == Ready(Some(Ok(b))) <==>
              && i.inner.Ready? && i.inner.item.Some? && i.inner.item.value.Ok?
              && exists start: Block, chain: seq<Block> ::
                   && Started(i.hooks, i.inner.item.value.value, start)
                   && Leads(i.hooks, start, chain, b)
  {
    hide Started, Leads, ChunkHooks, LocalTool;
    if i.inner.Ready? && i.inner.item.Some? && i.inner.item.value.Ok? {
      var block := i.inner.item.value.value;
      if Answer(i) == Ready(Some(Ok(b))) {
        var start := if block.ToolCall? then LocalTool(i.hooks, block).value else block;
        StartedIff(i.hooks, block, start);
        HooksDeliverIff(i.hooks, start, b);
      }
      if start: Block, chain: seq<Block> :|
        Started(i.hooks, block, start) && Leads(i.hooks, start, chain, b)
      {
        StartedIff(i.hooks, block, start);
        HooksDeliverIff(i.hooks, start, b);
      }
    }
  }

  /** The first executor fails, or answers with something other than a result of its own call. */
  ghost predicate ExecutorFails(hooks: seq<Hooks>, block: Block, e: Error) {
    block.ToolCall? && exists k :: 0 <= k < |hooks| && NobodyRuns(hooks[..k], block) && FailsOn(hooks[k], block, e)
  }

  predicate FailsOn(h: Hooks, call: Block, e: Error)
    requires call.ToolCall?
  {
    match h.localTool(call)
    case Err(message) => e == Plugin(message)
    case Ok(None) => false
    case Ok(Some(b)) => e == BadLocalTool && !(b.ToolResult? && b.toolCallId == call.id)
  }

  lemma ExecutorFailsIff(hooks: seq<Hooks>, block: Block, e: Error)
    requires block.ToolCall?
    ensures ExecutorFails(hooks, block, e) <==> LocalTool(hooks, block) == Err(e)
  {
    hide LocalTool;
    if k :| 0 <= k < |hooks| && NobodyRuns(hooks[..k], block) && FailsOn(hooks[k], block, e) {
      FirstExecutorDecides(hooks, block, k);
    }
    if LocalTool(hooks, block) == Err(e) {
      if NobodyRuns(hooks, block) {
        NoExecutor(hooks, block);
      } else {
        var k := FirstRunner(hooks, block);
        FirstExecutorDecides(hooks, block, k);
        assert FailsOn(hooks[k], block, e);
      }
    }
  }

  /** Some hook fails on what the hooks before it left, and none before it did. */
  ghost predicate HookFails(hooks: seq<Hooks>, start: Block, e: Error) {
    exists k, chain: seq<Block> ::
      && 0 <= k < |hooks| && HookChain(hooks[..k], chain) && chain[0] == start
      && hooks[k].onChunk(chain[k]).Err? && e == Plugin(hooks[k].onChunk(chain[k]).error)
  }

  lemma HookFailsIff(hooks: seq<Hooks>, start: Block, e: Error)
    ensures HookFails(hooks, start, e) <==> ChunkHooks(hooks, start) == Err(e)
  {
    hide ChunkHooks;
    var chain, k := ChunkHooksChain(hooks, start);
    if j, other: seq<Block> :|
      && 0 <= j < |hooks| && HookChain(hooks[..j], other) && other[0] == start
      && hooks[j].onChunk(other[j]).Err? && e == Plugin(hooks[j].onChunk(other[j]).error)
    {
      ChainFails(hooks, other, j, hooks[j].onChunk(other[j]).error);
    }
  }

  /**
    A poll reports an error if and only if the inner stream did, or the first executor of the call did, or the first
    failing hook did, on what the executor and the hooks before it made of the block.
   */
  lemma ReportedIff(i: Input, e: Error)
    ensures Answer(i) == Ready(Some(Err(e))) <==>
              && i.inner.Ready? && i.inner.item.Some?
              && match i.inner.item.value
                 case Err(inner) => e == inner
                 case Ok(block) =>
                   || ExecutorFails(i.hooks, block, e)
                   || exists start: Block :: Started(i.hooks, block, start) && HookFails(i.hooks, start, e)
  {
    hide Started, ExecutorFails, HookFails, ChunkHooks, LocalTool;
    if i.inner.Ready? && i.inner.item.Some? && i.inner.item.value.Ok? {
      var block := i.inner.item.value.value;
      if block.ToolCall? { ExecutorFailsIff(i.hooks, block, e); }
      if !block.ToolCall? { NoCallNoFailure(i.hooks, block, e); }
      if !block.ToolCall? || LocalTool(i.hooks, block).Ok? {
        var start := if block.ToolCall? then LocalTool(i.hooks, block).value else block;
        StartedIff(i.hooks, block, start);
        HookFailsIff(i.hooks, start, e);
      }
      if other: Block :| Started(i.hooks, block, other) && HookFails(i.hooks, other, e) {
        StartedIff(i.hooks, block, other);
        HookFailsIff(i.hooks, other, e);
      }
    }
  }

  lemma NoCallNoFailure(hooks: seq<Hooks>, block: Block, e: Error)
    requires !block.ToolCall?
    ensures !ExecutorFails(hooks, block, e)
  {
  }

  // --------------------------------------------------- accumulated blocks

  predicate Delivers(a: Polled) { a.Ready? && a.item.Some? && a.item.value.Ok? }

  /** The positions, in order, of all answers that deliver a block. */
  ghost predicate PositionsOf(answers: seq<Polled>, at: seq<nat>) {
    && (forall j :: 0 <= j < |at| ==> at[j] < |answers| && Delivers(answers[at[j]]))
    && (forall i, j :: 0 <= i < j < |at| ==> at[i] < at[j])
    && (forall k :: 0 <= k < |answers| && Delivers(answers[k]) ==> k in at)
  }

  lemma PositionAdded(answers: seq<Polled>, at: seq<nat>)
    requires answers != [] && PositionsOf(answers[..|answers| - 1], at)
    ensures var n := |answers| - 1;
            PositionsOf(answers, at + if Delivers(answers[n]) then [n] else [])
  {
    hide Delivers;
    var n := |answers| - 1;
    var more := at + if Delivers(answers[n]) then [n] else [];
    forall k | 0 <= k < |answers| && Delivers(answers[k]) ensures k in more {
      if k < n {
        assert answers[..n][k] == answers[k];
        assert k in at;
      }
    }
  }

  /** The accumulated blocks are the delivered ones, each once and in the order of their polls. */
  lemma {:induction false} BlocksAreDelivered(answers: seq<Polled>) returns (at: seq<nat>)
    ensures PositionsOf(answers, at) && |Blocks(answers)| == |at|
    ensures forall j :: 0 <= j < |at| ==> Blocks(answers)[j] == answers[at[j]].item.value.value
  {
    if answers == [] {
      at := [];
    } else {
      var n := |answers| - 1;
      var before := BlocksAreDelivered(answers[..n]);
      PositionAdded(answers, before);
      at := before + if Delivers(answers[n]) then [n] else [];
      assert forall j :: 0 <= j < |before| ==> before[j] < n && answers[..n][before[j]] == answers[before[j]];
    }
  }

  // --------------------------------------------------------- request hooks

  /** Each request hook was given what the one before it made of the request, and accepted it. */
  ghost predicate RequestChain<Req(!new)>(hooks: seq<Req -> Result<Req, string>>, chain: seq<Req>) {
    |chain| == |hooks| + 1 && forall i :: 0 <= i < |hooks| ==> hooks[i](chain[i]) == Ok(chain[i + 1])
  }

  lemma RequestChainTail<Req(!new)>(hooks: seq<Req -> Result<Req, string>>, chain: seq<Req>)
    requires hooks != [] && RequestChain(hooks, chain)
    ensures RequestChain(hooks[1..], chain[1..]) && hooks[0](chain[0]) == Ok(chain[1])
  {
    forall i | 0 <= i < |hooks| - 1 ensures hooks[1..][i](chain[1..][i]) == Ok(chain[1..][i + 1]) {
      assert hooks[i + 1](chain[i + 1]) == Ok(chain[i + 2]);
    }
  }

  /** The effective request is the end of that chain. */
  lemma {:induction false} RequestChainPasses<Req(!new)>(hooks: seq<Req -> Result<Req, string>>, chain: seq<Req>)
    requires RequestChain(hooks, chain)
    ensures RequestHooks(hooks, chain[0]) == Ok(chain[|hooks|])
  {
    if hooks != [] {
      RequestChainTail(hooks, chain);
      RequestChainPasses(hooks[1..], chain[1..]);
    }
  }

  /** The first request hook that fails, on what the ones before made of the request, ends the turn. */
  lemma {:induction false} RequestChainFails<Req(!new)>(hooks: seq<Req -> Result<Req, string>>, chain: seq<Req>, k: nat,
                                                        e: string)
    requires k < |hooks| && RequestChain(hooks[..k], chain) && hooks[k](chain[k]) == Err(e)
    ensures RequestHooks(hooks, chain[0]) == Err(e)
  {
    if k > 0 {
      assert hooks[..k][0] == hooks[0];
      RequestChainTail(hooks[..k], chain);
      assert hooks[..k][1..] == hooks[1..][..k - 1];
      RequestChainFails(hooks[1..], chain[1..], k - 1, e);
    }
  }

  // ------------------------------------------------------------- counting

  /** The positions of the blocks that are neither a tool result nor an image. */
  function Countable(blocks: seq<Block>): set<nat> {
    set i: nat | i < |blocks| && !blocks[i].ToolResult? && !blocks[i].Image?
  }

  /** Tool results and images carry no generated tokens; every other block counts one. */
  lemma {:induction false} GeneratedCounted(blocks: seq<Block>)
    ensures CountGenerated(blocks) == |Countable(blocks)|
  {
    if blocks == [] {
      assert Countable(blocks) == {};
    } else {
      var n := |blocks| - 1;
      var front := blocks[..n];
      GeneratedCounted(front);
      assert Countable(blocks) == Countable(front) + if Generated(blocks[n]) then {n} else {};
      assert n !in Countable(front);
    }
  }
}
