/**
  The instrumented response streams of `src/client.rs`: hooks on every block, exactly one completion, record and
  replay.
*/
module Stream {
  import opened Common

  // ----------------------------------------------------------------- data

  datatype Block =
    | Text(text: string)
    | Thinking(reasoning: string)
    | ToolCall(id: string, name: string, arguments: string)
    | ToolResult(toolCallId: string, output: string)
    | Image(data: string)

  datatype Usage = Usage(prompt: nat, completion: nat)
  datatype CacheUsage = CacheUsage(read: nat, write: nat)

  /** What the provider reported besides blocks, read once at the end. */
  datatype Metadata = Metadata(cacheUsage: Option<CacheUsage>, usage: Option<Usage>)

  datatype Response = Response(model: string, provider: string, duration: nat, promptTokens: nat, completionTokens: nat,
                               content: seq<Block>, cacheUsage: Option<CacheUsage>, usage: Option<Usage>)

  datatype Error = Provider(message: string) | Plugin(message: string) | BadLocalTool

  /** How one plugin behaves during one poll; a stateful plugin simply behaves differently at each poll. */
  datatype Hooks = Hooks(localTool: Block -> Result<Option<Block>, string>, onChunk: Block -> Result<Block, string>)

  datatype Polled = Pending | Ready(item: Option<Result<Block, Error>>)

  /**
    Everything one `poll_next` call meets: the inner stream's answer, the plugins, and the clock and metadata at the
    end.
   */
  datatype Input = Input(inner: Polled, hooks: seq<Hooks>, elapsed: nat, metadata: Metadata)

  // ------------------------------------------------------------- one block

  predicate AnswersCall(replacement: Block, id: string) {
    replacement.ToolResult? && replacement.toolCallId == id
  }

  /** The first plugin that executes the call or fails decides; a replacement must answer the call. */
  function LocalTool(hooks: seq<Hooks>, call: Block): Result<Block, Error>
    requires call.ToolCall?
  {
    if hooks == [] then Ok(call)
    else
      match hooks[0].localTool(call)
      case Err(e) => Err(Plugin(e))
      case Ok(None) => LocalTool(hooks[1..], call)
      case Ok(Some(b)) => if AnswersCall(b, call.id) then Ok(b) else Err(BadLocalTool)
  }

  /** Every plugin in turn, the first failure wins. */
  function ChunkHooks(hooks: seq<Hooks>, block: Block): Result<Block, Error> {
    if hooks == [] then Ok(block)
    else
      match hooks[0].onChunk(block)
      case Err(e) => Err(Plugin(e))
      case Ok(b) => ChunkHooks(hooks[1..], b)
  }

  function Process(hooks: seq<Hooks>, block: Block): Result<Block, Error> {
    match if block.ToolCall? then LocalTool(hooks, block) else Ok(block)
    case Err(e) => Err(e)
    case Ok(b) => ChunkHooks(hooks, b)
  }

  /** What a poll hands to its caller; it does not depend on what the stream has seen before. */
  function Answer(i: Input): Polled {
    match i.inner
    case Pending => Pending
    case Ready(None) => Ready(None)
    case Ready(Some(Err(e))) => Ready(Some(Err(e)))
    case Ready(Some(Ok(b))) => Ready(Some(Process(i.hooks, b)))
  }

  predicate Generated(b: Block) { b.Text? || b.Thinking? || b.ToolCall? }

  // -------------------------------------------------------- whole sequences

  /** The blocks a consumer received. */
  function Blocks(answers: seq<Polled>): seq<Block> {
    if answers == [] then []
    else
      var a := answers[|answers| - 1];
      Blocks(answers[..|answers| - 1])
      + if a.Ready? && a.item.Some? && a.item.value.Ok? then [a.item.value.value] else []
  }

  predicate IsError(a: Polled) { a.Ready? && a.item.Some? && a.item.value.Err? }

  predicate HasError(answers: seq<Polled>) { exists i :: 0 <= i < |answers| && IsError(answers[i]) }

  function CountGenerated(blocks: seq<Block>): nat {
    if blocks == [] then 0
    else CountGenerated(blocks[..|blocks| - 1]) + if Generated(blocks[|blocks| - 1]) then 1 else 0
  }

  function Answers(inputs: seq<Input>): seq<Polled> { seq(|inputs|, i requires 0 <= i < |inputs| => Answer(inputs[i])) }

  /** The poll at which the stream first ended. */
  predicate EndsAt(inputs: seq<Input>, k: nat) {
    k < |inputs| && Answer(inputs[k]) == Ready(None) && NotEnded(inputs[..k])
  }

  predicate NotEnded(inputs: seq<Input>) { forall j :: 0 <= j < |inputs| ==> Answer(inputs[j]) != Ready(None) }

  /**
    The response of a stream that ended at poll `k`: exactly the blocks delivered before, and the reported usage if
    any.
   */
  function FinalResponse(model: string, provider: string, inputs: seq<Input>, k: nat): Response
    requires k < |inputs|
  {
    var blocks := Blocks(Answers(inputs[..k]));
    var end := inputs[k];
    Response(model, provider, end.elapsed,
             if end.metadata.usage.Some? then end.metadata.usage.value.prompt else 0,
             if end.metadata.usage.Some? then end.metadata.usage.value.completion else CountGenerated(blocks),
             blocks, end.metadata.cacheUsage, end.metadata.usage)
  }

  // ------------------------------------------------- what the world observes

  /**
    Calls of `on_response_complete` as (plugin number, response), writes offered to the cache, and the caller's
    handle.
   */
  datatype World<Req> = World(hookCalls: seq<(nat, Response)>, offered: seq<(Req, Response)>, handle: Option<Response>)

  /** Every plugin's terminal hook once, in registration order, all with the same response. */
  function HookCalls(plugins: nat, r: Response): seq<(nat, Response)> { seq(plugins, i => (i, r)) }

  /** What a stream that ended, or did not end, leaves in the world. */
  function Outcome<Req>(plugins: nat, request: Option<Req>, wantsHandle: bool, model: string, provider: string,
                        inputs: seq<Input>, end: Option<nat>): World<Req>
    requires end.Some? ==> end.value < |inputs|
  {
    match end
    case None => World([], [], None)
    case Some(k) =>
      var r := FinalResponse(model, provider, inputs, k);
      World(HookCalls(plugins, r),
            if request.Some? && !HasError(Answers(inputs[..k])) then [(request.value, r)] else [],
            if wantsHandle then Some(r) else None)
  }

  /** The clock and what the provider reported, put into the response at the end. */
  function Ended(r: Response, i: Input): Response {
    r.(duration := i.elapsed, cacheUsage := i.metadata.cacheUsage,
       promptTokens := if i.metadata.usage.Some? then i.metadata.usage.value.prompt else r.promptTokens,
       completionTokens := if i.metadata.usage.Some? then i.metadata.usage.value.completion else r.completionTokens,
       usage := if i.metadata.usage.Some? then i.metadata.usage else r.usage)
  }

  /** The response while blocks are still coming: one counted token for each generated block. */
  function Partial(model: string, provider: string, blocks: seq<Block>): Response {
    Response(model, provider, 0, 0, CountGenerated(blocks), blocks, None, None)
  }

  // ------------------------------------------- what the fields stand for

  /** What a stream is built with. */
  datatype Setup<Req> = Setup(plugins: nat, request: Option<Req>, wantsHandle: bool, model: string, provider: string)

  /** Its fields, and what the world has seen of it. */
  datatype Fields<Req> = Fields(response: Response, done: bool, sawError: bool, cacheWrite: Option<Req>,
                                completed: bool, world: World<Req>)

  /** The fields of a stream whose inner stream has not ended. */
  ghost predicate Running<Req>(m: Setup<Req>, f: Fields<Req>, inputs: seq<Input>) {
    && NotEnded(inputs)
    && f.response == Partial(m.model, m.provider, Blocks(Answers(inputs)))
    && f.cacheWrite == m.request && f.completed == m.wantsHandle
    && f.sawError == HasError(Answers(inputs))
    && f.world == World([], [], None)
  }

  /** The fields are those of the polls made so far. */
  ghost predicate Sound<Req>(m: Setup<Req>, f: Fields<Req>, inputs: seq<Input>, end: Option<nat>) {
    && (f.done <==> end.Some?)
    && (end.None? ==> Running(m, f, inputs))
    && (end.Some? ==> EndsAt(inputs, end.value))
    && f.world == Outcome(m.plugins, m.request, m.wantsHandle, m.model, m.provider, inputs, end)
  }

  /** What happened at the first end is not touched by later polls. */
  lemma AfterTheEnd<Req>(m: Setup<Req>, f: Fields<Req>, inputs: seq<Input>, end: Option<nat>, i: Input,
          after: Fields<Req>)
    requires Sound(m, f, inputs, end) && f.done && after.done && after.world == f.world
    ensures Sound(m, after, inputs + [i], end)
  {
    hide Answer, Answers, HasError, FinalResponse, NotEnded, HookCalls;
    var k := end.value;
    assert (inputs + [i])[..k] == inputs[..k] && (inputs + [i])[k] == inputs[k];
    FinalResponseAt(m.model, m.provider, inputs, inputs + [i], k);
  }

  lemma FinalResponseAt(model: string, provider: string, inputs: seq<Input>, more: seq<Input>, k: nat)
    requires k < |inputs| && k < |more| && inputs[..k] == more[..k] && inputs[k] == more[k]
    ensures FinalResponse(model, provider, inputs, k) == FinalResponse(model, provider, more, k)
  {
    hide Answers, Blocks, CountGenerated;
  }

  lemma PassStep<Req>(m: Setup<Req>, f: Fields<Req>, inputs: seq<Input>, end: Option<nat>, i: Input)
    requires Sound(m, f, inputs, end) && (Answer(i) == Pending || IsError(Answer(i)))
    ensures Sound(m, f.(sawError := f.sawError || Answer(i) != Pending), inputs + [i], end)
  {
    hide Answer, Answers, Blocks, HasError, NotEnded, EndsAt, Partial;
    if f.done {
      AfterTheEnd(m, f, inputs, end, i, f.(sawError := f.sawError || Answer(i) != Pending));
    } else {
      OneMorePoll(inputs, i);
    }
  }

  /** A delivered block appended to the response, and counted when the model generated it. */
  function Grown(r: Response, b: Block): Response {
    r.(content := r.content + [b], completionTokens := r.completionTokens + if Generated(b) then 1 else 0)
  }

  lemma BlockStep<Req>(m: Setup<Req>, f: Fields<Req>, inputs: seq<Input>, end: Option<nat>, i: Input, b: Block)
    requires Sound(m, f, inputs, end) && Answer(i) == Ready(Some(Ok(b)))
    ensures Sound(m, f.(response := Grown(f.response, b)), inputs + [i], end)
  {
    hide Answer, Answers, Blocks, HasError, NotEnded, EndsAt, Partial, Grown;
    if f.done {
      AfterTheEnd(m, f, inputs, end, i, f.(response := Grown(f.response, b)));
    } else {
      OneMorePoll(inputs, i);
      PartialGrows(m.model, m.provider, Blocks(Answers(inputs)), b);
    }
  }

  lemma PartialGrows(model: string, provider: string, blocks: seq<Block>, b: Block)
    ensures Partial(model, provider, blocks + [b]) == Grown(Partial(model, provider, blocks), b)
  {
    assert (blocks + [b])[..|blocks|] == blocks;
  }

  /** What completing a running stream leaves in the world is the outcome of ending at this poll. */
  lemma EndStep<Req>(m: Setup<Req>, f: Fields<Req>, inputs: seq<Input>, i: Input, after: Fields<Req>)
    requires Sound(m, f, inputs, None) && Answer(i) == Ready(None) && i.inner == Ready(None)
    requires after.done && after.world == EndWorld(m.plugins, f, i)
    ensures Sound(m, after, inputs + [i], Some(|inputs|))
  {
    hide Answer, Answers, Blocks, HasError, NotEnded, HookCalls, FinalResponse;
    var more := inputs + [i];
    assert more[..|inputs|] == inputs && more[|inputs|] == i;
    FinalIsEnded(m.model, m.provider, inputs, i);
  }

  lemma FinalIsEnded(model: string, provider: string, inputs: seq<Input>, i: Input)
    ensures FinalResponse(model, provider, inputs + [i], |inputs|) ==
            Ended(Partial(model, provider, Blocks(Answers(inputs))), i)
  {
    hide Answers, Blocks, CountGenerated;
    assert (inputs + [i])[..|inputs|] == inputs;
  }

  /** What completion adds to the world: the hooks, then the cache write, then the hand-off. */
  function EndWorld<Req>(plugins: nat, f: Fields<Req>, i: Input): World<Req> {
    var r := Ended(f.response, i);
    World(f.world.hookCalls + HookCalls(plugins, r),
          if !f.sawError && f.cacheWrite.Some? then f.world.offered + [(f.cacheWrite.value, r)] else f.world.offered,
          if f.completed then Some(r) else f.world.handle)
  }

  // -------------------------------------------------- completion, shared by both streams

  /** `run_completion_hooks`: a failing hook stops nothing, so only the calls themselves are seen. */
  method RunCompletionHooks<Req>(plugins: nat, response: Response, world: World<Req>) returns (after: World<Req>)
    ensures after == world.(hookCalls := world.hookCalls + HookCalls(plugins, response))
  {
    after := world;
    for i := 0 to plugins
      invariant after == world.(hookCalls := world.hookCalls + HookCalls(i, response))
    {
      assert HookCalls(i + 1, response) == HookCalls(i, response) + [(i, response)];
      after := after.(hookCalls := after.hookCalls + [(i, response)]);
    }
  }

  /** `publish_response`: the content moves into the handle, which is used up. */
  method PublishResponse<Req>(completed: bool, response: Response, world: World<Req>)
    returns (pending: bool, left: Response, after: World<Req>)
    ensures !pending
    ensures completed ==> after == world.(handle := Some(response)) && left.content == []
    ensures !completed ==> after == world && left == response
  {
    pending, left, after := completed, response, world;
    if pending {
      pending := false;
      after := world.(handle := Some(response));
      left := response.(content := []);
    }
  }

  // ------------------------------------------------------------ the stream

  class PluginStream<Req> {
    const plugins: nat
    const request0: Option<Req>   // the request to write back, when a cache is configured
    const wantsHandle: bool
    const model: string
    const provider: string
    var response: Response
    var done: bool
    var sawError: bool
    var cacheWrite: Option<Req>
    var completed: bool           // the caller's handle is still to be filled
    var world: World<Req>
    ghost var inputs: seq<Input>
    ghost var end: Option<nat>

    function Made(): Setup<Req> { Setup(plugins, request0, wantsHandle, model, provider) }

    function Now(): Fields<Req>
      reads this
    {
      Fields(response, done, sawError, cacheWrite, completed, world)
    }

    /** The stream's fields are those of the polls made so far. */
    ghost predicate Valid()
      reads this
    {
      Sound(Made(), Now(), inputs, end)
    }

    constructor (plugins: nat, model: string, provider: string, request: Option<Req>, wantsHandle: bool)
      ensures Valid() && inputs == [] && end == None
      ensures this.plugins == plugins && request0 == request && this.wantsHandle == wantsHandle
      ensures this.model == model && this.provider == provider
    {
      this.plugins, this.model, this.provider, request0, this.wantsHandle := plugins, model, provider, request,
          wantsHandle;
      response := Response(model, provider, 0, 0, 0, [], None, None);
      done, sawError, cacheWrite, completed := false, false, request, wantsHandle;
      world := World([], [], None);
      inputs, end := [], None;
    }

    /** The local-tool loop of one poll. */
    static method RunLocalTool(hooks: seq<Hooks>, call: Block) returns (r: Result<Block, Error>)
      requires call.ToolCall?
      ensures r == LocalTool(hooks, call)
    {
      for i := 0 to |hooks|
        invariant LocalTool(hooks, call) == LocalTool(hooks[i..], call)
      {
        var ran := hooks[i].localTool(call);
        assert hooks[i..][1..] == hooks[i + 1..];
        match ran {
          case Err(e) => return Err(Plugin(e));
          case Ok(None) =>
          case Ok(Some(replacement)) =>
            return if AnswersCall(replacement, call.id) then Ok(replacement) else Err(BadLocalTool);
        }
      }
      r := Ok(call);
    }

    /** The block-hook loop of one poll. */
    static method RunChunkHooks(hooks: seq<Hooks>, block: Block) returns (r: Result<Block, Error>)
      ensures r == ChunkHooks(hooks, block)
    {
      var chunk := block;
      for i := 0 to |hooks|
        invariant ChunkHooks(hooks, block) == ChunkHooks(hooks[i..], chunk)
      {
        var ran := hooks[i].onChunk(chunk);
        assert hooks[i..][1..] == hooks[i + 1..];
        if ran.Err? { return Err(Plugin(ran.error)); }
        chunk := ran.value;
      }
      r := Ok(chunk);
    }

    /** The first end of the inner stream: hooks, then the cache write, then the hand-off. */
    method CompleteStream(i: Input)
      requires !done
      modifies this
      ensures done && inputs == old(inputs) && end == old(end)
      ensures world == EndWorld(plugins, old(Now()), i)
    {
      done := true;
      response := response.(duration := i.elapsed, cacheUsage := i.metadata.cacheUsage);
      if i.metadata.usage.Some? {
        var usage := i.metadata.usage.value;
        response := response.(promptTokens := usage.prompt, completionTokens := usage.completion, usage := Some(usage));
      }
      world := RunCompletionHooks(plugins, response, world);
      if !sawError && cacheWrite.Some? {
        world := world.(offered := world.offered + [(cacheWrite.value, response)]);
        cacheWrite := None;
      }
      completed, response, world := PublishResponse(completed, response, world);
    }

    /** An item-level error, or nothing yet. */
    method Pass(i: Input)
      requires Valid() && (Answer(i) == Pending || IsError(Answer(i)))
      modifies this
      ensures Valid() && inputs == old(inputs) + [i]
    {
      hide Sound, Answer;
      PassStep(Made(), Now(), inputs, end, i);
      if Answer(i) != Pending {
        sawError := true;
      }
      inputs := inputs + [i];
    }

    /** A block that every hook accepted: accumulated and counted. */
    method Accumulate(i: Input, chunk: Block)
      requires Valid() && Answer(i) == Ready(Some(Ok(chunk)))
      modifies this
      ensures Valid() && inputs == old(inputs) + [i]
    {
      hide Sound, Answer, Generated;
      BlockStep(Made(), Now(), inputs, end, i, chunk);
      response := response.(content := response.content + [chunk]);
      if Generated(chunk) {
        response := response.(completionTokens := response.completionTokens + 1);
      }
      assert response == Grown(old(response), chunk);
      inputs := inputs + [i];
    }

    /** The inner stream ended; only the first time does anything happen. */
    method EndOfStream(i: Input)
      requires Valid() && Answer(i) == Ready(None) && i.inner == Ready(None)
      modifies this
      ensures Valid() && inputs == old(inputs) + [i]
    {
      hide Answer, EndWorld, Outcome, Running, EndsAt;
      ghost var before := Now();
      if !done {
        CompleteStream(i);
        EndStep(Made(), before, inputs, i, Now());
        end := Some(|inputs|);
      } else {
        AfterTheEnd(Made(), before, inputs, end, i, before);
      }
      inputs := inputs + [i];
    }

    /** One poll: the answer depends on this poll alone, and completion happens at the first end and never again. */
    method PollNext(i: Input) returns (answer: Polled)
      requires Valid()
      modifies this
      ensures Valid() && inputs == old(inputs) + [i]
      ensures answer == Answer(i)
    {
      hide Valid;
      match i.inner {
        case Ready(Some(Ok(block))) =>
          var chunk := block;
          if block.ToolCall? {
            var local := RunLocalTool(i.hooks, block);
            if local.Err? {
              Pass(i);
              return Ready(Some(Err(local.error)));
            }
            chunk := local.value;
          }
          var hooked := RunChunkHooks(i.hooks, chunk);
          if hooked.Err? {
            Pass(i);
            return Ready(Some(Err(hooked.error)));
          }
          chunk := hooked.value;
          Accumulate(i, chunk);
          return Ready(Some(Ok(chunk)));
        case Ready(Some(Err(e))) =>
          Pass(i);
          return Ready(Some(Err(e)));
        case Ready(None) =>
          EndOfStream(i);
          return Ready(None);
        case Pending =>
          Pass(i);
          return Pending;
      }
    }
  }

  // -------------------------------------------------------- one more poll

  lemma AnswersMore(inputs: seq<Input>, i: Input)
    ensures Answers(inputs + [i]) == Answers(inputs) + [Answer(i)]
  {
    hide Answer;
  }

  lemma BlocksMore(answers: seq<Polled>, a: Polled)
    ensures Blocks(answers + [a]) ==
              if a.Ready? && a.item.Some? && a.item.value.Ok? then Blocks(answers) + [a.item.value.value]
              else Blocks(answers)
  {
    assert (answers + [a])[..|answers|] == answers;
  }

  lemma ErrorMore(answers: seq<Polled>, a: Polled)
    ensures HasError(answers + [a]) <==> HasError(answers) || IsError(a)
  {
    hide IsError;
    var more := answers + [a];
    if HasError(answers) {
      var j :| 0 <= j < |answers| && IsError(answers[j]);
      assert IsError(more[j]);
    }
    if IsError(a) { assert IsError(more[|answers|]); }
  }

  lemma NotEndedMore(inputs: seq<Input>, i: Input)
    ensures NotEnded(inputs + [i]) <==> NotEnded(inputs) && Answer(i) != Ready(None)
  {
    hide Answer;
    var more := inputs + [i];
    assert more[|inputs|] == i;
    if NotEnded(more) {
      forall j | 0 <= j < |inputs| ensures Answer(inputs[j]) != Ready(None) { assert more[j] == inputs[j]; }
    }
  }

  /** How one more poll changes what the polls say. */
  lemma OneMorePoll(inputs: seq<Input>, i: Input)
    ensures var more := inputs + [i];
            && Answers(more) == Answers(inputs) + [Answer(i)]
            && Blocks(Answers(more)) ==
                 (var a, before := Answer(i), Blocks(Answers(inputs));
                  if a.Ready? && a.item.Some? && a.item.value.Ok? then before + [a.item.value.value] else before)
            && (HasError(Answers(more)) <==> HasError(Answers(inputs)) || IsError(Answer(i)))
            && more[..|inputs|] == inputs && more[|inputs|] == i
            && (NotEnded(more) <==> NotEnded(inputs) && Answer(i) != Ready(None))
  {
    hide Answer, Answers, Blocks, HasError, IsError, NotEnded;
    AnswersMore(inputs, i);
    BlocksMore(Answers(inputs), Answer(i));
    ErrorMore(Answers(inputs), Answer(i));
    NotEndedMore(inputs, i);
  }
}
