/** The cache around the instrumented stream: which completions are recorded, and what a later hit replays. */
module Replay {
  import opened Common
  import opened Stream

  // -------------------------------------------------------- exactly once

  function FirstEnd(inputs: seq<Input>): (r: Option<nat>)
    ensures r.Some? <==> !NotEnded(inputs)
    ensures r.Some? ==> EndsAt(inputs, r.value)
  {
    if inputs == [] then None
    else
      var last := |inputs| - 1;
      assert inputs == inputs[..last] + [inputs[last]];
      OneMorePoll(inputs[..last], inputs[last]);
      match FirstEnd(inputs[..last])
      case Some(k) =>
        assert inputs[..k] == inputs[..last][..k];
        Some(k)
      case None =>
        if Answer(inputs[last]) == Ready(None) then Some(last) else None
  }

  lemma EndIsUnique(inputs: seq<Input>, j: nat, k: nat)
    requires EndsAt(inputs, j) && EndsAt(inputs, k)
    ensures j == k
  {
    assert forall i :: 0 <= i < k ==> Answer(inputs[..k][i]) == Answer(inputs[i]);
    assert forall i :: 0 <= i < j ==> Answer(inputs[..j][i]) == Answer(inputs[i]);
  }

  /** The responses one plugin's terminal hook was called with, in order. */
  function SeenBy(calls: seq<(nat, Response)>, plugin: nat): seq<Response> {
    if calls == [] then []
    else
      var c := calls[|calls| - 1];
      SeenBy(calls[..|calls| - 1], plugin) + if c.0 == plugin then [c.1] else []
  }

  lemma {:induction false} SeenOnce(plugins: nat, r: Response, plugin: nat)
    ensures SeenBy(HookCalls(plugins, r), plugin) == if plugin < plugins then [r] else []
  {
    if plugins > 0 {
      assert HookCalls(plugins, r)[..plugins - 1] == HookCalls(plugins - 1, r);
      SeenOnce(plugins - 1, r, plugin);
    }
  }

  /**
    For every sequence of polls, inner streams that yield again after their end included: each plugin's terminal hook
    ran exactly once if the end was reached and never otherwise, on a response holding exactly the blocks delivered
    before the end, counted block by block unless the provider reported usage; the caller's handle got that response.
   */
  lemma ExactlyOnceCompletion<Req>(s: PluginStream<Req>, plugin: nat)
    requires s.Valid() && plugin < s.plugins
    ensures match FirstEnd(s.inputs)
            case None => SeenBy(s.world.hookCalls, plugin) == [] && s.world.handle == None && s.world.offered == []
            case Some(k) =>
              exists r: Response ::
                && SeenBy(s.world.hookCalls, plugin) == [r]
                && s.world.handle == (if s.wantsHandle then Some(r) else None)
                && r.content == Blocks(Answers(s.inputs[..k]))
                && r.usage == s.inputs[k].metadata.usage
                && r.model == s.model && r.provider == s.provider && r.duration == s.inputs[k].elapsed
                && r.cacheUsage == s.inputs[k].metadata.cacheUsage
                && r.promptTokens == (if r.usage.Some? then r.usage.value.prompt else 0)
                && r.completionTokens == (if r.usage.Some? then r.usage.value.completion else CountGenerated(r.content))
                && (s.request0.Some? && !HasError(Answers(s.inputs[..k])) <==> s.world.offered != [])
                && (s.request0.Some? ==> s.world.offered <= [(s.request0.value, r)])
  {
    EndOfValid(s);
    hide Answers, Blocks, HasError, CountGenerated, NotEnded, EndsAt, HookCalls, FirstEnd;
    match FirstEnd(s.inputs)
    case None =>
    case Some(k) =>
      var r := FinalResponse(s.model, s.provider, s.inputs, k);
      SeenOnce(s.plugins, r, plugin);
      assert SeenBy(s.world.hookCalls, plugin) == [r];
  }

  lemma EndOfValid<Req>(s: PluginStream<Req>)
    requires s.Valid()
    ensures s.end == FirstEnd(s.inputs)
    ensures s.world == Outcome(s.plugins, s.request0, s.wantsHandle, s.model, s.provider, s.inputs, FirstEnd(s.inputs))
  {
    if s.end.Some? {
      NotYetBefore(s.inputs, s.end.value);
      EndIsUnique(s.inputs, s.end.value, FirstEnd(s.inputs).value);
    }
  }

  lemma NotYetBefore(inputs: seq<Input>, k: nat)
    requires EndsAt(inputs, k)
    ensures FirstEnd(inputs).Some?
  {
    assert Answer(inputs[k]) == Ready(None);
  }

  // -------------------------------------------------------- the pipeline

  type Cache<Key> = map<Key, Response>

  /** Request hooks in registration order; the first failure ends the turn. */
  function RequestHooks<Req>(hooks: seq<Req -> Result<Req, string>>, request: Req): Result<Req, string> {
    if hooks == [] then Ok(request)
    else
      match hooks[0](request)
      case Err(e) => Err(e)
      case Ok(r) => RequestHooks(hooks[1..], r)
  }

  type Digest<!Req, Key> = Req -> Result<Key, string>

  /** What the cache service answers for a key; it can fail. */
  type Lookup<!Key> = Key -> Result<Option<Response>, string>

  /** The lookup of a cache that works. */
  function Reading<Key>(cache: Cache<Key>): Lookup<Key> {
    (key: Key) => Ok(if key in cache then Some(cache[key]) else None)
  }

  /** A turn fails before dispatch, is answered from the cache, or goes to a provider with the request to write back. */
  datatype Route<Req> = Failed(message: string) | Hit(stored: Response) | Dispatch(request: Req, writeBack: Option<Req>)

  function RouteOf<Req, Key>(hooks: seq<Req -> Result<Req, string>>, lookup: Option<Lookup<Key>>,
                             digest: Digest<Req, Key>, request: Req): Route<Req>
  {
    match RequestHooks(hooks, request)
    case Err(e) => Failed(e)
    case Ok(r) =>
      if lookup.None? then Dispatch(r, None)
      else
        match digest(r)
        case Err(e) => Failed(e)
        case Ok(key) =>
          match lookup.value(key)
          case Err(e) => Failed(e)
          case Ok(None) => Dispatch(r, Some(r))
          case Ok(Some(stored)) => Hit(stored)
  }

  method RunPipeline<Req, Key>(hooks: seq<Req -> Result<Req, string>>, lookup: Option<Lookup<Key>>,
                               digest: Digest<Req, Key>, request: Req)
    returns (route: Route<Req>)
    ensures route == RouteOf(hooks, lookup, digest, request)
    ensures route.Dispatch? ==>
              && RequestHooks(hooks, request) == Ok(route.request)
              && route.writeBack == (if lookup.None? then None else Some(route.request))
    ensures route.Hit? ==>
              var effective := RequestHooks(hooks, request);
              && effective.Ok? && lookup.Some? && digest(effective.value).Ok?
              && lookup.value(digest(effective.value).value) == Ok(Some(route.stored))
  {
    var effective := request;
    for i := 0 to |hooks|
      invariant RequestHooks(hooks, request) == RequestHooks(hooks[i..], effective)
    {
      var hooked := hooks[i](effective);
      assert hooks[i..][1..] == hooks[i + 1..];
      if hooked.Err? { return Failed(hooked.error); }
      effective := hooked.value;
    }
    if lookup.None? { return Dispatch(effective, None); }
    var key := digest(effective);
    if key.Err? { return Failed(key.error); }
    var entry := lookup.value(key.value);
    if entry.Err? { return Failed(entry.error); }
    if entry.value.Some? { return Hit(entry.value.value); }
    route := Dispatch(effective, Some(effective));
  }

  /** The cache after the writes a stream offered; a request without a digest is not stored. */
  function Store<Req, Key>(cache: Cache<Key>, digest: Digest<Req, Key>, writes: seq<(Req, Response)>): Cache<Key>
    decreases |writes|
  {
    if writes == [] then cache
    else
      var key := digest(writes[0].0);
      Store(if key.Ok? then cache[key.value := writes[0].1] else cache, digest, writes[1..])
  }

  // ------------------------------------------------------------ the replay

  /** What poll number `n` of a replay of `stored` answers. */
  function ReplayAnswer(stored: Response, n: nat): Polled {
    if n < |stored.content| then Ready(Some(Ok(stored.content[n]))) else Ready(None)
  }

  /** The world after the polls with these clock readings: one completion, at the first poll past the blocks. */
  function ReplayOutcome<Req>(plugins: nat, wantsHandle: bool, stored: Response, polls: seq<nat>): World<Req> {
    if |polls| <= |stored.content| then World([], [], None)
    else
      var r := stored.(duration := polls[|stored.content|]);
      World(HookCalls(plugins, r), [], if wantsHandle then Some(r) else None)
  }

  class CacheHitStream<Req> {
    const plugins: nat
    const wantsHandle: bool
    const stored: Response
    var blocks: seq<Block>     // not yet replayed
    var response: Response
    var done: bool
    var completed: bool
    var world: World<Req>
    ghost var polls: seq<nat>

    ghost predicate Valid()
      reads this
    {
      && blocks == (if |polls| <= |stored.content| then stored.content[|polls|..] else [])
      && (done <==> |polls| > |stored.content|)
      && (!done ==> response == stored && (completed <==> wantsHandle))
      && world == ReplayOutcome(plugins, wantsHandle, stored, polls)
    }

    constructor (plugins: nat, stored: Response, wantsHandle: bool)
      ensures Valid() && polls == [] && this.plugins == plugins && this.stored == stored
              && this.wantsHandle == wantsHandle
    {
      this.plugins, this.stored, this.wantsHandle := plugins, stored, wantsHandle;
      blocks, response, done, completed := stored.content, stored, false, wantsHandle;
      world, polls := World([], [], None), [];
    }

    /** A stored block while there are some; past them, one completion and then only the end. */
    method PollNext(elapsed: nat) returns (answer: Polled)
      requires Valid()
      modifies this
      ensures Valid() && polls == old(polls) + [elapsed]
      ensures answer == ReplayAnswer(stored, |old(polls)|)
    {
      polls := polls + [elapsed];
      if blocks != [] {
        var block := blocks[0];
        blocks := blocks[1..];
        return Ready(Some(Ok(block)));
      }
      if !done {
        done := true;
        response := response.(duration := elapsed);
        world := RunCompletionHooks(plugins, response, world);
        completed, response, world := PublishResponse(completed, response, world);
      }
      answer := Ready(None);
    }
  }

  function ReplayAnswers(stored: Response, n: nat): seq<Polled> {
    seq(n, i requires 0 <= i < n => ReplayAnswer(stored, i))
  }

  /** Replaying past the end hands out the stored blocks, all of them, in order. */
  lemma {:induction false} ReplayedBlocks(stored: Response, n: nat)
    ensures Blocks(ReplayAnswers(stored, n)) == if n <= |stored.content| then stored.content[..n] else stored.content
    ensures !HasError(ReplayAnswers(stored, n))
  {
    if n > 0 {
      assert ReplayAnswers(stored, n)[..n - 1] == ReplayAnswers(stored, n - 1);
      ReplayedBlocks(stored, n - 1);
    }
  }

  /**
    Record and replay: on a miss, the turn is recorded exactly when its stream reached its end with no error item
    before it. A later turn, of any plugins and any request whose effective form has the same digest, then hits, as
    long as only other keys were stored in between: its consumer receives exactly the blocks the first one did, every
    plugin completes once on the same response up to the time it took, and the handle receives that response.
   */
  lemma RecordReplay<Req, Key>(hooks: seq<Req -> Result<Req, string>>, cache: Cache<Key>, digest: Digest<Req, Key>,
                               request: Req, s: PluginStream<Req>, later: Cache<Key>,
                               hooks2: seq<Req -> Result<Req, string>>, request2: Req,
                               plugins2: nat, replayPolls: seq<nat>, wantsHandle: bool)
    requires s.Valid()
    requires RouteOf(hooks, Some(Reading(cache)), digest, request).Dispatch?
    requires s.request0 == RouteOf(hooks, Some(Reading(cache)), digest, request).writeBack
    requires var second := RequestHooks(hooks2, request2);
             && second.Ok? && digest(second.value) == digest(RequestHooks(hooks, request).value)
             && SameAt(Store(cache, digest, s.world.offered), later, digest(second.value).value)
    ensures var end := FirstEnd(s.inputs);
            var again := RouteOf(hooks2, Some(Reading(later)), digest, request2);
            && (again.Hit? <==> end.Some? && !HasError(Answers(s.inputs[..end.value])))
            && (again.Hit? ==>
                  && again.stored == FinalResponse(s.model, s.provider, s.inputs, end.value)
                  && (|replayPolls| > |again.stored.content| ==>
                        var outcome := ReplayOutcome<Req>(plugins2, wantsHandle, again.stored, replayPolls);
                        var seen := again.stored.(duration := replayPolls[|again.stored.content|]);
                        && Blocks(ReplayAnswers(again.stored, |replayPolls|)) == Blocks(Answers(s.inputs[..end.value]))
                        && outcome.hookCalls == HookCalls(plugins2, seen)
                        && outcome.handle == if wantsHandle then Some(seen) else None))
  {
    EndOfValid(s);
    var r := RequestHooks(hooks, request).value;
    var end := FirstEnd(s.inputs);
    hide Answers, Blocks, HasError, CountGenerated, NotEnded, EndsAt, FirstEnd, RequestHooks;
    if end.Some? && !HasError(Answers(s.inputs[..end.value])) {
      var stored := FinalResponse(s.model, s.provider, s.inputs, end.value);
      assert s.world.offered == [(r, stored)];
      assert s.world.offered[1..] == [];
      assert Store(cache, digest, s.world.offered) == cache[digest(r).value := stored];
      ReplayedBlocks(stored, |replayPolls|);
    } else {
      assert s.world.offered == [];
    }
  }

  /** Two caches agree about one key. */
  predicate SameAt<Key>(a: Cache<Key>, b: Cache<Key>, key: Key) {
    (key in a <==> key in b) && (key in a ==> a[key] == b[key])
  }
}
