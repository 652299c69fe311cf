/**
  The child registry of `src/plugins/subagent.rs`: unique ids, a bounded set of pending children, a rolling spawn
  log.
*/
module Subagent {
  import opened Common
  import opened Text
  import opened Unicode

  const MAX_SPAWN_LOG: nat := 4096

  /** The spawn counter is an `AtomicU64`. */
  const WORD: nat := 0x1_0000_0000_0000_0000

  // ----------------------------------------------------------------- data

  /** Session id and worktree path of one spawn. */
  datatype LogEntry = LogEntry(session: Option<Bytes>, worktree: Option<Bytes>)

  /** A spawn request; `worktree` is how preparing the requested worktree ends. */
  datatype Spec = Spec(task: Bytes, session: Option<Bytes>, worktree: Option<Result<Bytes, string>>)

  datatype Error = Blank | NoWorktree(message: string) | Full | Unknown | Died

  /** `pending` maps an id to the channel of its child; channels are numbered as background tasks are started. */
  datatype Registry = Registry(pending: map<Bytes, nat>, counter: nat, started: nat, log: seq<LogEntry>)

  const EMPTY := Registry(map[], 0, 0, [])

  /** `sub-<n>` for the wrapping counter. */
  function IdOf(n: nat): Bytes { [115, 117, 98, 45] + Decimal(n % WORD) }

  function Rolled(log: seq<LogEntry>): seq<LogEntry>
    decreases |log|
  {
    if |log| < MAX_SPAWN_LOG then log else Rolled(log[1..])
  }

  function Refusal(maxPending: nat, r: Registry, spec: Spec): Option<Error> {
    if Trim(spec.task) == [] then Some(Blank)
    else if spec.worktree.Some? && spec.worktree.value.Err? then Some(NoWorktree(spec.worktree.value.error))
    else if |r.pending| >= maxPending then Some(Full)
    else None
  }

  function EntryOf(spec: Spec): LogEntry
    requires spec.worktree.Some? ==> spec.worktree.value.Ok?
  {
    LogEntry(spec.session, if spec.worktree.Some? then Some(spec.worktree.value.value) else None)
  }

  /** The first lock section of a spawn: the child gets its id and its channel. */
  function Registered(r: Registry): Registry {
    Registry(r.pending[IdOf(r.counter) := r.started], (r.counter + 1) % WORD, r.started + 1, r.log)
  }

  /** The second one: the spawn is logged. */
  function Logged(r: Registry, entry: LogEntry): Registry { r.(log := Rolled(r.log) + [entry]) }

  function Taken(r: Registry, id: Bytes): Registry { r.(pending := r.pending - {id}) }

  /**
    A task of white space only is refused before anything is prepared, then a worktree that cannot be prepared, and last
    a full registry.
   */
  lemma RefusedIff(maxPending: nat, r: Registry, spec: Spec, task: seq<nat>)
    requires Scalars(task) && spec.task == EncodeAll(task)
    ensures Refusal(maxPending, r, spec) == Some(Blank) <==> AllWhite(task)
    ensures forall message ::
              Refusal(maxPending, r, spec) == Some(NoWorktree(message)) <==>
                !AllWhite(task) && spec.worktree == Some(Result.Err(message))
    ensures Refusal(maxPending, r, spec) == Some(Full) <==>
              !AllWhite(task) && !(spec.worktree.Some? && spec.worktree.value.Err?) && |r.pending| >= maxPending
  {
    BlankIffWhite(task);
    hide Trim, AllWhite, EncodeAll;
  }

  /** An admitted spawn is pending under the next id, and its own entry is the newest of the log. */
  lemma SpawnRecorded(r: Registry, spec: Spec)
    requires spec.worktree.Some? ==> spec.worktree.value.Ok?
    ensures var after := Logged(Registered(r), EntryOf(spec));
            var id := Ascii("sub-") + Decimal(r.counter % 0x1_0000_0000_0000_0000);
            && id in after.pending && after.pending[id] == r.started
            && after.log != [] && |after.log| <= 4096
            && after.log[|after.log| - 1].session == spec.session
            && (spec.worktree.None? ==> after.log[|after.log| - 1].worktree == None)
            && (spec.worktree.Some? ==> after.log[|after.log| - 1].worktree == Some(spec.worktree.value.value))
  {
    hide Decimal;
    assert Ascii("sub-") == [115, 117, 98, 45];
    RolledShort(r.log);
  }

  lemma {:induction false} RolledShort(log: seq<LogEntry>)
    ensures |Rolled(log)| < MAX_SPAWN_LOG
    decreases |log|
  {
    if |log| >= MAX_SPAWN_LOG { RolledShort(log[1..]); }
  }

  // ------------------------------------------------------------ the plugin

  class SubagentPlugin<Outcome> {
    const maxPending: nat
    /** What the task behind each channel finally sends; `None` when it dies first. */
    const delivered: nat -> Option<Outcome>
    var pending: map<Bytes, nat>
    var counter: nat
    var started: nat
    var log: seq<LogEntry>

    constructor (maxPending: nat, delivered: nat -> Option<Outcome>)
      ensures View() == EMPTY && this.maxPending == maxPending && this.delivered == delivered
    {
      this.maxPending, this.delivered := maxPending, delivered;
      pending, counter, started, log := map[], 0, 0, [];
    }

    function View(): Registry
      reads this
    {
      Registry(pending, counter, started, log)
    }

    /** The registry lock: a full registry refuses, and otherwise the child is pending from here on. */
    method Register() returns (id: Option<Bytes>)
      modifies this`pending, this`counter, this`started
      ensures id.None? <==> old(|pending|) >= maxPending
      ensures id.Some? ==> id.value == IdOf(old(counter))
      ensures View() == if id.Some? then Registered(old(View())) else old(View())
    {
      if |pending| >= maxPending {
        return None;
      }
      var next := IdOf(counter);
      counter := (counter + 1) % WORD;
      pending, started := pending[next := started], started + 1;
      id := Some(next);
    }

    /** The log lock: the oldest entries make room for the new one. */
    method LogSpawn(entry: LogEntry)
      modifies this`log
      ensures View() == Logged(old(View()), entry)
    {
      while |log| >= MAX_SPAWN_LOG
        invariant Rolled(log) == Rolled(old(log))
        decreases |log|
      {
        log := log[1..];
      }
      log := log + [entry];
    }

    /** A spawn nobody interleaves with: both sections, or a refusal that changes nothing. */
    method SpawnSubagent(spec: Spec) returns (r: Result<Bytes, Error>)
      modifies this
      ensures var refusal := Refusal(maxPending, old(View()), spec);
              && r == (if refusal.Some? then Err(refusal.value) else Ok(IdOf(old(counter))))
              && View() == if refusal.Some? then old(View()) else Logged(Registered(old(View())), EntryOf(spec))
    {
      if Trim(spec.task) == [] {
        return Err(Blank);
      }
      var worktree := None;
      if spec.worktree.Some? {
        if spec.worktree.value.Err? {
          return Err(NoWorktree(spec.worktree.value.error));
        }
        worktree := Some(spec.worktree.value.value);
      }
      var id := Register();
      if id.None? {
        return Err(Full);
      }
      LogSpawn(LogEntry(spec.session, worktree));
      r := Ok(id.value);
    }

    method Collect(id: Bytes) returns (r: Result<Outcome, Error>)
      modifies this
      ensures View() == Taken(old(View()), id)
      ensures r == if id !in old(pending) then Err(Unknown)
                   else
                     var sent := delivered(old(pending)[id]);
                     if sent.Some? then Ok(sent.value) else Err(Died)
    {
      if id !in pending {
        assert pending - {id} == pending;
        return Err(Unknown);
      }
      var channel := pending[id];
      pending := pending - {id};
      var sent := delivered(channel);
      r := if sent.Some? then Ok(sent.value) else Err(Died);
    }
  }

  // ------------------------------------------------------------------ runs

  /** One lock section of any thread: a spawn's registration, a registered child's log entry, or a collection. */
  datatype Step = Register(spec: Spec) | Log(child: nat) | Collect(id: Bytes)

  /** The registry, and the children whose spawning threads stand between their two sections. */
  datatype World = World(registry: Registry, unlogged: map<nat, LogEntry>)

  predicate Accepted(maxPending: nat, w: World, s: Step) {
    s.Register? && Refusal(maxPending, w.registry, s.spec).None?
  }

  function Next(maxPending: nat, w: World, s: Step): World {
    match s
    case Register(spec) =>
      if Accepted(maxPending, w, s)
      then World(Registered(w.registry), w.unlogged[w.registry.started := EntryOf(spec)])
      else w
    case Log(child) =>
      if child in w.unlogged
      then World(Logged(w.registry, w.unlogged[child]), w.unlogged - {child})
      else w
    case Collect(id) => w.(registry := Taken(w.registry, id))
  }

  function Run(maxPending: nat, steps: seq<Step>): World {
    if steps == [] then World(EMPTY, map[])
    else Next(maxPending, Run(maxPending, steps[..|steps| - 1]), steps[|steps| - 1])
  }

  /** The log entries of the registered children, in registration order. */
  function Children(maxPending: nat, steps: seq<Step>): seq<LogEntry> {
    if steps == [] then []
    else
      var front, s := steps[..|steps| - 1], steps[|steps| - 1];
      if Accepted(maxPending, Run(maxPending, front), s)
      then Children(maxPending, front) + [EntryOf(s.spec)]
      else Children(maxPending, front)
  }

  /** The ids that were collected successfully, in order. */
  function Collected(maxPending: nat, steps: seq<Step>): seq<Bytes> {
    if steps == [] then []
    else
      var front, s := steps[..|steps| - 1], steps[|steps| - 1];
      if s.Collect? && s.id in Run(maxPending, front).registry.pending
      then Collected(maxPending, front) + [s.id]
      else Collected(maxPending, front)
  }

  // ------------------------------------------------------------------- ids

  /** Two spawns get the same id exactly when the 64-bit counter came round in between. */
  lemma SameIdIffWrapped(a: nat, b: nat)
    ensures IdOf(a) == IdOf(b) <==> a % WORD == b % WORD
  {
    if IdOf(a) == IdOf(b) {
      assert IdOf(a)[4..] == Decimal(a % WORD) && IdOf(b)[4..] == Decimal(b % WORD);
      DecimalValue(a % WORD);
      DecimalValue(b % WORD);
    }
  }

  lemma SmallModulo(n: nat)
    requires n < WORD
    ensures n % WORD == n
  {
  }

  lemma NextModulo(n: nat)
    ensures (n % WORD + 1) % WORD == (n + 1) % WORD
  {
  }

  lemma ModuloTwice(n: nat)
    ensures n % WORD % WORD == n % WORD
  {
  }

  /** The counter's id is the id of the next child's number. */
  lemma CounterId(n: nat)
    ensures IdOf(n % WORD) == IdOf(n)
  {
    ModuloTwice(n);
  }

  lemma DistinctIds(a: nat, b: nat)
    requires a < WORD && b < WORD && IdOf(a) == IdOf(b)
    ensures a == b
  {
    SameIdIffWrapped(a, b);
    SmallModulo(a);
    SmallModulo(b);
  }

  // --------------------------------------------------------------- numbers

  /** In every interleaving, channels are numbered by registrations and the counter wraps with them. */
  lemma {:induction false} ChildrenNumbered(maxPending: nat, steps: seq<Step>)
    ensures var r, c := Run(maxPending, steps).registry, Children(maxPending, steps);
            r.started == |c| && r.counter == |c| % WORD
  {
    hide Refusal, IdOf, Rolled, EntryOf, WORD;
    if steps == [] {
      ZeroModulo();
    } else {
      ChildrenNumbered(maxPending, steps[..|steps| - 1]);
      NextModulo(|Children(maxPending, steps[..|steps| - 1])|);
    }
  }

  lemma ZeroModulo()
    ensures 0 % WORD == 0
  {
  }

  lemma NotRefused(maxPending: nat, r: Registry, spec: Spec)
    requires Refusal(maxPending, r, spec).None?
    ensures spec.worktree.Some? ==> spec.worktree.value.Ok?
    ensures |r.pending| < maxPending
  {
  }

  // -------------------------------------------------------------- registry

  ghost predicate Distinct(ids: seq<Bytes>) { forall i, j :: 0 <= i < j < |ids| ==> ids[i] != ids[j] }

  /** Pending children are spawned ones under their own ids, and of the spawned ones exactly those not collected. */
  ghost predicate Books(pending: map<Bytes, nat>, n: nat, collected: seq<Bytes>) {
    && (forall id :: id in pending ==> pending[id] < n && id == IdOf(pending[id]))
    && (forall k: nat :: k < n ==> (IdOf(k) in pending <==> IdOf(k) !in collected))
    && (forall i :: 0 <= i < |collected| ==> exists k: nat :: k < n && collected[i] == IdOf(k))
    && Distinct(collected)
    && |pending| + |collected| == n
  }

  lemma BooksSpawn(pending: map<Bytes, nat>, n: nat, collected: seq<Bytes>)
    requires Books(pending, n, collected) && n < WORD
    ensures Books(pending[IdOf(n) := n], n + 1, collected)
  {
    hide IdOf, WORD;
    forall k: nat | k < n ensures IdOf(k) != IdOf(n) { if IdOf(k) == IdOf(n) { DistinctIds(k, n); } }
    assert IdOf(n) !in pending;
    assert IdOf(n) !in collected;
  }

  lemma BooksCollect(pending: map<Bytes, nat>, n: nat, collected: seq<Bytes>, id: Bytes)
    requires Books(pending, n, collected) && id in pending
    ensures Books(pending - {id}, n, collected + [id])
  {
    hide IdOf, WORD;
    assert id == IdOf(pending[id]) && id !in collected;
    assert pending == (pending - {id})[id := pending[id]];
  }

  lemma {:induction false} BooksRun(maxPending: nat, steps: seq<Step>)
    requires |Children(maxPending, steps)| <= WORD
    ensures Books(Run(maxPending, steps).registry.pending, |Children(maxPending, steps)|, Collected(maxPending, steps))
    ensures |Run(maxPending, steps).registry.pending| <= maxPending
  {
    hide Refusal, IdOf, Rolled, Books, WORD;
    if steps == [] {
      NoBooks();
    } else {
      var front, s := steps[..|steps| - 1], steps[|steps| - 1];
      var w, n, collected := Run(maxPending, front), |Children(maxPending, front)|, Collected(maxPending, front);
      var r := w.registry;
      BooksRun(maxPending, front);
      if s.Register? {
        if Accepted(maxPending, w, s) {
          ChildrenNumbered(maxPending, front);
          CounterId(n);
          NotRefused(maxPending, r, s.spec);
          BooksSpawn(r.pending, n, collected);
        }
      } else if s.Log? {
      } else if s.id in r.pending {
        BooksCollect(r.pending, n, collected, s.id);
      } else {
        assert r.pending - {s.id} == r.pending;
      }
    }
  }

  lemma NoBooks()
    ensures Books(map[], 0, [])
  {
  }

  /**
    In every interleaving of up to 2^64 spawns: the pending children are the spawned ones not yet collected, each
    waiting on its own channel; no id is collected twice; every spawned child is pending or collected; the cap holds.
   */
  lemma RegistryRuns(maxPending: nat, steps: seq<Step>)
    requires |Children(maxPending, steps)| <= WORD
    ensures var r, n, collected := Run(maxPending, steps).registry, |Children(maxPending, steps)|,
                                   Collected(maxPending, steps);
            && (forall k: nat :: k < n && IdOf(k) !in collected ==> IdOf(k) in r.pending && r.pending[IdOf(k)] == k)
            && (forall id :: id in r.pending ==> id !in collected && exists k: nat :: k < n && id == IdOf(k))
            && Distinct(collected)
            && (forall i :: 0 <= i < |collected| ==> exists k: nat :: k < n && collected[i] == IdOf(k))
            && n == |r.pending| + |collected| && |r.pending| <= maxPending
  {
    hide Refusal, IdOf, WORD, Run, Children, Collected;
    BooksRun(maxPending, steps);
    var r, n := Run(maxPending, steps).registry, |Children(maxPending, steps)|;
    forall k: nat | k < n && IdOf(k) in r.pending ensures r.pending[IdOf(k)] == k {
      DistinctIds(r.pending[IdOf(k)], k);
    }
  }
}
