/** What the spawn log says about concurrent spawns, whose registration and logging are separate lock sections. */
module SubagentLog {
  import opened Common
  import opened Text
  import opened Subagent

  /** The children that were logged, by registration number, in the order their log sections ran. */
  function LogOrder(maxPending: nat, steps: seq<Step>): seq<nat> {
    if steps == [] then []
    else
      var front, s := steps[..|steps| - 1], steps[|steps| - 1];
      if s.Log? && s.child in Run(maxPending, front).unlogged
      then LogOrder(maxPending, front) + [s.child]
      else LogOrder(maxPending, front)
  }

  function Recent(entries: seq<LogEntry>): seq<LogEntry> {
    if |entries| <= MAX_SPAWN_LOG then entries else entries[|entries| - MAX_SPAWN_LOG..]
  }

  lemma RolledRecent(entries: seq<LogEntry>, e: LogEntry)
    ensures Rolled(Recent(entries)) + [e] == Recent(entries + [e])
  {
    var r := Recent(entries);
    if |r| == MAX_SPAWN_LOG {
      assert Rolled(r) == r[1..];
    }
  }

  predicate Within(order: seq<nat>, n: nat) { forall i :: 0 <= i < |order| ==> order[i] < n }

  function EntriesAt(children: seq<LogEntry>, order: seq<nat>): seq<LogEntry>
    requires Within(order, |children|)
  {
    seq(|order|, i requires 0 <= i < |order| => children[order[i]])
  }

  predicate Once(order: seq<nat>) { forall i, j :: 0 <= i < j < |order| ==> order[i] != order[j] }

  /** Every registered child is either logged, once, or between its two sections. */
  ghost predicate Filed(unlogged: map<nat, LogEntry>, children: seq<LogEntry>, order: seq<nat>) {
    && Within(order, |children|) && Once(order)
    && (forall k :: k in unlogged ==> k < |children| && unlogged[k] == children[k] && k !in order)
    && (forall k: nat :: k < |children| ==> k in unlogged || k in order)
    && |unlogged| + |order| == |children|
  }

  lemma FiledRegister(unlogged: map<nat, LogEntry>, children: seq<LogEntry>, order: seq<nat>, e: LogEntry)
    requires Filed(unlogged, children, order)
    ensures Filed(unlogged[|children| := e], children + [e], order)
    ensures EntriesAt(children + [e], order) == EntriesAt(children, order)
  {
    assert |children| !in unlogged;
  }

  lemma FiledLog(unlogged: map<nat, LogEntry>, children: seq<LogEntry>, order: seq<nat>, k: nat)
    requires Filed(unlogged, children, order) && k in unlogged
    ensures Filed(unlogged - {k}, children, order + [k])
    ensures EntriesAt(children, order + [k]) == EntriesAt(children, order) + [unlogged[k]]
  {
    assert unlogged == (unlogged - {k})[k := unlogged[k]];
    assert (order + [k])[|order|] == k;
    forall i: nat | i < |children| ensures i in unlogged - {k} || i in order + [k] {
      if i in order { var j :| 0 <= j < |order| && order[j] == i; assert (order + [k])[j] == i; }
    }
  }

  lemma NothingFiled()
    ensures Filed(map[], [], []) && Recent(EntriesAt([], [])) == []
  {
  }

  /** The children, the unlogged ones, and the log, together. */
  ghost predicate LogSound(w: World, children: seq<LogEntry>, order: seq<nat>) {
    Filed(w.unlogged, children, order) && w.registry.log == Recent(EntriesAt(children, order))
  }

  lemma SoundRegister(maxPending: nat, w: World, children: seq<LogEntry>, order: seq<nat>, s: Step)
    requires LogSound(w, children, order) && w.registry.started == |children| && Accepted(maxPending, w, s)
    ensures LogSound(Next(maxPending, w, s), children + [EntryOf(s.spec)], order)
  {
    NotRefused(maxPending, w.registry, s.spec);
    hide Filed, Refusal, Recent, IdOf, WORD, EntriesAt;
    WithinOf(w.unlogged, children, order);
    FiledRegister(w.unlogged, children, order, EntryOf(s.spec));
    WithinOf(w.unlogged[|children| := EntryOf(s.spec)], children + [EntryOf(s.spec)], order);
  }

  lemma SoundLog(maxPending: nat, w: World, children: seq<LogEntry>, order: seq<nat>, s: Step)
    requires LogSound(w, children, order) && s.Log? && s.child in w.unlogged
    ensures LogSound(Next(maxPending, w, s), children, order + [s.child])
  {
    hide Filed, Refusal, Recent, Rolled, EntriesAt, Within;
    WithinOf(w.unlogged, children, order);
    FiledLog(w.unlogged, children, order, s.child);
    WithinOf(w.unlogged - {s.child}, children, order + [s.child]);
    RolledRecent(EntriesAt(children, order), w.unlogged[s.child]);
  }

  lemma SoundOther(maxPending: nat, w: World, children: seq<LogEntry>, order: seq<nat>, s: Step)
    requires LogSound(w, children, order) && !Accepted(maxPending, w, s) && !(s.Log? && s.child in w.unlogged)
    ensures LogSound(Next(maxPending, w, s), children, order)
  {
    hide Filed, Refusal, Recent, Rolled, EntriesAt, Within, Accepted;
    WithinOf(w.unlogged, children, order);
  }

  lemma WithinOf(unlogged: map<nat, LogEntry>, children: seq<LogEntry>, order: seq<nat>)
    requires Filed(unlogged, children, order)
    ensures Within(order, |children|)
  {
  }

  lemma {:induction false} LogSoundRun(maxPending: nat, steps: seq<Step>)
    ensures LogSound(Run(maxPending, steps), Children(maxPending, steps), LogOrder(maxPending, steps))
  {
    if steps == [] {
      NothingSound();
    } else {
      hide LogSound, Next, Refusal;
      var front, s := steps[..|steps| - 1], steps[|steps| - 1];
      var w, children, order := Run(maxPending, front), Children(maxPending, front), LogOrder(maxPending, front);
      LogSoundRun(maxPending, front);
      ChildrenNumbered(maxPending, front);
      if Accepted(maxPending, w, s) {
        SoundRegister(maxPending, w, children, order, s);
      } else if s.Log? && s.child in w.unlogged {
        SoundLog(maxPending, w, children, order, s);
      } else {
        SoundOther(maxPending, w, children, order, s);
      }
    }
  }

  lemma NothingSound()
    ensures LogSound(World(EMPTY, map[]), [], [])
  {
    hide Filed;
    NothingFiled();
  }

  /**
    In every interleaving of spawning threads: the log holds the most recent 4096 log sections in the order they ran,
    one for each registered child that is not between its sections, and none for any other.
   */
  lemma LogRuns(maxPending: nat, steps: seq<Step>)
    ensures var w, c, order := Run(maxPending, steps), Children(maxPending, steps), LogOrder(maxPending, steps);
            && Within(order, |c|) && Once(order) && w.registry.log == Recent(EntriesAt(c, order))
            && (forall k: nat :: k < |c| ==> (k in order <==> k !in w.unlogged))
            && |order| + |w.unlogged| == |c|
  {
    LogSoundRun(maxPending, steps);
    hide Run, Children, LogOrder, EntriesAt, Recent;
  }

  // ----------------------------------------------------------------- order

  function UpTo(n: nat): seq<nat> { seq(n, i => i) }

  /** Whoever logs was registered before everybody else who still has to. */
  predicate OldestLogs(w: World, s: Step) {
    s.Log? && s.child in w.unlogged ==> forall k :: k in w.unlogged ==> s.child <= k
  }

  predicate AlwaysOldest(maxPending: nat, steps: seq<Step>) {
    steps == [] ||
    var front := steps[..|steps| - 1];
    AlwaysOldest(maxPending, front) && OldestLogs(Run(maxPending, front), steps[|steps| - 1])
  }

  /**
    When the first children are logged in order, the next to be logged is the oldest exactly when its number is next.
   */
  lemma OldestIsNext(unlogged: map<nat, LogEntry>, children: seq<LogEntry>, order: seq<nat>, k: nat)
    requires Filed(unlogged, children, order) && order == UpTo(|order|) && k in unlogged
    ensures (forall j :: j in unlogged ==> k <= j) <==> k == |order|
  {
    forall j | j in unlogged ensures j >= |order| { InUpTo(|order|, j); }
    assert |order| in unlogged by {
      assert |order| < |children| by { assert k < |children|; InUpTo(|order|, k); }
      InUpTo(|order|, |order|);
    }
  }

  lemma InUpTo(n: nat, j: nat)
    ensures j in UpTo(n) <==> j < n
  {
    if j < n { assert UpTo(n)[j] == j; }
  }

  lemma UpToSnoc(order: seq<nat>, k: nat)
    ensures order + [k] == UpTo(|order| + 1) <==> order == UpTo(|order|) && k == |order|
  {
    var more := order + [k];
    assert more[|order|] == k && UpTo(|order| + 1)[|order|] == |order|;
    if more == UpTo(|order| + 1) {
      forall i | 0 <= i < |order| ensures order[i] == i { assert more[i] == order[i]; }
    }
  }

  /**
    The log is in registration order, without gaps, if and only if every log section ran for the oldest unlogged
    child.
   */
  lemma {:induction false} LogInOrder(maxPending: nat, steps: seq<Step>)
    ensures var order := LogOrder(maxPending, steps); order == UpTo(|order|) <==> AlwaysOldest(maxPending, steps)
  {
    hide Run, UpTo, OldestLogs;
    if steps == [] {
      NothingLogged();
    } else {
      var front, s := steps[..|steps| - 1], steps[|steps| - 1];
      LogInOrder(maxPending, front);
      LogSoundRun(maxPending, front);
      OneMoreLogged(Run(maxPending, front), Children(maxPending, front), LogOrder(maxPending, front), s);
    }
  }

  lemma NothingLogged()
    ensures [] == UpTo(0)
  {
  }

  lemma OneMoreLogged(w: World, children: seq<LogEntry>, order: seq<nat>, s: Step)
    requires LogSound(w, children, order)
    ensures var after := if s.Log? && s.child in w.unlogged then order + [s.child] else order;
            after == UpTo(|after|) <==> order == UpTo(|order|) && OldestLogs(w, s)
  {
    hide Filed, UpTo, Recent;
    if s.Log? && s.child in w.unlogged {
      UpToSnoc(order, s.child);
      if order == UpTo(|order|) { OldestIsNext(w.unlogged, children, order, s.child); }
    }
  }

  /** A spawn without a worktree. */
  function Plain(task: Bytes, session: Option<Bytes>): Spec { Spec(task, session, None) }

  lemma RegisterPlain(w: World, task: Bytes, session: Option<Bytes>)
    requires Trim(task) != [] && |w.registry.pending| < 2
    ensures var after := Next(2, w, Register(Plain(task, session)));
            && after.unlogged == w.unlogged[w.registry.started := LogEntry(session, None)]
            && after.registry.started == w.registry.started + 1 && after.registry.log == w.registry.log
            && |after.registry.pending| <= |w.registry.pending| + 1
  {
    hide Trim, IdOf, WORD;
  }

  function TwoThreads(task: Bytes, first: Option<Bytes>, second: Option<Bytes>): seq<Step> {
    [Register(Plain(task, first)), Register(Plain(task, second)), Log(1), Log(0)]
  }

  lemma BothRegistered(task: Bytes, first: Option<Bytes>, second: Option<Bytes>)
    requires Trim(task) != []
    ensures var w := Run(2, TwoThreads(task, first, second)[..2]);
            && w.unlogged == map[0 := LogEntry(first, None), 1 := LogEntry(second, None)]
            && w.registry.log == []
  {
    hide Trim, Run, Next;
    var steps := TwoThreads(task, first, second);
    assert steps[..0] == [];
    NobodyRan();
    RegisterPlain(Run(2, []), task, first);
    RunTo(steps, 0);
    RegisterPlain(Run(2, steps[..1]), task, second);
    RunTo(steps, 1);
  }

  lemma LogNext(w: World, child: nat)
    requires child in w.unlogged && |w.registry.log| < MAX_SPAWN_LOG
    ensures var after := Next(2, w, Log(child));
            after.registry.log == w.registry.log + [w.unlogged[child]] && after.unlogged == w.unlogged - {child}
  {
  }

  /** Two threads register, and the second logs first: the log has them the other way round. */
  lemma LogOutOfOrder(task: Bytes, first: Option<Bytes>, second: Option<Bytes>)
    requires Trim(task) != []
    ensures Run(2, TwoThreads(task, first, second)).registry.log == [LogEntry(second, None), LogEntry(first, None)]
  {
    hide Trim, Run, Next;
    var steps := TwoThreads(task, first, second);
    assert steps[..4] == steps;
    BothRegistered(task, first, second);
    RunTo(steps, 2);
    LogNext(Run(2, steps[..2]), 1);
    assert Run(2, steps[..3]).registry.log == [LogEntry(second, None)];
    RunTo(steps, 3);
    LogNext(Run(2, steps[..3]), 0);
  }

  lemma NobodyRan()
    ensures Run(2, []) == World(EMPTY, map[])
  {
  }

  lemma RunTo(steps: seq<Step>, i: nat)
    requires i < |steps|
    ensures Run(2, steps[..i + 1]) == Next(2, Run(2, steps[..i]), steps[i])
  {
    assert steps[..i + 1][..i] == steps[..i];
  }
}
