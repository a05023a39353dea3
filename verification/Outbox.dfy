/**
The offline queue: `Send` with the relay offline (`internal/agent/ops.go`), the outbox table
(`internal/store/store.go`), the single-flighted ready callback (`launchOnReady`,
`internal/relay/session.go`) and the flush it runs (`flushOutbox`, `internal/agent/agent.go`).

A send saves the row and the history row in two steps. Each successful authentication tries to
start a flush task. A flush works on a snapshot; for each row it checks readiness, writes, and
records the outcome in separate steps, and anything may happen in between, a crash included.
*/
module Outbox {
  import opened Tables

  type Id = string
  type TaskId = nat

  datatype Row = Row(to: string, encrypted: string, signature: string, ts: int, attempts: nat)
  type Item = Entry<Row>

  const MAX_ATTEMPTS := 10

  // Where a flush goroutine is in its loop over the snapshot; `todo[0]` is the current row.
  datatype Task =
    | Starting
    | AtRow(todo: seq<Item>)
    | Writing(todo: seq<Item>)               // ready when checked, frame not written yet
    | Recording(todo: seq<Item>, ok: bool)   // SendQueued returned, table not updated yet

  datatype State = State(
    authed: bool,
    active: bool,                // onReadyActive
    tasks: map<TaskId, Task>,    // the goroutines launchOnReady started
    outbox: map<Id, Row>,
    history: set<Id>,            // ids with an outbound row in messages
    unsaved: set<Id>,            // sends between SaveOutbox and SaveMessage
    log: Log
  )

  // What happened so far. The outcome of a write is open from SendQueued's return until the table
  // is updated; a crash in between makes it lost.
  datatype Log = Log(
    queued: set<Id>,
    delivered: set<Id>,
    discarded: set<Id>,
    oks: multiset<Id>,
    fails: multiset<Id>,
    openOks: multiset<Id>,
    openFails: multiset<Id>,
    lostOks: multiset<Id>,
    lostFails: multiset<Id>,
    lostHistory: set<Id>
  )

  datatype Event =
    | Enqueue(id: Id, row: Row)
    | SaveHistory(id: Id)
    | AuthOk(t: TaskId)
    | Disconnect
    | Snapshot(t: TaskId, items: seq<Item>)
    | Examine(t: TaskId)
    | Write(t: TaskId, ok: bool)
    | Record(t: TaskId)
    | Finish(t: TaskId)
    | Crash

  const INIT := State(false, false, map[], map[], {}, {},
    Log({}, {}, {}, multiset{}, multiset{}, multiset{}, multiset{}, multiset{}, multiset{}, {}))

  predicate OldestFirst(a: Row, b: Row) {
    a.ts <= b.ts
  }

  predicate IsSnapshot(items: seq<Item>, outbox: map<Id, Row>) {
    Enumerates(items, outbox) && Ordered(items, OldestFirst)
  }

  predicate Enabled(s: State, e: Event) {
    match e
    case Enqueue(id, row) => id !in s.log.queued && row.attempts == 0
    case SaveHistory(id) => id in s.unsaved
    case AuthOk(t) => t !in s.tasks
    case Disconnect => true
    case Snapshot(t, items) => t in s.tasks && s.tasks[t].Starting? && IsSnapshot(items, s.outbox)
    case Examine(t) => t in s.tasks && s.tasks[t].AtRow? && s.tasks[t].todo != []
    case Write(t, _) => t in s.tasks && s.tasks[t].Writing? && s.tasks[t].todo != []
    case Record(t) =>
      t in s.tasks && s.tasks[t].Recording? && s.tasks[t].todo != [] && s.tasks[t].todo[0].id in s.outbox
    case Finish(t) => t in s.tasks && s.tasks[t] == AtRow([])
    case Crash => true
  }

  function WriteOk(log: Log, id: Id): Log {
    log.(oks := log.oks + multiset{id}, openOks := log.openOks + multiset{id})
  }

  function WriteFailed(log: Log, id: Id): Log {
    log.(fails := log.fails + multiset{id}, openFails := log.openFails + multiset{id})
  }

  function Apply(s: State, e: Event): State
    requires Enabled(s, e)
  {
    match e
    case Enqueue(id, row) =>
      s.(outbox := s.outbox[id := row], unsaved := s.unsaved + {id},
         log := s.log.(queued := s.log.queued + {id}))
    case SaveHistory(id) => s.(history := s.history + {id}, unsaved := s.unsaved - {id})
    case AuthOk(t) =>
      if s.active then s.(authed := true)
      else s.(authed := true, active := true, tasks := s.tasks[t := Starting])
    case Disconnect => s.(authed := false)
    case Snapshot(t, items) => s.(tasks := s.tasks[t := AtRow(items)])
    case Examine(t) =>
      var todo := s.tasks[t].todo;
      var id := todo[0].id;
      if todo[0].row.attempts >= MAX_ATTEMPTS then
        s.(outbox := s.outbox - {id}, tasks := s.tasks[t := AtRow(todo[1..])],
           log := s.log.(discarded := s.log.discarded + {id}))
      else if s.authed then
        s.(tasks := s.tasks[t := Writing(todo)])
      else
        s.(tasks := s.tasks[t := Recording(todo, false)], log := WriteFailed(s.log, id))
    case Write(t, ok) =>
      var todo := s.tasks[t].todo;
      var id := todo[0].id;
      s.(tasks := s.tasks[t := Recording(todo, ok)],
         log := if ok then WriteOk(s.log, id) else WriteFailed(s.log, id))
    case Record(t) =>
      var todo := s.tasks[t].todo;
      var id := todo[0].id;
      var next := s.tasks[t := AtRow(todo[1..])];
      if s.tasks[t].ok then
        s.(outbox := s.outbox - {id}, tasks := next,
           log := s.log.(delivered := s.log.delivered + {id}, openOks := s.log.openOks - multiset{id}))
      else
        s.(outbox := s.outbox[id := s.outbox[id].(attempts := s.outbox[id].attempts + 1)], tasks := next,
           log := s.log.(openFails := s.log.openFails - multiset{id}))
    case Finish(t) => s.(tasks := s.tasks - {t}, active := false)
    case Crash =>
      s.(authed := false, active := false, tasks := map[], unsaved := {},
         log := s.log.(lostOks := s.log.lostOks + s.log.openOks, openOks := multiset{},
                       lostFails := s.log.lostFails + s.log.openFails, openFails := multiset{},
                       lostHistory := s.log.lostHistory + s.unsaved))
  }

  predicate IsRun(s: State, es: seq<Event>)
    decreases |es|
  {
    es == [] || (Enabled(s, es[0]) && IsRun(Apply(s, es[0]), es[1..]))
  }

  function Final(s: State, es: seq<Event>): State
    requires IsRun(s, es)
    decreases |es|
  {
    if es == [] then s else Final(Apply(s, es[0]), es[1..])
  }

  /* ---------------- the invariant ---------------- */

  // The compare-and-swap on onReadyActive: at most one flush, running exactly while the flag is set.
  ghost predicate SingleFlight(s: State) {
    && (forall t, u :: t in s.tasks && u in s.tasks ==> t == u)
    && (s.active <==> s.tasks != map[])
  }

  function Todo(task: Task): seq<Item> {
    if task.Starting? then [] else task.todo
  }

  // The rows a flush still has to treat are in the table, unchanged since its snapshot.
  predicate RowsOk(todo: seq<Item>, outbox: map<Id, Row>) {
    && (forall i, j :: 0 <= i < j < |todo| ==> todo[i].id != todo[j].id)
    && (forall i :: 0 <= i < |todo| ==> todo[i].id in outbox && outbox[todo[i].id] == todo[i].row)
  }

  predicate TodoOk(task: Task, outbox: map<Id, Row>) {
    && RowsOk(Todo(task), outbox)
    && (task.Writing? || task.Recording? ==> task.todo != [] && task.todo[0].row.attempts < MAX_ATTEMPTS)
  }

  ghost predicate TasksOk(s: State) {
    forall t :: t in s.tasks ==> TodoOk(s.tasks[t], s.outbox)
  }

  // Every queued id is in exactly one of the three places.
  predicate OnePlace(s: State) {
    && s.log.queued == s.outbox.Keys + s.log.delivered + s.log.discarded
    && s.outbox.Keys !! s.log.delivered && s.outbox.Keys !! s.log.discarded
    && s.log.delivered !! s.log.discarded
  }

  predicate HistoryOk(s: State) {
    s.outbox.Keys <= s.history + s.unsaved + s.log.lostHistory
  }

  // The ledger: how the write outcomes of an id add up, by where the id is.
  predicate LedgerOk(s: State, id: Id) {
    var oks, fails := s.log.oks[id], s.log.fails[id];
    var lostOks, lostFails := s.log.lostOks[id], s.log.lostFails[id];
    if id in s.outbox then
      && s.outbox[id].attempts <= MAX_ATTEMPTS
      && oks == lostOks + s.log.openOks[id]
      && fails == s.outbox[id].attempts + lostFails + s.log.openFails[id]
    else if id in s.log.delivered then oks == lostOks + 1 && fails < MAX_ATTEMPTS + lostFails
    else if id in s.log.discarded then oks == lostOks && fails == MAX_ATTEMPTS + lostFails
    else oks == fails == lostOks == lostFails == 0
  }

  // The outcome a flush has in hand, as a multiset of at most one id.
  function Held(task: Task, ok: bool): multiset<Id> {
    if task.Recording? && task.todo != [] && task.ok == ok then multiset{task.todo[0].id} else multiset{}
  }

  // The open outcomes are what the one running flush holds.
  ghost predicate OpenOk(s: State) {
    && (forall t :: t in s.tasks ==> s.log.openOks == Held(s.tasks[t], true) && s.log.openFails == Held(s.tasks[t], false))
    && (s.tasks == map[] ==> s.log.openOks == s.log.openFails == multiset{})
  }

  ghost predicate Inv(s: State) {
    && SingleFlight(s) && TasksOk(s) && OpenOk(s) && OnePlace(s) && HistoryOk(s)
    && forall id :: LedgerOk(s, id)
  }

  /* ---------------- every step keeps it ---------------- */

  lemma EnqueueKeeps(s: State, id: Id, row: Row)
    requires Inv(s) && Enabled(s, Enqueue(id, row))
    ensures Inv(Apply(s, Enqueue(id, row)))
  {
    var t := Apply(s, Enqueue(id, row));
    assert LedgerOk(s, id);
    assert id !in s.log.openOks && id !in s.log.openFails by {
      if s.tasks != map[] {
        var k :| k in s.tasks;
      }
    }
    forall k
      ensures LedgerOk(t, k)
    {
      assert LedgerOk(s, k);
    }
  }

  lemma AuthOkKeeps(s: State, k: TaskId)
    requires Inv(s) && Enabled(s, AuthOk(k))
    ensures Inv(Apply(s, AuthOk(k)))
  {
    var t := Apply(s, AuthOk(k));
    forall id
      ensures LedgerOk(t, id)
    {
      assert LedgerOk(s, id);
    }
  }

  lemma SnapshotKeeps(s: State, k: TaskId, items: seq<Item>)
    requires Inv(s) && Enabled(s, Snapshot(k, items))
    ensures Inv(Apply(s, Snapshot(k, items)))
  {
    var t := Apply(s, Snapshot(k, items));
    assert TodoOk(t.tasks[k], t.outbox);
    forall id
      ensures LedgerOk(t, id)
    {
      assert LedgerOk(s, id);
    }
  }

  // Whatever happens to the current row, the flush's later rows are as its snapshot has them.
  lemma TailOk(todo: seq<Item>, outbox: map<Id, Row>, after: map<Id, Row>)
    requires todo != [] && RowsOk(todo, outbox)
    requires forall k :: k in outbox && k != todo[0].id ==> k in after && after[k] == outbox[k]
    ensures RowsOk(todo[1..], after)
  {
    var tail := todo[1..];
    assert forall i :: 0 <= i < |tail| ==> tail[i] == todo[i + 1] && tail[i].id != todo[0].id;
  }

  lemma ExamineKeeps(s: State, k: TaskId)
    requires Inv(s) && Enabled(s, Examine(k))
    ensures Inv(Apply(s, Examine(k)))
  {
    var t := Apply(s, Examine(k));
    ExamineTodos(s, k);
    ExamineOpen(s, k);
    assert OnePlace(t) && HistoryOk(t) by {
      ExaminePlaces(s, k);
    }
    forall id
      ensures LedgerOk(t, id)
    {
      ExamineLedger(s, k, id);
    }
  }

  lemma ExamineTodos(s: State, k: TaskId)
    requires SingleFlight(s) && TasksOk(s) && Enabled(s, Examine(k))
    ensures TasksOk(Apply(s, Examine(k)))
  {
    var todo := s.tasks[k].todo;
    assert TodoOk(s.tasks[k], s.outbox);
    TailOk(todo, s.outbox, s.outbox - {todo[0].id});
    var t := Apply(s, Examine(k));
    assert t.tasks.Keys == {k} && TodoOk(t.tasks[k], t.outbox);
  }

  lemma ExamineOpen(s: State, k: TaskId)
    requires SingleFlight(s) && OpenOk(s) && Enabled(s, Examine(k))
    ensures SingleFlight(Apply(s, Examine(k))) && OpenOk(Apply(s, Examine(k)))
  {
    var t, id := Apply(s, Examine(k)), s.tasks[k].todo[0].id;
    assert s.log.openOks == s.log.openFails == multiset{};
    assert s.log.openFails + multiset{id} == multiset{id};
    assert t.tasks.Keys == {k};
    assert t.log.openOks == Held(t.tasks[k], true) && t.log.openFails == Held(t.tasks[k], false);
  }

  lemma ExaminePlaces(s: State, k: TaskId)
    requires OnePlace(s) && HistoryOk(s) && TasksOk(s) && Enabled(s, Examine(k))
    ensures OnePlace(Apply(s, Examine(k))) && HistoryOk(Apply(s, Examine(k)))
  {
    var id := s.tasks[k].todo[0].id;
    assert id in s.outbox by {
      assert TodoOk(s.tasks[k], s.outbox);
    }
  }

  lemma ExamineLedger(s: State, k: TaskId, id: Id)
    requires OnePlace(s) && TasksOk(s) && OpenOk(s) && Enabled(s, Examine(k)) && LedgerOk(s, id)
    ensures LedgerOk(Apply(s, Examine(k)), id)
  {
    assert TodoOk(s.tasks[k], s.outbox);
    assert s.log.openOks == s.log.openFails == multiset{};
  }

  lemma WriteKeeps(s: State, k: TaskId, ok: bool)
    requires Inv(s) && Enabled(s, Write(k, ok))
    ensures Inv(Apply(s, Write(k, ok)))
  {
    var t := Apply(s, Write(k, ok));
    var todo := s.tasks[k].todo;
    assert TodoOk(s.tasks[k], s.outbox);
    assert s.log.openOks == s.log.openFails == multiset{};
    assert s.log.openOks + multiset{todo[0].id} == multiset{todo[0].id};
    assert s.log.openFails + multiset{todo[0].id} == multiset{todo[0].id};
    forall id
      ensures LedgerOk(t, id)
    {
      assert LedgerOk(s, id);
    }
  }

  lemma RecordKeeps(s: State, k: TaskId)
    requires Inv(s) && Enabled(s, Record(k))
    ensures Inv(Apply(s, Record(k)))
  {
    var t := Apply(s, Record(k));
    assert SingleFlight(t) && TasksOk(t) && OpenOk(t) by {
      RecordTasks(s, k);
    }
    assert OnePlace(t) && HistoryOk(t) by {
      RecordPlaces(s, k);
    }
    forall id
      ensures LedgerOk(t, id)
    {
      RecordLedger(s, k, id);
    }
  }

  lemma RecordTasks(s: State, k: TaskId)
    requires SingleFlight(s) && TasksOk(s) && OpenOk(s) && Enabled(s, Record(k))
    ensures SingleFlight(Apply(s, Record(k))) && TasksOk(Apply(s, Record(k))) && OpenOk(Apply(s, Record(k)))
  {
    RecordTodos(s, k);
    RecordedOpen(s, k);
  }

  lemma RecordTodos(s: State, k: TaskId)
    requires SingleFlight(s) && TasksOk(s) && Enabled(s, Record(k))
    ensures SingleFlight(Apply(s, Record(k))) && TasksOk(Apply(s, Record(k)))
  {
    var t := Apply(s, Record(k));
    assert TodoOk(s.tasks[k], s.outbox);
    TailOk(s.tasks[k].todo, s.outbox, t.outbox);
    assert t.tasks.Keys == {k} && TodoOk(t.tasks[k], t.outbox);
  }

  lemma RecordPlaces(s: State, k: TaskId)
    requires OnePlace(s) && HistoryOk(s) && Enabled(s, Record(k))
    ensures OnePlace(Apply(s, Record(k))) && HistoryOk(Apply(s, Record(k)))
  {
  }

  lemma RecordLedger(s: State, k: TaskId, id: Id)
    requires SingleFlight(s) && TasksOk(s) && OpenOk(s) && OnePlace(s) && Enabled(s, Record(k)) && LedgerOk(s, id)
    ensures LedgerOk(Apply(s, Record(k)), id)
  {
    assert TodoOk(s.tasks[k], s.outbox);
  }

  lemma TakeOut(m: multiset<Id>, id: Id)
    requires m == multiset{id}
    ensures m - multiset{id} == multiset{}
  {
  }

  lemma RecordedOpen(s: State, k: TaskId)
    requires SingleFlight(s) && OpenOk(s) && Enabled(s, Record(k))
    ensures Apply(s, Record(k)).log.openOks == Apply(s, Record(k)).log.openFails == multiset{}
    ensures OpenOk(Apply(s, Record(k)))
  {
    var t := Apply(s, Record(k));
    var id := s.tasks[k].todo[0].id;
    if s.tasks[k].ok {
      TakeOut(s.log.openOks, id);
    } else {
      TakeOut(s.log.openFails, id);
    }
    assert t.log.openOks == t.log.openFails == multiset{};
    assert forall u :: u in t.tasks ==> u == k;
  }

  lemma OtherStepsKeep(s: State, e: Event)
    requires Inv(s) && Enabled(s, e) && (e.SaveHistory? || e.Disconnect? || e.Finish? || e.Crash?)
    ensures Inv(Apply(s, e))
  {
    var t := Apply(s, e);
    assert e.Finish? ==> t.tasks == map[];
    forall id
      ensures LedgerOk(t, id)
    {
      assert LedgerOk(s, id);
    }
  }

  // A death keeps the two tables and nothing else; a lost connection only stops the writes.
  lemma DeathKeepsTables(s: State)
    ensures var t := Apply(s, Crash);
      t.outbox == s.outbox && t.history == s.history && !t.authed && !t.active && t.tasks == map[]
    ensures Apply(s, Disconnect) == s.(authed := false)
  {
  }

  lemma StepKeeps(s: State, e: Event)
    requires Inv(s) && Enabled(s, e)
    ensures Inv(Apply(s, e))
  {
    match e
    case Enqueue(id, row) => EnqueueKeeps(s, id, row);
    case AuthOk(t) => AuthOkKeeps(s, t);
    case Snapshot(t, items) => SnapshotKeeps(s, t, items);
    case Examine(t) => ExamineKeeps(s, t);
    case Write(t, ok) => WriteKeeps(s, t, ok);
    case Record(t) => RecordKeeps(s, t);
    case _ => OtherStepsKeep(s, e);
  }

  lemma {:induction false} RunKeeps(s: State, es: seq<Event>)
    requires Inv(s) && IsRun(s, es)
    ensures Inv(Final(s, es))
    decreases |es|
  {
    if es != [] {
      StepKeeps(s, es[0]);
      RunKeeps(Apply(s, es[0]), es[1..]);
    }
  }

  /* ---------------- what holds over whole runs ---------------- */

  lemma InitOk()
    ensures Inv(INIT)
  {
  }

  lemma {:induction false} WithoutCrashNothingIsLost(s: State, es: seq<Event>)
    requires IsRun(s, es) && Crash !in es
    ensures Final(s, es).log.lostOks == s.log.lostOks && Final(s, es).log.lostFails == s.log.lostFails
    ensures Final(s, es).log.lostHistory == s.log.lostHistory
    decreases |es|
  {
    if es != [] {
      assert es[0] in es;
      WithoutCrashNothingIsLost(Apply(s, es[0]), es[1..]);
    }
  }

  /** However sends, authentications, disconnects and flush steps interleave, a queued id is in exactly
      one place: still in the outbox, written successfully exactly once, or discarded after exactly
      ten failed writes and no successful one. No id is ever written twice. */
  lemma AtMostOnceAndOneFate(es: seq<Event>, id: Id)
    requires IsRun(INIT, es) && Crash !in es
    ensures var s := Final(INIT, es);
      && (id in s.log.queued <==> id in s.outbox || id in s.log.delivered || id in s.log.discarded)
      && !(id in s.outbox && id in s.log.delivered) && !(id in s.outbox && id in s.log.discarded)
      && (id in s.outbox ==> s.log.oks[id] == s.log.openOks[id] <= 1 && s.log.fails[id] <= 10)
      && (id in s.log.delivered ==> s.log.oks[id] == 1 && s.log.fails[id] < 10)
      && (id in s.log.discarded ==> s.log.oks[id] == 0 && s.log.fails[id] == 10)
      && (id !in s.log.queued ==> s.log.oks[id] == s.log.fails[id] == 0)
      && (id in s.outbox ==> id in s.history || id in s.unsaved)
  {
    InitOk();
    RunKeeps(INIT, es);
    WithoutCrashNothingIsLost(INIT, es);
    var s := Final(INIT, es);
    assert LedgerOk(s, id);
    OpenIsSmall(s, id);
  }

  lemma OpenIsSmall(s: State, id: Id)
    requires Inv(s)
    ensures s.log.openOks[id] + s.log.openFails[id] <= 1
    ensures id in s.outbox ==> s.outbox[id].attempts + s.log.openFails[id] <= MAX_ATTEMPTS
  {
    if s.tasks != map[] {
      var t :| t in s.tasks;
      assert TodoOk(s.tasks[t], s.outbox);
    }
    assert LedgerOk(s, id);
  }

  /** With crashes allowed anywhere: every successful write of an id beyond the first is paid for by a
      crash that hit between an earlier write and the delete that follows it. */
  lemma EveryRewriteIsACrash(es: seq<Event>, id: Id)
    requires IsRun(INIT, es)
    ensures var s := Final(INIT, es);
      s.log.oks[id] == s.log.lostOks[id] + if id in s.log.delivered || id in s.log.openOks then 1 else 0
  {
    InitOk();
    RunKeeps(INIT, es);
    var s := Final(INIT, es);
    assert LedgerOk(s, id);
    OpenIsSmall(s, id);
    if s.tasks != map[] {
      var t :| t in s.tasks;
      assert TodoOk(s.tasks[t], s.outbox);
    }
  }

  /** Two flushes never run at once, and a task is running exactly while the flag is set. */
  lemma FlushesNeverOverlap(es: seq<Event>)
    requires IsRun(INIT, es)
    ensures var s := Final(INIT, es);
      |s.tasks| <= 1 && (s.active <==> |s.tasks| == 1)
  {
    InitOk();
    RunKeeps(INIT, es);
    var s := Final(INIT, es);
    if s.tasks != map[] {
      var t :| t in s.tasks;
      assert s.tasks.Keys == {t};
    }
  }

  lemma StepKeepsRow(s: State, e: Event, id: Id)
    requires Enabled(s, e) && id in s.outbox && s.outbox.Keys <= s.log.queued && id in Apply(s, e).outbox
    ensures var was, now := s.outbox[id], Apply(s, e).outbox[id];
      now == was.(attempts := now.attempts) && was.attempts <= now.attempts
  {
  }

  /** A queued row keeps its recipient, ciphertext and signature for as long as it stays, and its
      attempts never go down. */
  lemma {:induction false} RowsKeepTheirContent(s: State, es: seq<Event>, id: Id)
    requires Inv(s) && IsRun(s, es) && id in s.outbox && id in Final(s, es).outbox
    ensures var was, now := s.outbox[id], Final(s, es).outbox[id];
      now == was.(attempts := now.attempts) && was.attempts <= now.attempts
    decreases |es|
  {
    if es != [] {
      var t := Apply(s, es[0]);
      StepKeeps(s, es[0]);
      if id in t.outbox {
        StepKeepsRow(s, es[0], id);
        RowsKeepTheirContent(t, es[1..], id);
      } else {
        assert id in t.log.queued by {
          assert OnePlace(s);
        }
        GoneStaysGone(t, es[1..], id);
      }
    }
  }

  /** An id that left the outbox never comes back, so it is never written again. */
  lemma {:induction false} GoneStaysGone(s: State, es: seq<Event>, id: Id)
    requires Inv(s) && IsRun(s, es) && id in s.log.queued && id !in s.outbox
    ensures id !in Final(s, es).outbox
    ensures Final(s, es).log.oks[id] == s.log.oks[id] && Final(s, es).log.fails[id] == s.log.fails[id]
    decreases |es|
  {
    if es != [] {
      StepKeeps(s, es[0]);
      StepLeavesGone(s, es[0], id);
      GoneStaysGone(Apply(s, es[0]), es[1..], id);
    }
  }

  lemma StepLeavesGone(s: State, e: Event, id: Id)
    requires TasksOk(s) && Enabled(s, e) && id in s.log.queued && id !in s.outbox
    ensures var t := Apply(s, e);
      id in t.log.queued && id !in t.outbox && t.log.oks[id] == s.log.oks[id] && t.log.fails[id] == s.log.fails[id]
  {
    if e.Examine? || e.Write? {
      assert TodoOk(s.tasks[e.t], s.outbox);
    }
  }

  lemma {:induction false} RunSnoc(s: State, es: seq<Event>, e: Event)
    requires IsRun(s, es) && Enabled(Final(s, es), e)
    ensures IsRun(s, es + [e]) && Final(s, es + [e]) == Apply(Final(s, es), e)
    decreases |es|
  {
    if es == [] {
      assert [] + [e] == [e];
      assert [e][1..] == [];
    } else {
      RunSnoc(Apply(s, es[0]), es[1..], e);
      assert (es + [e])[1..] == es[1..] + [e];
    }
  }

  lemma {:induction false} RunConcat(s: State, es: seq<Event>, more: seq<Event>)
    requires IsRun(s, es) && IsRun(Final(s, es), more)
    ensures IsRun(s, es + more) && Final(s, es + more) == Final(Final(s, es), more)
    decreases |es|
  {
    if es == [] {
      assert [] + more == more;
    } else {
      RunConcat(Apply(s, es[0]), es[1..], more);
      assert (es + more)[1..] == es[1..] + more;
    }
  }

  /* ---------------- the order of a flush ---------------- */

  // The event treats the task's current row: it discards it, writes it, or records the outcome.
  predicate Treats(e: Event, t: TaskId) {
    (e.Examine? || e.Write? || e.Record?) && e.t == t
  }

  function CurrentRow(s: State, t: TaskId): Item
    requires t in s.tasks && Todo(s.tasks[t]) != []
  {
    Todo(s.tasks[t])[0]
  }

  predicate ByTime(todo: seq<Item>) {
    forall i, j :: 0 <= i < j < |todo| ==> todo[i].row.ts <= todo[j].row.ts
  }

  predicate TasksByTime(s: State) {
    forall t :: t in s.tasks ==> ByTime(Todo(s.tasks[t]))
  }

  lemma SnapshotIsByTime(items: seq<Item>, outbox: map<Id, Row>)
    requires IsSnapshot(items, outbox)
    ensures ByTime(items)
  {
  }

  predicate Snapshots(e: Event, t: TaskId) {
    e.Snapshot? && e.t == t
  }

  // All of `was`, or all but the first.
  predicate IsRest(todo: seq<Item>, was: seq<Item>) {
    todo == was || (was != [] && todo == was[1..])
  }

  // A flush only gets shorter, and starts with nothing.
  lemma TodoShrinks(s: State, e: Event, t: TaskId)
    requires Enabled(s, e) && !Snapshots(e, t) && t in Apply(s, e).tasks
    ensures var todo := Todo(Apply(s, e).tasks[t]);
      todo == [] || (t in s.tasks && IsRest(todo, Todo(s.tasks[t])))
  {
  }

  lemma StepKeepsByTime(s: State, e: Event)
    requires TasksByTime(s) && Enabled(s, e)
    ensures TasksByTime(Apply(s, e))
  {
    forall t | t in Apply(s, e).tasks
      ensures ByTime(Todo(Apply(s, e).tasks[t]))
    {
      if Snapshots(e, t) {
        SnapshotIsByTime(e.items, s.outbox);
      } else {
        TodoShrinks(s, e, t);
      }
    }
  }

  lemma {:induction false} RunKeepsByTime(s: State, es: seq<Event>)
    requires TasksByTime(s) && IsRun(s, es)
    ensures TasksByTime(Final(s, es))
    decreases |es|
  {
    if es != [] {
      StepKeepsByTime(s, es[0]);
      RunKeepsByTime(Apply(s, es[0]), es[1..]);
    }
  }

  // The task has nothing older than `low` to do.
  predicate AtLeast(s: State, t: TaskId, low: int) {
    t in s.tasks ==> forall i :: 0 <= i < |Todo(s.tasks[t])| ==> low <= Todo(s.tasks[t])[i].row.ts
  }

  lemma {:induction false} RunStaysAtLeast(s: State, es: seq<Event>, t: TaskId, low: int)
    requires IsRun(s, es) && AtLeast(s, t, low) && forall i :: 0 <= i < |es| ==> !Snapshots(es[i], t)
    ensures AtLeast(Final(s, es), t, low)
    decreases |es|
  {
    if es != [] {
      if t in Apply(s, es[0]).tasks {
        TodoShrinks(s, es[0], t);
      }
      assert forall i :: 0 <= i < |es[1..]| ==> es[1..][i] == es[i + 1];
      RunStaysAtLeast(Apply(s, es[0]), es[1..], t, low);
    }
  }

  lemma {:induction false} RunSplits(s: State, es: seq<Event>, i: nat)
    requires IsRun(s, es) && i <= |es|
    ensures IsRun(s, es[..i]) && IsRun(Final(s, es[..i]), es[i..])
    ensures Final(Final(s, es[..i]), es[i..]) == Final(s, es)
    ensures i < |es| ==> Enabled(Final(s, es[..i]), es[i])
    decreases |es|
  {
    if i == 0 {
      assert es[..0] == [] && es[0..] == es;
    } else {
      RunSplits(Apply(s, es[0]), es[1..], i - 1);
      assert es[..i][0] == es[0] && es[..i][1..] == es[1..][..i - 1] && es[1..][i - 1..] == es[i..];
    }
  }

  // Of two rows treated without a snapshot of the task in between, the first is no younger.
  ghost predicate InOrder(s: State, es: seq<Event>, t: TaskId, i: nat, j: nat)
    requires IsRun(s, es) && i < j < |es| && Treats(es[i], t) && Treats(es[j], t)
  {
    RunSplits(s, es, i);
    RunSplits(s, es, j);
    CurrentRow(Final(s, es[..i]), t).row.ts <= CurrentRow(Final(s, es[..j]), t).row.ts
  }

  /** A flush goes from the oldest row to the youngest, whatever is queued, lost or answered meanwhile: of any two
      rows that one flush discards or writes, the first has the smaller or the same time. */
  lemma FlushGoesByTime(s: State, es: seq<Event>, t: TaskId, i: nat, j: nat)
    requires TasksByTime(s) && IsRun(s, es) && i < j < |es| && Treats(es[i], t) && Treats(es[j], t)
    requires forall k :: i < k < j ==> !Snapshots(es[k], t)
    ensures InOrder(s, es, t, i, j)
  {
    RunSplits(s, es, i);
    RunSplits(s, es, j);
    RunBetween(s, es, i, j);
    RunKeepsByTime(s, es[..i]);
    forall k | 0 <= k < |es[i..j]|
      ensures !Snapshots(es[i..j][k], t)
    {
      assert es[i..j][k] == es[i + k];
    }
    LaterIsNoOlder(Final(s, es[..i]), es[i..j], t);
  }

  lemma RunBetween(s: State, es: seq<Event>, i: nat, j: nat)
    requires IsRun(s, es) && i <= j <= |es|
    ensures IsRun(s, es[..i]) && IsRun(s, es[..j]) && IsRun(Final(s, es[..i]), es[i..j])
    ensures Final(s, es[..j]) == Final(Final(s, es[..i]), es[i..j])
  {
    RunSplits(s, es, i);
    RunSplits(s, es, j);
    RunSplits(s, es[..j], i);
    assert es[..j][..i] == es[..i] && es[..j][i..] == es[i..j];
  }

  lemma LaterIsNoOlder(s: State, es: seq<Event>, t: TaskId)
    requires t in s.tasks && Todo(s.tasks[t]) != [] && ByTime(Todo(s.tasks[t]))
    requires IsRun(s, es) && forall i :: 0 <= i < |es| ==> !Snapshots(es[i], t)
    requires t in Final(s, es).tasks && Todo(Final(s, es).tasks[t]) != []
    ensures CurrentRow(s, t).row.ts <= CurrentRow(Final(s, es), t).row.ts
  {
    var low := CurrentRow(s, t).row.ts;
    assert AtLeast(s, t, low);
    RunStaysAtLeast(s, es, t, low);
  }

  // From an authentication to the successful write of the only row.
  function WriteOne(id: Id, row: Row): seq<Event> {
    [AuthOk(0), Snapshot(0, [Entry(id, row)]), Examine(0), Write(0, true)]
  }

  lemma WritesOne(s: State, id: Id, row: Row)
    requires s.outbox == map[id := row] && row.attempts < MAX_ATTEMPTS && s.tasks == map[] && !s.active
    ensures IsRun(s, WriteOne(id, row))
    ensures Final(s, WriteOne(id, row)) == s.(authed := true, active := true,
      tasks := map[0 := Recording([Entry(id, row)], true)], log := WriteOk(s.log, id))
  {
    var items := [Entry(id, row)];
    assert items[0].id == id && IsSnapshot(items, s.outbox);
    var s1 := s.(authed := true, active := true, tasks := map[0 := Starting]);
    var s2 := s1.(tasks := map[0 := AtRow(items)]);
    var s3 := s1.(tasks := map[0 := Writing(items)]);
    assert Apply(s, AuthOk(0)) == s1 && Apply(s1, Snapshot(0, items)) == s2;
    var s4 := s1.(tasks := map[0 := Recording(items, true)], log := WriteOk(s.log, id));
    assert Apply(s2, Examine(0)) == s3 && Apply(s3, Write(0, true)) == s4;
    var e1, e2, e3, e4 := AuthOk(0), Snapshot(0, items), Examine(0), Write(0, true);
    assert IsRun(s4, []) && Final(s4, []) == s4;
    assert [e4][1..] == [];
    assert IsRun(s3, [e4]) && Final(s3, [e4]) == s4;
    assert [e3, e4][1..] == [e4] && IsRun(s2, [e3, e4]) && Final(s2, [e3, e4]) == s4;
    assert [e2, e3, e4][1..] == [e3, e4] && IsRun(s1, [e2, e3, e4]) && Final(s1, [e2, e3, e4]) == s4;
    assert WriteOne(id, row)[1..] == [e2, e3, e4];
  }

  /** The one way to a second copy: the process dies after the write and before the delete. */
  lemma CrashAfterWriteResends(id: Id, row: Row) returns (es: seq<Event>)
    requires row.attempts == 0
    ensures IsRun(INIT, es) && Final(INIT, es).log.oks[id] == 2 && Final(INIT, es).log.lostOks[id] == 1
  {
    var queue, once := [Enqueue(id, row), SaveHistory(id)], WriteOne(id, row);
    assert queue[1..] == [SaveHistory(id)] && map[][id := row] == map[id := row];
    RunSnoc(INIT, [], queue[0]);
    RunSnoc(INIT, [queue[0]], queue[1]);
    assert [queue[0]] + [queue[1]] == queue && [] + [queue[0]] == [queue[0]];
    var queued := Final(INIT, queue);
    WritesOne(queued, id, row);
    RunConcat(INIT, queue, once);
    RunSnoc(INIT, queue + once, Crash);
    var crashed := Final(INIT, queue + once + [Crash]);
    WritesOne(crashed, id, row);
    es := queue + once + [Crash] + once;
    RunConcat(INIT, queue + once + [Crash], once);
  }

  /* ---------------- the agent and its outbox ---------------- */

  // What a flush that runs to its end leaves, when exactly the writes of `written` succeed.
  function Flushed(outbox: map<Id, Row>, written: set<Id>): map<Id, Row> {
    map id | id in outbox && outbox[id].attempts < MAX_ATTEMPTS && id !in written ::
      outbox[id].(attempts := outbox[id].attempts + 1)
  }

  // The three branches of the flush loop: discard, count a failed attempt, delete what was sent.
  method TreatedTable(outbox: map<Id, Row>, it: Item, ready: bool, ok: bool) returns (r: map<Id, Row>)
    requires it.id in outbox && outbox[it.id] == it.row
    ensures r == Treated(outbox, it.id, ready && ok)
  {
    if it.row.attempts >= MAX_ATTEMPTS {
      r := outbox - {it.id};
    } else if !ready || !ok {
      r := outbox[it.id := outbox[it.id].(attempts := outbox[it.id].attempts + 1)];
    } else {
      r := outbox - {it.id};
    }
  }

  // `now` is where the events take a good state `start`.
  ghost predicate Reached(start: State, es: seq<Event>, now: State) {
    Inv(start) && IsRun(start, es) && now == Final(start, es) && es != [] && OneSnapshot(es)
  }

  // Only the first event is a snapshot.
  predicate OneSnapshot(es: seq<Event>) {
    forall i :: 0 < i < |es| ==> !es[i].Snapshot?
  }

  lemma BeginTrace(s: State, t: TaskId, items: seq<Item>)
    requires Inv(s) && Enabled(s, Snapshot(t, items))
    ensures Reached(s, [Snapshot(t, items)], Apply(s, Snapshot(t, items)))
  {
    RunSnoc(s, [], Snapshot(t, items));
    assert [] + [Snapshot(t, items)] == [Snapshot(t, items)];
  }

  lemma EndTrace(s: State, trace: seq<Event>, t: TaskId)
    requires Inv(s) && t in s.tasks && s.tasks[t].Starting?
    requires IsRun(s, trace) && trace != [] && OneSnapshot(trace) && Enabled(Final(s, trace), Finish(t))
    ensures var es := trace + [Finish(t)];
      && IsRun(s, es) && Final(s, es) == Apply(Final(s, trace), Finish(t))
      && forall i, j :: 0 <= i < j < |es| && Treats(es[i], t) && Treats(es[j], t) ==> InOrder(s, es, t, i, j)
  {
    RunSnoc(s, trace, Finish(t));
    TraceByTime(s, trace + [Finish(t)], t);
  }

  lemma TraceByTime(s: State, es: seq<Event>, t: TaskId)
    requires Inv(s) && t in s.tasks && s.tasks[t].Starting? && IsRun(s, es) && OneSnapshot(es)
    ensures forall i, j :: 0 <= i < j < |es| && Treats(es[i], t) && Treats(es[j], t) ==> InOrder(s, es, t, i, j)
  {
    forall i, j | 0 <= i < j < |es| && Treats(es[i], t) && Treats(es[j], t)
      ensures InOrder(s, es, t, i, j)
    {
      FlushGoesByTime(s, es, t, i, j);
    }
  }

  class Agent {
    var authed: bool
    var active: bool
    var outbox: map<Id, Row>
    var history: set<Id>
    ghost var tasks: map<TaskId, Task>
    ghost var unsaved: set<Id>
    ghost var log: Log

    ghost function View(): State
      reads this
    {
      State(authed, active, tasks, outbox, history, unsaved, log)
    }

    constructor ()
      ensures View() == INIT
    {
      authed, active, outbox, history := false, false, map[], {};
      tasks, unsaved, log := map[], {}, INIT.log;
    }

    // The offline branch of Send: one row for the relay, then one for the history.
    method QueueOffline(id: Id, to: string, encrypted: string, signature: string, ts: int)
      requires Inv(View()) && id !in log.queued
      modifies this
      ensures Inv(View())
      ensures var row := Row(to, encrypted, signature, ts, 0);
        var saved := Apply(old(View()), Enqueue(id, row));
        View() == Apply(saved, SaveHistory(id))
      ensures outbox == old(outbox)[id := Row(to, encrypted, signature, ts, 0)] && history == old(history) + {id}
      ensures authed == old(authed) && active == old(active) && log.queued == old(log.queued) + {id}
    {
      ghost var s := View();
      var row := Row(to, encrypted, signature, ts, 0);
      StepKeeps(s, Enqueue(id, row));
      StepKeeps(Apply(s, Enqueue(id, row)), SaveHistory(id));
      assert id !in outbox by {
        assert OnePlace(s);
      }
      outbox := InsertOrIgnore(outbox, id, row);
      history := history + {id};
      unsaved := unsaved + {id} - {id};
      log := log.(queued := log.queued + {id});
    }

    // launchOnReady: compare-and-swap, then start the goroutine or skip.
    method LaunchOnReady(ghost t: TaskId) returns (launched: bool)
      requires Inv(View()) && t !in tasks
      modifies this
      ensures Inv(View()) && View() == Apply(old(View()), AuthOk(t))
      ensures launched == !old(active) && authed && active && outbox == old(outbox) && history == old(history)
      ensures tasks == if launched then old(tasks)[t := Starting] else old(tasks)
    {
      StepKeeps(View(), AuthOk(t));
      authed := true;
      launched := !active;
      if launched {
        active := true;
        tasks := tasks[t := Starting];
      }
    }

    // The body of the flush loop for the current row; `ok` is what the write would return.
    method TreatRow(ghost t: TaskId, it: Item, ok: bool, ghost start: State, ghost trace: seq<Event>)
      returns (ghost longer: seq<Event>)
      requires Reached(start, trace, View())
      requires t in tasks && tasks[t].AtRow? && tasks[t].todo != [] && it == tasks[t].todo[0]
      modifies this`outbox, this`tasks, this`log
      ensures Reached(start, longer, View())
      ensures it.id in old(outbox) && outbox == Treated(old(outbox), it.id, authed && ok)
      ensures t in tasks && tasks[t] == AtRow(old(tasks[t]).todo[1..])
    {
      RunKeeps(start, trace);
      OneRowTable(View(), t, ok);
      longer := ExtendRow(start, trace, View(), t, ok);
      ghost var after := OneRow(View(), t, ok);
      outbox := TreatedTable(outbox, it, authed, ok);
      tasks, log := after.tasks, after.log;
    }

    method BeginFlush(ghost t: TaskId) returns (items: seq<Item>)
      requires t in tasks && tasks[t] == Starting
      modifies this`tasks
      ensures Enabled(old(View()), Snapshot(t, items)) && View() == Apply(old(View()), Snapshot(t, items))
      ensures Enumerates(items, outbox) && forall i, j :: 0 <= i < j < |items| ==> items[i].row.ts <= items[j].row.ts
    {
      items := OrderBy(outbox, OldestFirst);
      tasks := tasks[t := AtRow(items)];
    }

    method EndFlush(ghost t: TaskId)
      requires Enabled(View(), Finish(t))
      modifies this`active, this`tasks
      ensures View() == Apply(old(View()), Finish(t))
      ensures !active && tasks == old(tasks) - {t}
    {
      active := false;
      tasks := tasks - {t};
    }

    // flushOutbox with nothing else running; `written` are the ids whose frame goes out.
    method FlushOutbox(ghost t: TaskId, written: set<Id>) returns (ghost trace: seq<Event>)
      requires Inv(View()) && t in tasks && tasks[t] == Starting
      modifies this`active, this`outbox, this`tasks, this`log
      ensures IsRun(old(View()), trace) && View() == Final(old(View()), trace)
      ensures outbox == Flushed(old(outbox), if authed then written else {})
      ensures !active
      ensures forall i, j :: 0 <= i < j < |trace| && Treats(trace[i], t) && Treats(trace[j], t) ==>
        InOrder(old(View()), trace, t, i, j)
    {
      ghost var start, rows := View(), outbox;
      var items := BeginFlush(t);
      BeginTrace(start, t, items);
      assert items[0..] == items && items[|items|..] == [];
      trace := FlushRows(t, items, written, if authed then written else {}, start, [Snapshot(t, items)]);
      FlushedAll(rows, outbox, items, if authed then written else {});
      EndTrace(start, trace, t);
      trace := trace + [Finish(t)];
      EndFlush(t);
    }

    // Before row `i`: the events so far lead here and the earlier rows are done.
    ghost predicate FlushAt(t: TaskId, items: seq<Item>, sent: set<Id>, rows: map<Id, Row>, i: nat)
      reads this
    {
      && i <= |items| && t in tasks && tasks[t] == AtRow(items[i..])
      && FlushedUpTo(rows, outbox, items, i, sent)
    }

    method FlushOne(ghost t: TaskId, items: seq<Item>, i: nat, ok: bool, ghost sent: set<Id>, ghost rows: map<Id, Row>,
        ghost start: State, ghost trace: seq<Event>)
      returns (ghost longer: seq<Event>)
      requires Reached(start, trace, View()) && i < |items| && FlushAt(t, items, sent, rows, i)
      requires (authed && ok) == (items[i].id in sent)
      modifies this`outbox, this`tasks, this`log
      ensures Reached(start, longer, View()) && FlushAt(t, items, sent, rows, i + 1)
    {
      ghost var before := outbox;
      assert items[i..][0] == items[i] && items[i..][1..] == items[i + 1..];
      longer := TreatRow(t, items[i], ok, start, trace);
      FlushedOneMore(rows, before, outbox, items, i, sent);
    }

    method FlushRows(ghost t: TaskId, items: seq<Item>, written: set<Id>, ghost sent: set<Id>, ghost start: State,
        ghost trace0: seq<Event>)
      returns (ghost trace: seq<Event>)
      requires Reached(start, trace0, View()) && FlushAt(t, items, sent, outbox, 0)
      requires sent == if authed then written else {}
      modifies this`outbox, this`tasks, this`log
      ensures Reached(start, trace, View()) && FlushAt(t, items, sent, old(outbox), |items|)
    {
      trace := trace0;
      var i := 0;
      while i < |items|
        invariant 0 <= i <= |items|
        invariant Reached(start, trace, View()) && FlushAt(t, items, sent, old(outbox), i)
      {
        trace := FlushOne(t, items, i, items[i].id in written, sent, old(outbox), start, trace);
        i := i + 1;
      }
    }
  }

  // The steps one row takes when nothing interferes.
  ghost function OneRow(s: State, t: TaskId, ok: bool): State
    requires Inv(s) && Enabled(s, Examine(t))
  {
    assert TodoOk(s.tasks[t], s.outbox);
    var s1 := Apply(s, Examine(t));
    if s1.tasks[t].AtRow? then s1
    else if s1.tasks[t].Recording? then Apply(s1, Record(t))
    else Apply(Apply(s1, Write(t, ok)), Record(t))
  }

  // One row's effect on the table.
  function Treated(outbox: map<Id, Row>, id: Id, sent: bool): map<Id, Row>
    requires id in outbox
  {
    if outbox[id].attempts >= MAX_ATTEMPTS || sent then outbox - {id}
    else outbox[id := outbox[id].(attempts := outbox[id].attempts + 1)]
  }

  lemma OneRowTable(s: State, t: TaskId, ok: bool)
    requires Inv(s) && Enabled(s, Examine(t))
    ensures var todo := s.tasks[t].todo;
      && todo[0].id in s.outbox && s.outbox[todo[0].id] == todo[0].row
      && OneRow(s, t, ok).outbox == Treated(s.outbox, todo[0].id, s.authed && ok)
      && t in OneRow(s, t, ok).tasks && OneRow(s, t, ok).tasks[t] == AtRow(todo[1..])
      && OneRow(s, t, ok).authed == s.authed && OneRow(s, t, ok).history == s.history
      && OneRow(s, t, ok).active == s.active && OneRow(s, t, ok).unsaved == s.unsaved
  {
    assert TodoOk(s.tasks[t], s.outbox);
  }

  lemma ExtendRow(start: State, trace: seq<Event>, s: State, t: TaskId, ok: bool) returns (longer: seq<Event>)
    requires IsRun(start, trace) && s == Final(start, trace) && Inv(s) && Enabled(s, Examine(t))
    requires trace != [] && OneSnapshot(trace)
    ensures IsRun(start, longer) && Final(start, longer) == OneRow(s, t, ok) && Inv(OneRow(s, t, ok))
    ensures OneSnapshot(longer) && longer != []
  {
    assert TodoOk(s.tasks[t], s.outbox);
    longer := Extend(start, trace, s, Examine(t));
    var s1 := Apply(s, Examine(t));
    if s1.tasks[t].Recording? {
      longer := Extend(start, longer, s1, Record(t));
    } else if s1.tasks[t].Writing? {
      longer := Extend(start, longer, s1, Write(t, ok));
      longer := Extend(start, longer, Apply(s1, Write(t, ok)), Record(t));
    }
  }

  // One more event on a trace, and the invariant after it.
  lemma Extend(start: State, trace: seq<Event>, s: State, e: Event) returns (longer: seq<Event>)
    requires IsRun(start, trace) && s == Final(start, trace) && Inv(s) && Enabled(s, e)
    requires trace != [] && OneSnapshot(trace) && !e.Snapshot?
    ensures longer == trace + [e] && IsRun(start, longer) && Final(start, longer) == Apply(s, e)
    ensures Inv(Apply(s, e)) && OneSnapshot(longer)
  {
    longer := trace + [e];
    RunSnoc(start, trace, e);
    StepKeeps(s, e);
  }

  // After `i` rows, those rows are as `Flushed` has them and the others untouched.
  ghost predicate FlushedUpTo(was: map<Id, Row>, now: map<Id, Row>, items: seq<Item>, i: nat, sent: set<Id>)
    requires i <= |items|
  {
    && Enumerates(items, was)
    && now.Keys <= was.Keys
    && (forall j :: i <= j < |items| ==> items[j].id in now && now[items[j].id] == was[items[j].id])
    && forall j :: 0 <= j < i ==>
      var id := items[j].id;
      && (id in now <==> id in Flushed(was, sent))
      && (id in now ==> now[id] == Flushed(was, sent)[id])
  }

  lemma FlushedOneMore(was: map<Id, Row>, before: map<Id, Row>, now: map<Id, Row>, items: seq<Item>, i: nat,
      sent: set<Id>)
    requires i < |items| && FlushedUpTo(was, before, items, i, sent)
    requires items[i].id in before && now == Treated(before, items[i].id, items[i].id in sent)
    ensures FlushedUpTo(was, now, items, i + 1, sent)
  {
    assert forall j :: 0 <= j < |items| && j != i ==> items[j].id != items[i].id;
  }

  lemma FlushedAll(was: map<Id, Row>, now: map<Id, Row>, items: seq<Item>, sent: set<Id>)
    requires FlushedUpTo(was, now, items, |items|, sent)
    ensures now == Flushed(was, sent)
  {
    forall id | id in was
      ensures id in now <==> id in Flushed(was, sent)
      ensures id in now ==> now[id] == Flushed(was, sent)[id]
    {
      var j :| 0 <= j < |items| && items[j].id == id;
    }
  }
}
