/**
The inbound pipeline: the relay redelivers a message until it is acknowledged, the session emits it
to the agent and acknowledges it afterwards (`handleInboundMessage`, `internal/relay/session.go`),
the agent routes it to history, to pending, or drops it (`internal/agent/agent.go`), and the contact
operations move or delete what is pending (`internal/agent/ops.go`, `internal/store/store.go`).

The relay is free to deliver anything at any time, also after an acknowledgement. The read loop
handles one message at a time; approvals and blocks run beside it, any number at once. Each store
statement that reads or changes the pending table, the contacts or the blocks is an event of its own,
so all of them interleave, and the process may die between any two. The part of a handler that only
adds to history and surfaces is one event.
*/
module Inbound {
  import opened Tables
  import opened Text
  import opened Wrappers

  type Id = string
  type Addr = string
  type TaskId = nat

  datatype Direction = In | Out
  datatype Message = Message(peer: string, direction: Direction, content: string, ts: int)
  datatype Pending = Pending(from: Addr, plaintext: string, ts: int, notified: bool)
  type Item = Entry<Pending>

  datatype Kind = Dm | Group(group: string)
  datatype Delivery = Delivery(
    kind: Kind, id: Id, rawFrom: string, fromName: string, plaintext: string, ts: int, verified: bool)

  datatype Surface =
    | Notice(from: Addr, id: Id)                   // one "pending" notification
    | Shown(from: Addr, group: string, id: Id)     // a message passed to the harness

  // Where the read loop is with a message.
  datatype Handler =
    | Idle
    | Admitted(d: Delivery)                // the sender was not blocked, and a DM is verified
    | Unknown(d: Delivery)                 // the sender was not a contact either
    | Held(d: Delivery)                    // its row is saved in pending
    | Unmarked(d: Delivery)                // no row of the sender was notified
    | Marked(d: Delivery)                  // the rows are marked, the notice not sent yet
    | Handled(d: Delivery, stored: bool)   // stored or dropped, and not acknowledged yet

  // Where an approval or a block is; `items` are the rows it has in hand.
  datatype Task =
    | Approving(a: Addr)                        // the contact is there
    | Selected(a: Addr, items: seq<Item>)       // its pending rows are read
    | Saving(a: Addr, items: seq<Item>)         // its pending rows are deleted
    | Blocking(a: Addr)                         // the block is there
    | Purging(a: Addr)                          // the contact is gone

  datatype State = State(
    messages: map<Id, Message>,
    inserted: seq<Id>,             // message ids in the order their rows were inserted
    contacts: map<Addr, string>,
    blocked: set<Addr>,
    pending: map<Id, Pending>,
    lastInbound: Option<Surface>,
    handler: Handler,
    tasks: map<TaskId, Task>,
    log: Log
  )

  datatype Log = Log(
    surfaced: seq<Surface>,
    accepted: set<Id>,             // verified DMs stored whose sender was not blocked when they came in
    acked: set<Id>,                // those of them whose ack was written
    purged: set<Id>,               // ids a block deleted from pending that were nowhere else
    lost: set<Id>                  // ids an approval deleted without having read them, or a death left in hand
  )

  // `muted` is what the mute tables answer for the sender and group at that moment.
  datatype Event =
    | Emit(d: Delivery)                          // IsBlocked, and the signature
    | Route(muted: bool, now: int)               // IsContact, and history unless the sender is unknown
    | Hold                                       // SavePending
    | AskNotified                                // HasPendingNotified
    | Mark                                       // MarkPendingNotified
    | Notify                                     // the "pending" notification
    | Ack
    | Upsert(t: TaskId, address: string, name: string)   // an approval begins
    | Select(t: TaskId, rows: seq<Item>)                 // the select of FlushPending
    | Delete(t: TaskId)                                  // its delete, of whatever the sender has by then
    | SaveNext(t: TaskId, now: int)                      // one turn of the save loop
    | RemoveContact(address: string)
    | Block(t: TaskId, address: string)                  // a block begins
    | Unlist(t: TaskId)                                  // and deletes the contact
    | Purge(t: TaskId)                                   // and the pending rows
    | Unblock(address: string)
    | Crash

  const INIT := State(map[], [], map[], {}, map[], None, Idle, map[], Log([], {}, {}, {}, {}))

  function From(d: Delivery): Addr {
    Normalize(d.rawFrom)
  }

  // tsISO stamps the current time on messages without one.
  function Stamp(ts: int, now: int): int {
    if ts <= 0 then now else ts
  }

  function SaveMessage(s: State, id: Id, m: Message): State {
    s.(messages := InsertOrIgnore(s.messages, id, m),
       inserted := if id in s.messages then s.inserted else s.inserted + [id])
  }

  function PendingOf(pending: map<Id, Pending>, a: Addr): map<Id, Pending> {
    map id | id in pending && pending[id].from == a :: pending[id]
  }

  predicate HasPending(pending: map<Id, Pending>, a: Addr) {
    exists id :: id in pending && pending[id].from == a
  }

  predicate HasNotified(pending: map<Id, Pending>, a: Addr) {
    exists id :: id in pending && pending[id].from == a && pending[id].notified
  }

  function MarkNotified(pending: map<Id, Pending>, a: Addr): map<Id, Pending> {
    map id | id in pending :: if pending[id].from == a then pending[id].(notified := true) else pending[id]
  }

  // SavePending.
  function WithRow(pending: map<Id, Pending>, d: Delivery): map<Id, Pending> {
    InsertOrIgnore(pending, d.id, Pending(From(d), d.plaintext, d.ts, false))
  }

  function Without(pending: map<Id, Pending>, a: Addr): map<Id, Pending> {
    map id | id in pending && pending[id].from != a :: pending[id]
  }

  function SyncName(contacts: map<Addr, string>, a: Addr, name: string): map<Addr, string> {
    if name != "" && a in contacts then contacts[a := name] else contacts
  }

  // A non-empty name replaces the known one.
  function WithContact(contacts: map<Addr, string>, a: Addr, name: string): map<Addr, string> {
    contacts[a := if name == "" && a in contacts then contacts[a] else name]
  }

  function Show(s: State, from: Addr, group: string, id: Id): State {
    var shown := Shown(from, group, id);
    s.(lastInbound := Some(shown), log := s.log.(surfaced := s.log.surfaced + [shown]))
  }

  function Announce(s: State, d: Delivery): State {
    s.(log := s.log.(surfaced := s.log.surfaced + [Notice(From(d), d.id)]))
  }

  // The id is in a table (again).
  function Stored(log: Log, id: Id): Log {
    log.(purged := log.purged - {id}, lost := log.lost - {id})
  }

  function Accepted(log: Log, id: Id): Log {
    Stored(log, id).(accepted := log.accepted + {id})
  }

  // handleInboundGroup, and the rest of handleInboundDM for a contact.
  function HandleKnown(s: State, d: Delivery, muted: bool, now: int): State {
    var from := From(d);
    var peer := if d.kind.Group? then Normalize(d.kind.group) else from;
    var s1 := s.(contacts := SyncName(s.contacts, from, d.fromName),
                 log := if d.kind.Group? then Stored(s.log, d.id) else Accepted(s.log, d.id));
    var s2 := SaveMessage(s1, d.id, Message(peer, In, d.plaintext, Stamp(d.ts, now)));
    if muted then s2 else Show(s2, from, if d.kind.Group? then d.kind.group else "", d.id)
  }

  function Ids(items: seq<Item>): set<Id> {
    set i | 0 <= i < |items| :: items[i].id
  }

  function Items(task: Task): seq<Item> {
    if task.Selected? || task.Saving? then task.items else []
  }

  // The ids approvals have in hand.
  function Hands(tasks: map<TaskId, Task>): set<Id> {
    set t, id | t in tasks && id in Ids(Items(tasks[t])) :: id
  }

  predicate OldestFirst(a: Pending, b: Pending) {
    a.ts <= b.ts
  }

  predicate Enabled(s: State, e: Event) {
    match e
    case Emit(_) => s.handler.Idle?
    case Route(_, _) => s.handler.Admitted?
    case Hold => s.handler.Unknown?
    case AskNotified => s.handler.Held?
    case Mark => s.handler.Unmarked?
    case Notify => s.handler.Marked?
    case Ack => s.handler.Handled?
    case Upsert(t, _, _) => t !in s.tasks
    case Select(t, rows) =>
      t in s.tasks && s.tasks[t].Approving?
      && Enumerates(rows, PendingOf(s.pending, s.tasks[t].a)) && Ordered(rows, OldestFirst)
    case Delete(t) => t in s.tasks && s.tasks[t].Selected?
    case SaveNext(t, _) => t in s.tasks && s.tasks[t].Saving? && s.tasks[t].items != []
    case Block(t, _) => t !in s.tasks
    case Unlist(t) => t in s.tasks && s.tasks[t].Blocking?
    case Purge(t) => t in s.tasks && s.tasks[t].Purging?
    case _ => true
  }

  function Admit(s: State, d: Delivery): State {
    s.(handler := if From(d) in s.blocked || (d.kind.Dm? && !d.verified) then Handled(d, false) else Admitted(d))
  }

  function RouteOn(s: State, d: Delivery, muted: bool, now: int): State {
    if d.kind.Dm? && From(d) !in s.contacts then s.(handler := Unknown(d))
    else HandleKnown(s, d, muted, now).(handler := Handled(d, true))
  }

  // One row saved by the flush loop.
  function SaveItem(s: State, a: Addr, item: Item, now: int): State {
    SaveMessage(s, item.id, Message(a, In, item.row.plaintext, Stamp(item.row.ts, now)))
  }

  function Apply(s: State, e: Event): State
    requires Enabled(s, e)
  {
    match e
    case Emit(d) => Admit(s, d)
    case Route(muted, now) => RouteOn(s, s.handler.d, muted, now)
    case Hold =>
      var d := s.handler.d;
      s.(pending := WithRow(s.pending, d), handler := Held(d), log := Accepted(s.log, d.id))
    case AskNotified =>
      var d := s.handler.d;
      s.(handler := if HasNotified(s.pending, From(d)) then Handled(d, true) else Unmarked(d))
    case Mark =>
      var d := s.handler.d;
      s.(pending := MarkNotified(s.pending, From(d)), handler := Marked(d))
    case Notify =>
      var d := s.handler.d;
      Announce(s, d).(handler := Handled(d, true))
    case Ack =>
      var id := s.handler.d.id;
      s.(handler := Idle, log := s.log.(acked := if id in s.log.accepted then s.log.acked + {id} else s.log.acked))
    case Upsert(t, address, name) =>
      var a := Normalize(address);
      s.(contacts := WithContact(s.contacts, a, name), tasks := s.tasks[t := Approving(a)])
    case Select(t, rows) =>
      s.(tasks := if rows == [] then s.tasks - {t} else s.tasks[t := Selected(s.tasks[t].a, rows)])
    case Delete(t) =>
      var a := s.tasks[t].a;
      s.(pending := Without(s.pending, a), tasks := s.tasks[t := Saving(a, s.tasks[t].items)],
         log := s.log.(lost := s.log.lost + NowhereElse(s, a)))
    case SaveNext(t, now) =>
      var a, items := s.tasks[t].a, s.tasks[t].items;
      SaveItem(s, a, items[0], now).(tasks := if |items| == 1 then s.tasks - {t} else s.tasks[t := Saving(a, items[1..])])
    case RemoveContact(address) => s.(contacts := s.contacts - {Normalize(address)})
    case Block(t, address) =>
      var a := Normalize(address);
      s.(blocked := s.blocked + {a}, tasks := s.tasks[t := Blocking(a)])
    case Unlist(t) =>
      var a := s.tasks[t].a;
      s.(contacts := s.contacts - {a}, tasks := s.tasks[t := Purging(a)])
    case Purge(t) =>
      var a := s.tasks[t].a;
      s.(pending := Without(s.pending, a), tasks := s.tasks - {t},
         log := s.log.(purged := s.log.purged + NowhereElse(s, a)))
    case Unblock(address) => s.(blocked := s.blocked - {Normalize(address)})
    case Crash =>
      s.(handler := Idle, tasks := map[],
         log := s.log.(lost := s.log.lost + (Hands(s.tasks) - s.messages.Keys - s.pending.Keys)))
  }

  // The pending ids of a sender that are neither in history nor in the hands of an approval.
  function NowhereElse(s: State, a: Addr): set<Id> {
    PendingOf(s.pending, a).Keys - s.messages.Keys - Hands(s.tasks)
  }

  predicate IsRun(s: State, es: seq<Event>)
    decreases |es|
  {
    es == [] || (Enabled(s, es[0]) && IsRun(Apply(s, es[0]), es[1..]))
  }

  function Final(s: State, es: seq<Event>): State
    requires IsRun(s, es)
    decreases |es|
  {
    if es == [] then s else Final(Apply(s, es[0]), es[1..])
  }

  lemma RunCons(s: State, e: Event, rest: seq<Event>)
    requires Enabled(s, e) && IsRun(Apply(s, e), rest)
    ensures IsRun(s, [e] + rest) && Final(s, [e] + rest) == Final(Apply(s, e), rest)
  {
    assert ([e] + rest)[1..] == rest;
  }

  lemma FirstApart(es: seq<Event>, more: seq<Event>)
    requires es != []
    ensures [es[0]] + (es[1..] + more) == es + more
  {
  }

  lemma {:induction false} RunConcat(s: State, es: seq<Event>, more: seq<Event>)
    requires IsRun(s, es) && IsRun(Final(s, es), more)
    ensures IsRun(s, es + more) && Final(s, es + more) == Final(Final(s, es), more)
    decreases |es|
  {
    if es == [] {
      assert [] + more == more;
    } else {
      RunConcat(Apply(s, es[0]), es[1..], more);
      RunCons(s, es[0], es[1..] + more);
      FirstApart(es, more);
    }
  }

  lemma RunOne(s: State, e: Event)
    requires Enabled(s, e)
    ensures IsRun(s, [e]) && Final(s, [e]) == Apply(s, e)
  {
    assert [e][1..] == [];
    assert IsRun(Apply(s, e), []);
  }

  lemma RunSnoc(s: State, es: seq<Event>, e: Event)
    requires IsRun(s, es) && Enabled(Final(s, es), e)
    ensures IsRun(s, es + [e]) && Final(s, es + [e]) == Apply(Final(s, es), e)
  {
    RunOne(Final(s, es), e);
    RunConcat(s, es, [e]);
  }

  /* ---------------- the invariant ---------------- */

  // In a table, or in the hands of an approval that will save it.
  predicate Located(s: State, id: Id) {
    id in s.messages || id in s.pending || id in Hands(s.tasks)
  }

  // An accepted DM is somewhere exactly if it has been neither purged nor lost since it was last stored.
  ghost predicate Ledger(s: State) {
    && s.log.acked <= s.log.accepted && s.pending.Keys <= s.log.accepted && Hands(s.tasks) <= s.log.accepted
    && forall id :: id in s.log.accepted ==> (Located(s, id) <==> id !in s.log.purged && id !in s.log.lost)
  }

  ghost predicate InsertedOk(s: State) {
    && (forall i, j :: 0 <= i < j < |s.inserted| ==> s.inserted[i] != s.inserted[j])
    && (forall id :: id in s.inserted <==> id in s.messages)
  }

  function LastShown(surfaced: seq<Surface>): Option<Surface> {
    if surfaced == [] then None
    else if surfaced[|surfaced| - 1].Shown? then Some(surfaced[|surfaced| - 1])
    else LastShown(surfaced[..|surfaced| - 1])
  }

  // A DM that is past its store, and was not dropped, has been accepted.
  predicate HandlerOk(s: State) {
    match s.handler
    case Admitted(d) => d.kind.Dm? ==> d.verified
    case Unknown(d) => d.kind.Dm? && d.verified
    case Handled(d, stored) => stored && d.kind.Dm? ==> d.id in s.log.accepted
    case Idle => true
    case _ => s.handler.d.id in s.log.accepted
  }

  ghost predicate Inv(s: State) {
    Ledger(s) && InsertedOk(s) && HandlerOk(s) && s.lastInbound == LastShown(s.log.surfaced)
  }

  // A message enters history; `log` is what its handler makes of the ledger.
  lemma StoringKeeps(s: State, id: Id, m: Message, log: Log, contacts: map<Addr, string>)
    requires Ledger(s) && InsertedOk(s) && (log == Stored(s.log, id) || log == Accepted(s.log, id))
    ensures var t := SaveMessage(s.(contacts := contacts, log := log), id, m);
      Ledger(t) && InsertedOk(t)
  {
    var t := SaveMessage(s.(contacts := contacts, log := log), id, m);
    assert t.messages.Keys == s.messages.Keys + {id};
  }

  lemma KnownKeeps(s: State, d: Delivery, muted: bool, now: int)
    requires Ledger(s) && InsertedOk(s) && s.lastInbound == LastShown(s.log.surfaced)
    ensures var t := HandleKnown(s, d, muted, now);
      Ledger(t) && InsertedOk(t) && t.lastInbound == LastShown(t.log.surfaced)
  {
    var t := HandleKnown(s, d, muted, now);
    var peer := if d.kind.Group? then Normalize(d.kind.group) else From(d);
    var log := if d.kind.Group? then Stored(s.log, d.id) else Accepted(s.log, d.id);
    StoringKeeps(s, d.id, Message(peer, In, d.plaintext, Stamp(d.ts, now)), log, SyncName(s.contacts, From(d), d.fromName));
    assert Ledger(t) && InsertedOk(t);
    ShownLast(s, t);
  }

  lemma RouteKeeps(s: State, muted: bool, now: int)
    requires Inv(s) && Enabled(s, Route(muted, now))
    ensures Inv(Apply(s, Route(muted, now)))
  {
    var d := s.handler.d;
    if d.kind.Group? || From(d) in s.contacts {
      var known := HandleKnown(s, d, muted, now);
      KnownKeeps(s, d, muted, now);
      HandlerMoves(known, Handled(d, true));
      assert d.kind.Dm? ==> d.id in known.log.accepted;
    } else {
      HandlerMoves(s, Unknown(d));
    }
  }

  lemma HandlerMoves(s: State, handler: Handler)
    requires Ledger(s) && InsertedOk(s) && s.lastInbound == LastShown(s.log.surfaced)
    ensures var t := s.(handler := handler);
      Ledger(t) && InsertedOk(t) && t.lastInbound == LastShown(t.log.surfaced)
  {
  }

  lemma ShownLast(s: State, t: State)
    requires s.lastInbound == LastShown(s.log.surfaced)
    requires (t.lastInbound == s.lastInbound && t.log.surfaced == s.log.surfaced)
      || exists x: Surface :: x.Shown? && t.lastInbound == Some(x) && t.log.surfaced == s.log.surfaced + [x]
    ensures t.lastInbound == LastShown(t.log.surfaced)
  {
  }

  lemma NotifyKeeps(s: State)
    requires Inv(s) && Enabled(s, Notify)
    ensures Inv(Apply(s, Notify))
  {
    var t := Apply(s, Notify);
    assert Ledger(t);
    assert t.log.surfaced[..|t.log.surfaced| - 1] == s.log.surfaced;
  }

  lemma HoldKeeps(s: State)
    requires Inv(s) && Enabled(s, Hold)
    ensures Inv(Apply(s, Hold))
  {
    var t := Apply(s, Hold);
    assert t.pending.Keys == s.pending.Keys + {s.handler.d.id};
    assert Ledger(t);
  }

  // The other steps of the read loop touch no ids.
  lemma LoopKeeps(s: State, e: Event)
    requires Inv(s) && Enabled(s, e) && (e.Emit? || e.AskNotified? || e.Mark? || e.Ack?)
    ensures Inv(Apply(s, e))
  {
    var t := Apply(s, e);
    assert t.pending.Keys == s.pending.Keys;
    assert Ledger(t);
  }

  // A task that takes up no ids and drops none.
  lemma HandsStay(tasks: map<TaskId, Task>, t: TaskId, task: Task)
    requires Items(task) == if t in tasks then Items(tasks[t]) else []
    ensures Hands(tasks[t := task]) == Hands(tasks)
  {
    var after := tasks[t := task];
    forall id
      ensures id in Hands(after) <==> id in Hands(tasks)
    {
      if id in Hands(after) {
        var u :| u in after && id in Ids(Items(after[u]));
        assert u in tasks && id in Ids(Items(tasks[u]));
      }
      if id in Hands(tasks) {
        var u :| u in tasks && id in Ids(Items(tasks[u]));
        assert id in Ids(Items(after[u]));
      }
    }
  }

  lemma HandsGone(tasks: map<TaskId, Task>, t: TaskId)
    requires t in tasks && Items(tasks[t]) == []
    ensures Hands(tasks - {t}) == Hands(tasks)
  {
    var after := tasks - {t};
    forall id | id in Hands(tasks)
      ensures id in Hands(after)
    {
      var u :| u in tasks && id in Ids(Items(tasks[u]));
      assert u in after && id in Ids(Items(after[u]));
    }
  }

  // A selection takes up the sender's pending ids.
  lemma HandsSelect(s: State, t: TaskId, rows: seq<Item>)
    requires Enabled(s, Select(t, rows))
    ensures Hands(Apply(s, Select(t, rows)).tasks) == Hands(s.tasks) + Ids(rows)
    ensures Ids(rows) == PendingOf(s.pending, s.tasks[t].a).Keys
  {
    var after := Apply(s, Select(t, rows)).tasks;
    if rows == [] {
      HandsGone(s.tasks, t);
    } else {
      forall id
        ensures id in Hands(after) <==> id in Hands(s.tasks) || id in Ids(rows)
      {
        if id in Hands(s.tasks) {
          var u :| u in s.tasks && id in Ids(Items(s.tasks[u]));
          assert u in after && id in Ids(Items(after[u]));
        }
        if id in Ids(rows) {
          assert id in Ids(Items(after[t]));
        }
      }
    }
    forall id | id in PendingOf(s.pending, s.tasks[t].a)
      ensures id in Ids(rows)
    {
      var i :| 0 <= i < |rows| && rows[i].id == id;
    }
  }

  // Saving a row takes at most its own id out of the hands.
  lemma HandsSave(s: State, t: TaskId, now: int)
    requires Enabled(s, SaveNext(t, now))
    ensures var after := Hands(Apply(s, SaveNext(t, now)).tasks);
      after <= Hands(s.tasks) <= after + {s.tasks[t].items[0].id} && s.tasks[t].items[0].id in Hands(s.tasks)
  {
    var items, after := s.tasks[t].items, Apply(s, SaveNext(t, now)).tasks;
    assert items[0].id in Ids(Items(s.tasks[t]));
    forall id | id in Hands(after)
      ensures id in Hands(s.tasks)
    {
      var u :| u in after && id in Ids(Items(after[u]));
      if u == t {
        var i :| 0 <= i < |items[1..]| && items[1..][i].id == id;
        assert items[i + 1].id == id;
      }
      assert id in Ids(Items(s.tasks[u]));
    }
    forall id | id in Hands(s.tasks) && id != items[0].id
      ensures id in Hands(after)
    {
      var u :| u in s.tasks && id in Ids(Items(s.tasks[u]));
      if u == t {
        var i :| 0 <= i < |items| && items[i].id == id;
        assert items[1..][i - 1].id == id;
      }
      assert u in after && id in Ids(Items(after[u]));
    }
  }

  lemma SaveNextKeeps(s: State, t: TaskId, now: int)
    requires Inv(s) && Enabled(s, SaveNext(t, now))
    ensures Inv(Apply(s, SaveNext(t, now)))
  {
    HandsSave(s, t, now);
    var after := Apply(s, SaveNext(t, now));
    assert after.messages.Keys == s.messages.Keys + {s.tasks[t].items[0].id};
    assert Ledger(after) && InsertedOk(after);
  }

  lemma SelectKeeps(s: State, t: TaskId, rows: seq<Item>)
    requires Inv(s) && Enabled(s, Select(t, rows))
    ensures Inv(Apply(s, Select(t, rows)))
  {
    HandsSelect(s, t, rows);
    assert Ledger(Apply(s, Select(t, rows)));
  }

  // Deleting a sender's rows, by an approval or a block, loses what is nowhere else.
  lemma DeletionKeeps(s: State, e: Event)
    requires Inv(s) && Enabled(s, e) && (e.Delete? || e.Purge?)
    ensures Inv(Apply(s, e))
  {
    var a := s.tasks[e.t].a;
    if e.Delete? {
      HandsStay(s.tasks, e.t, Saving(a, s.tasks[e.t].items));
    } else {
      HandsGone(s.tasks, e.t);
    }
    var after := Apply(s, e);
    forall id | id in s.log.accepted
      ensures Located(after, id) <==> id !in after.log.purged && id !in after.log.lost
    {
      assert id in s.pending && s.pending[id].from == a <==> id in PendingOf(s.pending, a);
    }
  }

  lemma CrashKeeps(s: State)
    requires Inv(s)
    ensures Inv(Apply(s, Crash))
  {
    assert Hands(map[]) == {};
    assert Ledger(Apply(s, Crash));
  }

  // A death keeps the tables, and ends the handler and every operation.
  lemma DeathKeepsTables(s: State)
    ensures var t := Apply(s, Crash);
      && t.messages == s.messages && t.inserted == s.inserted && t.pending == s.pending && t.contacts == s.contacts
      && t.blocked == s.blocked && t.lastInbound == s.lastInbound && t.handler.Idle? && t.tasks == map[]
  {
  }

  // The other steps of the operations touch no pending row and take nothing in hand.
  lemma ContactStepsKeep(s: State, e: Event)
    requires Inv(s) && Enabled(s, e)
    requires e.Upsert? || e.RemoveContact? || e.Block? || e.Unlist? || e.Unblock?
    ensures Inv(Apply(s, e))
  {
    if e.Upsert? {
      HandsStay(s.tasks, e.t, Approving(Normalize(e.address)));
    } else if e.Block? {
      HandsStay(s.tasks, e.t, Blocking(Normalize(e.address)));
    } else if e.Unlist? {
      HandsStay(s.tasks, e.t, Purging(s.tasks[e.t].a));
    }
    assert Ledger(Apply(s, e));
  }

  lemma StepKeeps(s: State, e: Event)
    requires Inv(s) && Enabled(s, e)
    ensures Inv(Apply(s, e))
  {
    match e
    case Route(muted, now) => RouteKeeps(s, muted, now);
    case Hold => HoldKeeps(s);
    case Notify => NotifyKeeps(s);
    case Select(t, rows) => SelectKeeps(s, t, rows);
    case Delete(_) => DeletionKeeps(s, e);
    case Purge(_) => DeletionKeeps(s, e);
    case SaveNext(t, now) => SaveNextKeeps(s, t, now);
    case Crash => CrashKeeps(s);
    case _ =>
      if e.Emit? || e.AskNotified? || e.Mark? || e.Ack? {
        LoopKeeps(s, e);
      } else {
        ContactStepsKeep(s, e);
      }
  }

  lemma {:induction false} RunKeeps(s: State, es: seq<Event>)
    requires Inv(s) && IsRun(s, es)
    ensures Inv(Final(s, es))
    decreases |es|
  {
    if es != [] {
      StepKeeps(s, es[0]);
      RunKeeps(Apply(s, es[0]), es[1..]);
    }
  }

  lemma InitOk()
    ensures Inv(INIT)
  {
    assert Hands(map[]) == {};
  }

  /* ---------------- what holds over whole runs ---------------- */

  /** Whatever the relay redelivers and however approvals, blocks and deaths fall in between the statements
      of a handler and of each other: an acknowledged DM that was verified and whose sender was not blocked
      when it came in is in history, in pending, or in the hands of an approval, if and only if since it
      was last stored no block has deleted it from pending, no approval has deleted it from pending without
      having read it, and no death has caught it in hand. */
  lemma AckedIsStored(es: seq<Event>, id: Id)
    requires IsRun(INIT, es) && id in Final(INIT, es).log.acked
    ensures var s := Final(INIT, es);
      Located(s, id) <==> id !in s.log.purged && id !in s.log.lost
  {
    InitOk();
    RunKeeps(INIT, es);
  }

  /** What the ledger books: a stored id is gone exactly if a block or an approval deletes its sender's rows
      while it is one of them and nowhere else, an approval's own selection included, or if the process dies
      while it is in an approval's hands only. */
  predicate Removes(s: State, e: Event, id: Id)
    requires Enabled(s, e)
  {
    match e
    case Delete(t) => id in NowhereElse(s, s.tasks[t].a)
    case Purge(t) => id in NowhereElse(s, s.tasks[t].a)
    case Crash => id in Hands(s.tasks) && id !in s.messages && id !in s.pending
    case _ => false
  }

  lemma LeavesTablesIff(s: State, e: Event, id: Id)
    requires Enabled(s, e) && Located(s, id)
    ensures !Located(Apply(s, e), id) <==> Removes(s, e, id)
  {
    match e
    case Select(t, rows) => HandsSelect(s, t, rows);
    case SaveNext(t, now) => HandsSave(s, t, now);
    case Delete(t) => HandsStay(s.tasks, t, Saving(s.tasks[t].a, s.tasks[t].items));
    case Purge(t) => HandsGone(s.tasks, t);
    case Upsert(t, address, _) => HandsStay(s.tasks, t, Approving(Normalize(address)));
    case Block(t, address) => HandsStay(s.tasks, t, Blocking(Normalize(address)));
    case Unlist(t) => HandsStay(s.tasks, t, Purging(s.tasks[t].a));
    case Crash => assert Hands(map[]) == {};
    case _ =>
  }

  /** A verified DM is dropped only if its sender was blocked when it came in; otherwise it is accepted
      before it can be acknowledged. */
  lemma StoredBeforeAck(es: seq<Event>)
    requires IsRun(INIT, es) && Final(INIT, es).handler.Handled? && Final(INIT, es).handler.d.kind.Dm?
    ensures var s, id := Final(INIT, es), Final(INIT, es).handler.d.id;
      s.handler.stored ==> (
        && id in s.log.accepted
        && (Located(s, id) <==> id !in s.log.purged && id !in s.log.lost))
  {
    InitOk();
    RunKeeps(INIT, es);
  }

  /** Where a message is stored: with a contact's message, in history; with an unknown sender's, in pending. */
  lemma StoringStep(s: State, e: Event)
    requires Enabled(s, e)
    ensures e.Emit? && e.d.kind.Dm? && e.d.verified ==>
      (Apply(s, e).handler == Handled(e.d, false) <==> From(e.d) in s.blocked)
    ensures e.Route? && Apply(s, e).handler.Handled? ==> s.handler.d.id in Apply(s, e).messages
    ensures e.Hold? ==> s.handler.d.id in Apply(s, e).pending
  {
  }

  lemma StepKeepsHistory(s: State, e: Event, id: Id)
    requires Enabled(s, e) && id in s.messages
    ensures id in Apply(s, e).messages && Apply(s, e).messages[id] == s.messages[id]
  {
    assert e.Route? || e.SaveNext? || Apply(s, e).messages == s.messages;
  }

  /** Once in history, a message stays with its first content: no redelivery, approval or block
      changes or removes it. */
  lemma {:induction false} FirstContentStays(s: State, es: seq<Event>, id: Id)
    requires IsRun(s, es) && id in s.messages
    ensures id in Final(s, es).messages && Final(s, es).messages[id] == s.messages[id]
    decreases |es|
  {
    if es != [] {
      StepKeepsHistory(s, es[0], id);
      FirstContentStays(Apply(s, es[0]), es[1..], id);
    }
  }

  // A row approval `t` has read is saved, or still in its hands.
  predicate SavedOrInHand(s: State, t: TaskId, id: Id) {
    id in s.messages || (t in s.tasks && id in Ids(Items(s.tasks[t])))
  }

  lemma StepKeepsInHand(s: State, e: Event, t: TaskId, id: Id)
    requires Enabled(s, e) && !e.Crash? && SavedOrInHand(s, t, id)
    ensures SavedOrInHand(Apply(s, e), t, id)
  {
    if id in s.messages {
      StepKeepsHistory(s, e, id);
    } else if e.SaveNext? && e.t == t {
      var items := s.tasks[t].items;
      var i :| 0 <= i < |items| && items[i].id == id;
      if i > 0 {
        assert items[1..][i - 1].id == id;
      }
    }
  }

  /** Without a death, every row an approval has read ends up in history, whatever happens beside it. */
  lemma {:induction false} SelectedAreSaved(s: State, es: seq<Event>, t: TaskId, id: Id)
    requires IsRun(s, es) && Crash !in es && SavedOrInHand(s, t, id)
    ensures SavedOrInHand(Final(s, es), t, id)
    ensures t !in Final(s, es).tasks ==> id in Final(s, es).messages
    decreases |es|
  {
    if es != [] {
      assert es[0] in es;
      StepKeepsInHand(s, es[0], t, id);
      SelectedAreSaved(Apply(s, es[0]), es[1..], t, id);
    }
  }

  /** A pending row leaves only with its sender's approval or block. Then it is in history or in an
      approval's hands, or booked as lost or purged. */
  lemma PendingLeavesTwoWays(s: State, e: Event, id: Id)
    requires Inv(s) && Enabled(s, e) && id in s.pending && id !in Apply(s, e).pending
    ensures (e.Delete? || e.Purge?) && s.tasks[e.t].a == s.pending[id].from
    ensures var t := Apply(s, e);
      id in t.messages || id in Hands(t.tasks) <==> if e.Delete? then id !in t.log.lost else id !in t.log.purged
  {
    var a := s.tasks[e.t].a;
    assert Located(s, id) && id in s.log.accepted;
    if e.Delete? {
      HandsStay(s.tasks, e.t, Saving(a, s.tasks[e.t].items));
    } else {
      HandsGone(s.tasks, e.t);
    }
    assert id in PendingOf(s.pending, a);
  }

  lemma {:induction false} DistinctCount(q: seq<Id>, keys: set<Id>)
    requires forall i, j :: 0 <= i < j < |q| ==> q[i] != q[j]
    requires forall id :: id in q <==> id in keys
    ensures |q| == |keys|
    decreases |q|
  {
    if q == [] {
      assert keys == {};
    } else {
      assert q[0] in keys && q[1..] + [] == q[1..];
      forall id
        ensures id in q[1..] <==> id in keys - {q[0]}
      {
        assert q == [q[0]] + q[1..];
      }
      DistinctCount(q[1..], keys - {q[0]});
    }
  }

  /* ---------------- pending rows of contacts and blocked senders ---------------- */

  // An operation under way will still delete this sender's rows.
  predicate WillApprove(s: State, a: Addr) {
    exists t :: t in s.tasks && (s.tasks[t].Approving? || s.tasks[t].Selected?) && s.tasks[t].a == a
  }

  predicate WillPurge(s: State, a: Addr) {
    exists t :: t in s.tasks && (s.tasks[t].Blocking? || s.tasks[t].Purging?) && s.tasks[t].a == a
  }

  predicate Covered(s: State, a: Addr) {
    (a in s.contacts ==> WillApprove(s, a)) && (a in s.blocked ==> WillPurge(s, a))
  }

  predicate AllCovered(s: State) {
    forall id :: id in s.pending ==> Covered(s, s.pending[id].from)
  }

  // A row is not saved for a sender who is approved or blocked already, and no death cuts an approval or
  // a block short.
  predicate Timely(s: State, e: Event)
    requires Enabled(s, e)
  {
    match e
    case Hold => s.handler.d.id in s.pending || Covered(s, From(s.handler.d))
    case Crash => forall id :: id in s.pending ==> s.pending[id].from !in s.contacts && s.pending[id].from !in s.blocked
    case _ => true
  }

  lemma TaskStays(s: State, t: State, a: Addr)
    requires forall u :: u in s.tasks && (u !in t.tasks || t.tasks[u] != s.tasks[u]) ==> s.tasks[u].a != a
    ensures WillApprove(s, a) ==> WillApprove(t, a)
    ensures WillPurge(s, a) ==> WillPurge(t, a)
  {
    if WillApprove(s, a) {
      var u :| u in s.tasks && (s.tasks[u].Approving? || s.tasks[u].Selected?) && s.tasks[u].a == a;
      assert u in t.tasks;
    }
    if WillPurge(s, a) {
      var u :| u in s.tasks && (s.tasks[u].Blocking? || s.tasks[u].Purging?) && s.tasks[u].a == a;
      assert u in t.tasks;
    }
  }

  // An approval or a block begins.
  lemma BeginKeepsCover(s: State, e: Event, a: Addr)
    requires Enabled(s, e) && (e.Upsert? || e.Block?) && Covered(s, a)
    ensures Covered(Apply(s, e), a)
  {
    var t := Apply(s, e);
    assert t.tasks[e.t] == if e.Upsert? then Approving(Normalize(e.address)) else Blocking(Normalize(e.address));
    TaskStays(s, t, a);
  }

  // Another sender's rows are deleted.
  lemma DeletionKeepsCover(s: State, e: Event, a: Addr)
    requires Enabled(s, e) && (e.Delete? || e.Purge?) && Covered(s, a) && HasPending(Apply(s, e).pending, a)
    ensures Covered(Apply(s, e), a)
  {
    TaskStays(s, Apply(s, e), a);
  }

  // A step of one operation leaves the other operations under way.
  lemma StepKeepsCover(s: State, e: Event, a: Addr)
    requires Enabled(s, e) && !e.Crash? && Covered(s, a) && HasPending(Apply(s, e).pending, a)
    requires e.Hold? || HasPending(s.pending, a)
    ensures Covered(Apply(s, e), a)
  {
    if e.Upsert? || e.Block? {
      BeginKeepsCover(s, e, a);
    } else if e.Delete? || e.Purge? {
      DeletionKeepsCover(s, e, a);
    } else if e.Select? || e.Unlist? || e.SaveNext? {
      OperationKeepsCover(s, e, a);
    } else {
      SameTasksCover(s, Apply(s, e), a);
    }
  }

  // An operation goes on.
  lemma OperationKeepsCover(s: State, e: Event, a: Addr)
    requires Enabled(s, e) && (e.Select? || e.Unlist? || e.SaveNext?) && Covered(s, a) && HasPending(s.pending, a)
    ensures Covered(Apply(s, e), a)
  {
    if e.Select? {
      SelectKeepsCover(s, e.t, e.rows, a);
    } else if e.Unlist? {
      UnlistKeepsCover(s, e.t, a);
    } else {
      SaveNextKeepsCover(s, e, a);
    }
  }

  lemma SameTasksCover(s: State, t: State, a: Addr)
    requires t.tasks == s.tasks && (a in t.contacts ==> a in s.contacts) && (a in t.blocked ==> a in s.blocked)
    ensures Covered(s, a) ==> Covered(t, a)
  {
  }

  lemma SelectKeepsCover(s: State, u: TaskId, rows: seq<Item>, a: Addr)
    requires Enabled(s, Select(u, rows)) && HasPending(s.pending, a)
    ensures WillApprove(s, a) ==> WillApprove(Apply(s, Select(u, rows)), a)
    ensures WillPurge(s, a) ==> WillPurge(Apply(s, Select(u, rows)), a)
  {
    var t := Apply(s, Select(u, rows));
    if rows == [] {
      assert s.tasks[u].a != a by {
        var id :| id in s.pending && s.pending[id].from == a;
        assert id !in PendingOf(s.pending, s.tasks[u].a);
      }
      TaskStays(s, t, a);
    } else {
      assert t.tasks[u] == Selected(s.tasks[u].a, rows);
      if WillApprove(s, a) {
        var v :| v in s.tasks && (s.tasks[v].Approving? || s.tasks[v].Selected?) && s.tasks[v].a == a;
        assert v in t.tasks;
      }
      if WillPurge(s, a) {
        var v :| v in s.tasks && (s.tasks[v].Blocking? || s.tasks[v].Purging?) && s.tasks[v].a == a;
        assert v in t.tasks && t.tasks[v] == s.tasks[v];
      }
    }
  }

  lemma UnlistKeepsCover(s: State, u: TaskId, a: Addr)
    requires Enabled(s, Unlist(u))
    ensures WillApprove(s, a) ==> WillApprove(Apply(s, Unlist(u)), a)
    ensures WillPurge(s, a) ==> WillPurge(Apply(s, Unlist(u)), a)
  {
    var t := Apply(s, Unlist(u));
    assert t.tasks[u] == Purging(s.tasks[u].a);
    if WillApprove(s, a) {
      var v :| v in s.tasks && (s.tasks[v].Approving? || s.tasks[v].Selected?) && s.tasks[v].a == a;
      assert v in t.tasks && t.tasks[v] == s.tasks[v];
    }
    if WillPurge(s, a) {
      var v :| v in s.tasks && (s.tasks[v].Blocking? || s.tasks[v].Purging?) && s.tasks[v].a == a;
      assert v in t.tasks;
    }
  }

  lemma SaveNextKeepsCover(s: State, e: Event, a: Addr)
    requires Enabled(s, e) && e.SaveNext?
    ensures WillApprove(s, a) ==> WillApprove(Apply(s, e), a)
    ensures WillPurge(s, a) ==> WillPurge(Apply(s, e), a)
  {
    var t := Apply(s, e);
    if WillApprove(s, a) {
      var v :| v in s.tasks && (s.tasks[v].Approving? || s.tasks[v].Selected?) && s.tasks[v].a == a;
      assert v in t.tasks && t.tasks[v] == s.tasks[v];
    }
    if WillPurge(s, a) {
      var v :| v in s.tasks && (s.tasks[v].Blocking? || s.tasks[v].Purging?) && s.tasks[v].a == a;
      assert v in t.tasks && t.tasks[v] == s.tasks[v];
    }
  }

  /** Which steps leave a pending row behind for a contact or a blocked sender: exactly the late saves and
      the untimely deaths. */
  lemma StepUncoversIff(s: State, e: Event)
    requires Enabled(s, e) && AllCovered(s)
    ensures AllCovered(Apply(s, e)) <==> Timely(s, e)
  {
    var t := Apply(s, e);
    if e.Hold? {
      HoldCoversIff(s);
    } else if !e.Crash? {
      forall id | id in t.pending
        ensures Covered(t, t.pending[id].from)
      {
        assert id in s.pending && s.pending[id].from == t.pending[id].from;
        StepKeepsCover(s, e, t.pending[id].from);
      }
    }
  }

  lemma HoldCoversIff(s: State)
    requires Enabled(s, Hold) && AllCovered(s)
    ensures AllCovered(Apply(s, Hold)) <==> s.handler.d.id in s.pending || Covered(s, From(s.handler.d))
  {
    var d, t := s.handler.d, Apply(s, Hold);
    assert forall a :: Covered(t, a) <==> Covered(s, a);
    assert d.id !in s.pending ==> t.pending[d.id].from == From(d);
    assert forall id :: id in t.pending ==> id == d.id || id in s.pending;
  }

  predicate TimelyRun(s: State, es: seq<Event>)
    requires IsRun(s, es)
    decreases |es|
  {
    es == [] || (Timely(s, es[0]) && TimelyRun(Apply(s, es[0]), es[1..]))
  }

  lemma {:induction false} RunKeepsCovered(s: State, es: seq<Event>)
    requires IsRun(s, es) && AllCovered(s) && TimelyRun(s, es)
    ensures AllCovered(Final(s, es))
    decreases |es|
  {
    if es != [] {
      StepUncoversIff(s, es[0]);
      RunKeepsCovered(Apply(s, es[0]), es[1..]);
    }
  }

  /** In every reachable state history holds each id once and Reply's target is the last message shown.
      After a run of timely steps a pending row belongs to a contact or a blocked sender only while an
      approval or block under way has still to delete it, so at rest to neither. */
  lemma TablesAreConsistent(es: seq<Event>)
    requires IsRun(INIT, es)
    ensures var s := Final(INIT, es);
      && |s.inserted| == |s.messages| && (forall id :: id in s.inserted <==> id in s.messages)
      && s.lastInbound == LastShown(s.log.surfaced)
      && (TimelyRun(INIT, es) ==> AllCovered(s))
      && (TimelyRun(INIT, es) && s.tasks == map[] ==>
        forall id :: id in s.pending ==> s.pending[id].from !in s.contacts && s.pending[id].from !in s.blocked)
  {
    InitOk();
    RunKeeps(INIT, es);
    var s := Final(INIT, es);
    DistinctCount(s.inserted, s.messages.Keys);
    if TimelyRun(INIT, es) {
      RunKeepsCovered(INIT, es);
    }
  }

  // No pending row belongs to a contact or a blocked sender.
  predicate Clean(pending: map<Id, Pending>, contacts: map<Addr, string>, blocked: set<Addr>) {
    forall id :: id in pending ==> pending[id].from !in contacts && pending[id].from !in blocked
  }

  /** A sender is found unknown, an approval or a block of some address runs from beginning to end, and only
      then the row is saved: it is left behind exactly if the address is the sender's. */
  lemma LateSaveIff(pending: map<Id, Pending>, contacts: map<Addr, string>, blocked: set<Addr>, d: Delivery,
      address: string, name: string)
    requires Clean(pending, contacts, blocked) && From(d) !in contacts && From(d) !in blocked && d.id !in pending
    ensures var a := Normalize(address);
      && (Clean(WithRow(Without(pending, a), d), WithContact(contacts, a, name), blocked) <==> From(d) != a)
      && (Clean(WithRow(Without(pending, a), d), contacts - {a}, blocked + {a}) <==> From(d) != a)
  {
    var a := Normalize(address);
    var late := WithRow(Without(pending, a), d);
    assert d.id in late && late[d.id].from == From(d);
  }

  // No death and no block.
  predicate Peaceful(es: seq<Event>) {
    forall i :: 0 <= i < |es| ==> !es[i].Crash? && !es[i].Block?
  }

  // One more peaceful event on a trace.
  lemma Extend(start: State, es: seq<Event>, s: State, e: Event, t: State) returns (longer: seq<Event>)
    requires IsRun(start, es) && Final(start, es) == s && Peaceful(es)
    requires Enabled(s, e) && Apply(s, e) == t && !e.Crash? && !e.Block?
    ensures IsRun(start, longer) && Final(start, longer) == t && Peaceful(longer)
  {
    RunSnoc(start, es, e);
    longer := es + [e];
  }

  // The read loop with a message of a stranger, up to where its sender was found unknown.
  lemma ToUnknown(s: State, d: Delivery) returns (es: seq<Event>)
    requires d.kind.Dm? && d.verified && s.handler.Idle? && From(d) !in s.contacts && From(d) !in s.blocked
    ensures IsRun(s, es) && Peaceful(es) && Final(s, es) == s.(handler := Unknown(d))
  {
    es := Extend(s, [], s, Emit(d), s.(handler := Admitted(d)));
    es := Extend(s, es, s.(handler := Admitted(d)), Route(false, 0), s.(handler := Unknown(d)));
  }

  /** A run to such a row, without any death. */
  lemma LateSaveRun(d: Delivery) returns (es: seq<Event>)
    requires d.kind.Dm? && d.verified
    ensures IsRun(INIT, es) && Peaceful(es)
    ensures var s := Final(INIT, es);
      s.tasks == map[] && d.id in s.pending && s.pending[d.id].from == From(d) && From(d) in s.contacts
  {
    es := ToUnknown(INIT, d);
    var s2 := INIT.(handler := Unknown(d));
    var s3 := s2.(contacts := map[From(d) := ""], tasks := map[0 := Approving(From(d))]);
    es := Extend(INIT, es, s2, Upsert(0, d.rawFrom, ""), s3);
    assert PendingOf(s3.pending, From(d)) == map[];
    var s4 := s2.(contacts := map[From(d) := ""]);
    es := Extend(INIT, es, s3, Select(0, []), s4);
    es := Extend(INIT, es, s4, Hold, Apply(s4, Hold));
  }

  /* ---------------- one operation undisturbed ---------------- */

  // The save loop of addContactAndFlush.
  function SaveAll(s: State, a: Addr, items: seq<Item>, now: int): State
    decreases |items|
  {
    if items == [] then s else SaveAll(SaveItem(s, a, items[0], now), a, items[1..], now)
  }

  // The ids of the rows that are new to the history, in the order of the rows.
  function NewIds(messages: map<Id, Message>, items: seq<Item>): seq<Id>
    decreases |items|
  {
    if items == [] then []
    else (if items[0].id in messages then [] else [items[0].id]) + NewIds(messages, items[1..])
  }

  predicate DistinctIds(items: seq<Item>) {
    forall i, j :: 0 <= i < j < |items| ==> items[i].id != items[j].id
  }

  predicate HasId(items: seq<Item>, id: Id) {
    exists i :: 0 <= i < |items| && items[i].id == id
  }

  lemma NewIdsLater(messages: map<Id, Message>, id: Id, m: Message, items: seq<Item>)
    requires !HasId(items, id)
    ensures NewIds(InsertOrIgnore(messages, id, m), items) == NewIds(messages, items)
    decreases |items|
  {
    if items != [] {
      assert items[0].id != id;
      assert forall i :: 0 <= i < |items[1..]| ==> items[1..][i] == items[i + 1];
      NewIdsLater(messages, id, m, items[1..]);
    }
  }

  lemma FirstNewId(messages: map<Id, Message>, items: seq<Item>, m: Message)
    requires items != [] && DistinctIds(items)
    ensures NewIds(messages, items) ==
      (if items[0].id in messages then [] else [items[0].id]) + NewIds(InsertOrIgnore(messages, items[0].id, m), items[1..])
  {
    var tail := items[1..];
    assert forall i :: 0 <= i < |tail| ==> tail[i] == items[i + 1] && tail[i].id != items[0].id;
    NewIdsLater(messages, items[0].id, m, tail);
  }

  lemma InsertedFirst(s: State, items: seq<Item>, m: Message)
    requires items != [] && DistinctIds(items)
    ensures var t := SaveMessage(s, items[0].id, m);
      t.inserted + NewIds(t.messages, items[1..]) == s.inserted + NewIds(s.messages, items)
  {
    FirstNewId(s.messages, items, m);
    var t := SaveMessage(s, items[0].id, m);
    var x := if items[0].id in s.messages then [] else [items[0].id];
    assert t.inserted == s.inserted + x;
    Regroup(s.inserted, x, NewIds(t.messages, items[1..]));
  }

  lemma Regroup(a: seq<Id>, b: seq<Id>, c: seq<Id>)
    ensures a + b + c == a + (b + c)
  {
  }

  lemma {:induction false} SaveAllOrder(s: State, a: Addr, items: seq<Item>, now: int)
    requires DistinctIds(items)
    ensures var t := SaveAll(s, a, items, now);
      t == s.(messages := t.messages, inserted := s.inserted + NewIds(s.messages, items))
    decreases |items|
  {
    if items != [] {
      var row, tail := items[0].row, items[1..];
      var m := Message(a, In, row.plaintext, Stamp(row.ts, now));
      assert forall i :: 0 <= i < |tail| ==> tail[i] == items[i + 1] && tail[i].id != items[0].id;
      var s1 := SaveMessage(s, items[0].id, m);
      SaveAllOrder(s1, a, tail, now);
      InsertedFirst(s, items, m);
    }
  }

  /** Saving flushed rows: each lands in history unless its id was there already, and nothing that was
      there changes. */
  lemma {:induction false} SaveAllRows(s: State, a: Addr, items: seq<Item>, now: int, id: Id)
    requires DistinctIds(items)
    ensures id in SaveAll(s, a, items, now).messages <==> id in s.messages || HasId(items, id)
    ensures id in s.messages ==> SaveAll(s, a, items, now).messages[id] == s.messages[id]
    ensures forall i :: 0 <= i < |items| && items[i].id == id && id !in s.messages ==>
      SaveAll(s, a, items, now).messages[id] == Message(a, In, items[i].row.plaintext, Stamp(items[i].row.ts, now))
    decreases |items|
  {
    if items != [] {
      var row, tail := items[0].row, items[1..];
      assert forall i :: 0 <= i < |tail| ==> tail[i] == items[i + 1] && tail[i].id != items[0].id;
      SaveAllRows(SaveMessage(s, items[0].id, Message(a, In, row.plaintext, Stamp(row.ts, now))), a, tail, now, id);
      assert HasId(items, id) <==> items[0].id == id || HasId(tail, id) by {
        if HasId(items, id) {
          var i :| 0 <= i < |items| && items[i].id == id;
          assert i > 0 ==> tail[i - 1].id == id;
        }
      }
    }
  }

  lemma SaveAllKeys(s: State, a: Addr, items: seq<Item>, now: int)
    requires DistinctIds(items)
    ensures forall id :: id in SaveAll(s, a, items, now).messages <==> id in s.messages || HasId(items, id)
  {
    forall id
      ensures id in SaveAll(s, a, items, now).messages <==> id in s.messages || HasId(items, id)
    {
      SaveAllRows(s, a, items, now, id);
    }
  }

  lemma {:induction false} SaveAllKeeps(s: State, a: Addr, items: seq<Item>, now: int)
    requires InsertedOk(s)
    ensures InsertedOk(SaveAll(s, a, items, now))
    decreases |items|
  {
    if items != [] {
      var row := items[0].row;
      SaveAllKeeps(SaveMessage(s, items[0].id, Message(a, In, row.plaintext, Stamp(row.ts, now))), a, items[1..], now);
    }
  }

  // What an approval alone makes of the tables.
  function ApprovedAlone(s: State, address: string, name: string, items: seq<Item>, now: int): State {
    var a := Normalize(address);
    SaveAll(s.(contacts := WithContact(s.contacts, a, name), pending := Without(s.pending, a)), a, items, now)
  }

  function Saves(t: TaskId, n: nat, now: int): seq<Event> {
    seq(n, _ => SaveNext(t, now))
  }

  // The statements of one approval.
  function ApprovalSteps(t: TaskId, address: string, name: string, items: seq<Item>, now: int): seq<Event> {
    [Upsert(t, address, name), Select(t, items)] + if items == [] then [] else [Delete(t)] + Saves(t, |items|, now)
  }

  lemma {:induction false} SavesAlone(s: State, t: TaskId, now: int)
    requires t in s.tasks && s.tasks[t].Saving? && s.tasks[t].items != []
    ensures var es := Saves(t, |s.tasks[t].items|, now);
      IsRun(s, es) && Final(s, es) == SaveAll(s, s.tasks[t].a, s.tasks[t].items, now).(tasks := s.tasks - {t})
    decreases |s.tasks[t].items|
  {
    var a, items := s.tasks[t].a, s.tasks[t].items;
    var es := Saves(t, |items|, now);
    var s1 := Apply(s, es[0]);
    if |items| == 1 {
      RunOne(s, es[0]);
      assert es == [es[0]] && items[1..] == [];
    } else {
      SavesAlone(s1, t, now);
      assert es[1..] == Saves(t, |items| - 1, now);
      SaveAllFrame(SaveItem(s, a, items[0], now), a, items[1..], now, s1.tasks);
      assert s1.tasks - {t} == s.tasks - {t};
    }
  }

  lemma NextSave(s: State, t: TaskId, n: nat, now: int)
    requires n > 0 && IsRun(s, Saves(t, n, now))
    ensures Enabled(s, SaveNext(t, now))
    ensures var u := Apply(s, SaveNext(t, now));
      IsRun(u, Saves(t, n - 1, now)) && Final(u, Saves(t, n - 1, now)) == Final(s, Saves(t, n, now))
  {
    assert Saves(t, n, now)[1..] == Saves(t, n - 1, now);
  }

  // The save loop does not look at the tasks.
  lemma {:induction false} SaveAllFrame(s: State, a: Addr, items: seq<Item>, now: int, tasks: map<TaskId, Task>)
    ensures SaveAll(s.(tasks := tasks), a, items, now) == SaveAll(s, a, items, now).(tasks := tasks)
    decreases |items|
  {
    if items != [] {
      SaveAllFrame(SaveItem(s, a, items[0], now), a, items[1..], now, tasks);
    }
  }

  ghost predicate InTsOrder(ids: seq<Id>, rows: map<Id, Pending>) {
    && (forall i :: 0 <= i < |ids| ==> ids[i] in rows)
    && (forall i, j :: 0 <= i < j < |ids| ==> rows[ids[i]].ts <= rows[ids[j]].ts)
  }

  lemma InTsOrderCons(id: Id, rest: seq<Id>, rows: map<Id, Pending>)
    requires InTsOrder(rest, rows) && id in rows
    requires forall i :: 0 <= i < |rest| ==> rows[id].ts <= rows[rest[i]].ts
    ensures InTsOrder([id] + rest, rows)
  {
  }

  lemma {:induction false} NewIdsOrdered(messages: map<Id, Message>, items: seq<Item>, rows: map<Id, Pending>)
    requires forall i :: 0 <= i < |items| ==> items[i].id in rows && rows[items[i].id] == items[i].row
    requires Ordered(items, OldestFirst)
    ensures InTsOrder(NewIds(messages, items), rows)
    decreases |items|
  {
    if items != [] {
      var tail := items[1..];
      assert forall i :: 0 <= i < |tail| ==> tail[i] == items[i + 1];
      assert forall i :: 0 <= i < |items| ==> OldestFirst(items[0].row, items[i].row);
      NewIdsOrdered(messages, tail, rows);
      NewIdsAbove(messages, tail, rows, items[0].row.ts);
      InTsOrderCons(items[0].id, NewIds(messages, tail), rows);
      assert [] + NewIds(messages, tail) == NewIds(messages, tail);
    }
  }

  lemma {:induction false} NewIdsAbove(messages: map<Id, Message>, items: seq<Item>,
      rows: map<Id, Pending>, ts: int)
    requires forall i :: 0 <= i < |items| ==>
      items[i].id in rows && rows[items[i].id] == items[i].row && ts <= items[i].row.ts
    ensures forall i :: 0 <= i < |NewIds(messages, items)| ==>
      NewIds(messages, items)[i] in rows && ts <= rows[NewIds(messages, items)[i]].ts
    decreases |items|
  {
    if items != [] {
      assert forall i :: 0 <= i < |items[1..]| ==> items[1..][i] == items[i + 1];
      NewIdsAbove(messages, items[1..], rows, ts);
    }
  }

  lemma FlushedIds(items: seq<Item>, pending: map<Id, Pending>, a: Addr)
    requires Enumerates(items, PendingOf(pending, a))
    ensures DistinctIds(items)
    ensures forall id :: HasId(items, id) <==> id in pending && pending[id].from == a
  {
    forall id
      ensures HasId(items, id) <==> id in pending && pending[id].from == a
    {
      if id in pending && pending[id].from == a {
        assert id in PendingOf(pending, a);
      }
    }
  }

  // After its delete, an approval that nobody disturbed.
  function DeletedAlone(s: State, t: TaskId, a: Addr, name: string, items: seq<Item>): State {
    s.(contacts := WithContact(s.contacts, a, name), pending := Without(s.pending, a),
       tasks := s.tasks[t := Saving(a, items)])
  }

  lemma ToDeleted(s: State, t: TaskId, address: string, name: string, items: seq<Item>)
    requires t !in s.tasks && Enumerates(items, PendingOf(s.pending, Normalize(address))) && Ordered(items, OldestFirst)
    requires items != []
    ensures var es := [Upsert(t, address, name), Select(t, items), Delete(t)];
      IsRun(s, es) && Final(s, es) == DeletedAlone(s, t, Normalize(address), name, items)
  {
    var e1, e2, e3 := Upsert(t, address, name), Select(t, items), Delete(t);
    var s1 := Apply(s, e1);
    NothingLostAlone(s1, t, items);
    RunOne(s, e1);
    RunSnoc(s, [e1], e2);
    RunSnoc(s, [e1] + [e2], e3);
    assert [e1] + [e2] + [e3] == [e1, e2, e3];
  }

  /** Undisturbed, the statements of an approval do what it is for. */
  lemma ApprovalAlone(s: State, t: TaskId, address: string, name: string, items: seq<Item>, now: int)
    requires t !in s.tasks && Enumerates(items, PendingOf(s.pending, Normalize(address))) && Ordered(items, OldestFirst)
    ensures var es := ApprovalSteps(t, address, name, items, now);
      IsRun(s, es) && Final(s, es) == ApprovedAlone(s, address, name, items, now)
  {
    var a := Normalize(address);
    if items == [] {
      EmptyApprovalAlone(s, t, address, name, now);
    } else {
      var front, saves := [Upsert(t, address, name), Select(t, items), Delete(t)], Saves(t, |items|, now);
      ToDeleted(s, t, address, name, items);
      SavesAlone(Final(s, front), t, now);
      RunConcat(s, front, saves);
      SplitApproval(t, address, name, items, now);
      SavedAlone(s, t, a, name, items, now);
    }
  }

  lemma SplitApproval(t: TaskId, address: string, name: string, items: seq<Item>, now: int)
    requires items != []
    ensures [Upsert(t, address, name), Select(t, items), Delete(t)] + Saves(t, |items|, now)
      == ApprovalSteps(t, address, name, items, now)
  {
  }

  lemma SavedAlone(s: State, t: TaskId, a: Addr, name: string, items: seq<Item>, now: int)
    requires t !in s.tasks
    ensures var d := DeletedAlone(s, t, a, name, items);
      SaveAll(d, a, items, now).(tasks := d.tasks - {t})
      == SaveAll(s.(contacts := WithContact(s.contacts, a, name), pending := Without(s.pending, a)), a, items, now)
  {
    var moved := s.(contacts := WithContact(s.contacts, a, name), pending := Without(s.pending, a));
    var tasks := s.tasks[t := Saving(a, items)];
    SaveAllFrame(moved, a, items, now, tasks);
    assert tasks - {t} == s.tasks;
    SaveAllTasks(moved, a, items, now);
  }

  lemma {:induction false} SaveAllTasks(s: State, a: Addr, items: seq<Item>, now: int)
    ensures SaveAll(s, a, items, now).tasks == s.tasks
    decreases |items|
  {
    if items != [] {
      SaveAllTasks(SaveItem(s, a, items[0], now), a, items[1..], now);
    }
  }

  lemma EmptyApprovalAlone(s: State, t: TaskId, address: string, name: string, now: int)
    requires t !in s.tasks && Enumerates([], PendingOf(s.pending, Normalize(address)))
    ensures var es := ApprovalSteps(t, address, name, [], now);
      IsRun(s, es) && Final(s, es) == ApprovedAlone(s, address, name, [], now)
  {
    var e1, e2, a := Upsert(t, address, name), Select(t, []), Normalize(address);
    RunOne(s, e1);
    RunSnoc(s, [e1], e2);
    assert [e1] + [e2] == ApprovalSteps(t, address, name, [], now);
    assert s.tasks[t := Approving(a)] - {t} == s.tasks;
    NothingToDelete(s.pending, a);
  }

  lemma NothingToDelete(pending: map<Id, Pending>, a: Addr)
    requires Enumerates([], PendingOf(pending, a))
    ensures Without(pending, a) == pending
  {
    FlushedIds([], pending, a);
  }

  lemma NothingLostAlone(s: State, t: TaskId, items: seq<Item>)
    requires Enabled(s, Select(t, items)) && items != []
    ensures Apply(Apply(s, Select(t, items)), Delete(t)).log == s.log
  {
    HandsSelect(s, t, items);
    assert NowhereElse(Apply(s, Select(t, items)), s.tasks[t].a) == {};
  }

  /** Undisturbed, approving a sender empties its pending rows into history, oldest first, and touches
      nobody else's. An id that history has already keeps its first content. */
  lemma AddContactMovesAll(s: State, address: string, name: string, items: seq<Item>, now: int)
    requires Enumerates(items, PendingOf(s.pending, Normalize(address))) && Ordered(items, OldestFirst)
    ensures var a, t := Normalize(address), ApprovedAlone(s, address, name, items, now);
      && a in t.contacts && !HasPending(t.pending, a)
      && (forall id :: id in t.pending <==> id in s.pending && s.pending[id].from != a)
      && (forall id :: id in t.pending ==> t.pending[id] == s.pending[id])
      && (forall id :: id in t.messages <==> id in s.messages || (id in s.pending && s.pending[id].from == a))
      && (forall id :: id in s.pending && s.pending[id].from == a && id !in s.messages ==>
        t.messages[id] == Message(a, In, s.pending[id].plaintext, Stamp(s.pending[id].ts, now)))
      && s.inserted <= t.inserted
      && (forall i, j :: |s.inserted| <= i < j < |t.inserted| ==>
        t.inserted[i] in s.pending && t.inserted[j] in s.pending
        && s.pending[t.inserted[i]].ts <= s.pending[t.inserted[j]].ts)
  {
    var a := Normalize(address);
    var s1 := s.(contacts := WithContact(s.contacts, a, name), pending := Without(s.pending, a));
    var t := ApprovedAlone(s, address, name, items, now);
    FlushedIds(items, s.pending, a);
    SaveAllOrder(s1, a, items, now);
    SaveAllKeys(s1, a, items, now);
    forall id | id in s.pending && s.pending[id].from == a && id !in s.messages
      ensures t.messages[id] == Message(a, In, s.pending[id].plaintext, Stamp(s.pending[id].ts, now))
    {
      assert id in PendingOf(s.pending, a);
      var i :| 0 <= i < |items| && items[i].id == id;
      SaveAllRows(s1, a, items, now, id);
    }
    NewIdsOrdered(s.messages, items, PendingOf(s.pending, a));
    assert t.inserted == s.inserted + NewIds(s.messages, items);
  }

  /** A row saved between an approval's select and its delete: of the rows then pending it is the only one
      that can be gone afterwards, and it is gone exactly if the approval is of its sender and had read any
      rows, and the message was neither pending nor in history before. */
  lemma LateRowLostIff(s: State, a: Addr, items: seq<Item>, d: Delivery, now: int, id: Id)
    requires Enumerates(items, PendingOf(s.pending, a)) && id in WithRow(s.pending, d)
    ensures var held := WithRow(s.pending, d);
      var after := if items == [] then held else Without(held, a);
      id !in after && id !in SaveAll(s, a, items, now).messages <==>
        items != [] && id == d.id && From(d) == a && id !in s.pending && id !in s.messages
  {
    FlushedIds(items, s.pending, a);
    SaveAllKeys(s, a, items, now);
    if items != [] {
      assert HasId(items, items[0].id);
    }
  }

  predicate FromOneStranger(d1: Delivery, d2: Delivery) {
    && d1.kind.Dm? && d1.verified && d2.kind.Dm? && d2.verified
    && From(d1) == From(d2) && d1.id != d2.id
  }

  function RowOf(d: Delivery, notified: bool): Pending {
    Pending(From(d), d.plaintext, d.ts, notified)
  }

  // One message of a stranger is held, announced and acknowledged.
  function OneHeld(d: Delivery): State {
    INIT.(pending := map[d.id := RowOf(d, true)],
          log := INIT.log.(surfaced := [Notice(From(d), d.id)], accepted := {d.id}, acked := {d.id}))
  }

  lemma OneHeldRun(d: Delivery) returns (es: seq<Event>)
    requires d.kind.Dm? && d.verified
    ensures IsRun(INIT, es) && Peaceful(es) && Final(INIT, es) == OneHeld(d)
  {
    es := ToUnknown(INIT, d);
    var s2 := INIT.(handler := Unknown(d));
    var s3 := INIT.(pending := map[d.id := RowOf(d, false)], handler := Held(d), log := INIT.log.(accepted := {d.id}));
    assert WithRow(map[], d) == s3.pending;
    es := Extend(INIT, es, s2, Hold, s3);
    var s4 := s3.(handler := Unmarked(d));
    es := Extend(INIT, es, s3, AskNotified, s4);
    var s5 := s3.(pending := map[d.id := RowOf(d, true)], handler := Marked(d));
    assert MarkNotified(s4.pending, From(d)) == s5.pending;
    es := Extend(INIT, es, s4, Mark, s5);
    var s6 := s5.(handler := Handled(d, true), log := s5.log.(surfaced := [Notice(From(d), d.id)]));
    es := Extend(INIT, es, s5, Notify, s6);
    es := Extend(INIT, es, s6, Ack, OneHeld(d));
  }

  // An approval has read the stranger's one row, and a second message of the stranger is about to be held.
  function ReadEarly(d1: Delivery, d2: Delivery): State {
    OneHeld(d1).(contacts := map[From(d1) := ""], handler := Unknown(d2),
                 tasks := map[0 := Selected(From(d1), [Entry(d1.id, RowOf(d1, true))])])
  }

  lemma ReadEarlyRun(d1: Delivery, d2: Delivery, start: seq<Event>) returns (es: seq<Event>)
    requires FromOneStranger(d1, d2) && IsRun(INIT, start) && Final(INIT, start) == OneHeld(d1) && Peaceful(start)
    ensures IsRun(INIT, es) && Peaceful(es) && Final(INIT, es) == ReadEarly(d1, d2)
  {
    var a, s, items := From(d1), OneHeld(d1), [Entry(d1.id, RowOf(d1, true))];
    var loop := ToUnknown(s, d2);
    RunConcat(INIT, start, loop);
    es := start + loop;
    var s1 := s.(handler := Unknown(d2));
    var s2 := s1.(contacts := map[a := ""], tasks := map[0 := Approving(a)]);
    es := Extend(INIT, es, s1, Upsert(0, d1.rawFrom, ""), s2);
    assert PendingOf(s2.pending, a) == s2.pending && items[0].id == d1.id;
    es := Extend(INIT, es, s2, Select(0, items), ReadEarly(d1, d2));
  }

  // That message is held and acknowledged.
  function HeldLate(d1: Delivery, d2: Delivery): State {
    var s := ReadEarly(d1, d2);
    s.(pending := s.pending[d2.id := RowOf(d2, false)], handler := Idle,
       log := s.log.(accepted := {d1.id, d2.id}, acked := {d1.id, d2.id}))
  }

  lemma HeldLateRun(d1: Delivery, d2: Delivery, start: seq<Event>) returns (es: seq<Event>)
    requires FromOneStranger(d1, d2) && IsRun(INIT, start) && Final(INIT, start) == ReadEarly(d1, d2) && Peaceful(start)
    ensures IsRun(INIT, es) && Peaceful(es) && Final(INIT, es) == HeldLate(d1, d2)
  {
    var t := HeldLate(d1, d2);
    var s1 := t.(handler := Held(d2), log := t.log.(acked := {d1.id}));
    es := Extend(INIT, start, ReadEarly(d1, d2), Hold, s1);
    assert s1.pending[d1.id].notified && HasNotified(s1.pending, From(d2));
    es := Extend(INIT, es, s1, AskNotified, s1.(handler := Handled(d2, true)));
    es := Extend(INIT, es, s1.(handler := Handled(d2, true)), Ack, t);
  }

  /** A run that loses an acknowledged message without any death or block: its sender is approved, and the
      message is saved after the approval has read the sender's rows and before it deletes them. */
  lemma LateRowIsLost(d1: Delivery, d2: Delivery) returns (es: seq<Event>)
    requires FromOneStranger(d1, d2)
    ensures IsRun(INIT, es) && Peaceful(es)
    ensures var s := Final(INIT, es);
      s.tasks == map[] && d2.id in s.log.acked && !Located(s, d2.id) && d1.id in s.messages
  {
    es := OneHeldRun(d1);
    es := ReadEarlyRun(d1, d2, es);
    es := HeldLateRun(d1, d2, es);
    es := DeletedLateRun(d1, d2, es);
    var s := Final(INIT, es);
    es := Extend(INIT, es, s, SaveNext(0, 0), Apply(s, SaveNext(0, 0)));
    assert Hands(map[]) == {};
  }

  lemma DeletedLateRun(d1: Delivery, d2: Delivery, start: seq<Event>) returns (es: seq<Event>)
    requires FromOneStranger(d1, d2) && IsRun(INIT, start) && Final(INIT, start) == HeldLate(d1, d2) && Peaceful(start)
    ensures IsRun(INIT, es) && Peaceful(es)
    ensures var s := Final(INIT, es);
      && s.tasks == map[0 := Saving(From(d1), [Entry(d1.id, RowOf(d1, true))])]
      && d2.id in s.log.acked && d2.id !in s.pending && s.messages == map[]
  {
    var s := HeldLate(d1, d2);
    es := Extend(INIT, start, s, Delete(0), Apply(s, Delete(0)));
  }

  /** A run that loses an acknowledged message in a death: its sender is approved, and the process dies
      between the delete and the first save. */
  lemma DeathLosesAcked(d: Delivery) returns (es: seq<Event>)
    requires d.kind.Dm? && d.verified
    ensures IsRun(INIT, es) && d.id in Final(INIT, es).log.acked && !Located(Final(INIT, es), d.id)
  {
    es := OneHeldRun(d);
    es := ReadRun(d, es);
    var s := Final(INIT, es);
    es := Extend(INIT, es, s, Delete(0), Apply(s, Delete(0)));
    RunSnoc(INIT, es, Crash);
    es := es + [Crash];
    assert Hands(map[]) == {};
  }

  // An approval has read the stranger's row.
  lemma ReadRun(d: Delivery, start: seq<Event>) returns (es: seq<Event>)
    requires IsRun(INIT, start) && Final(INIT, start) == OneHeld(d) && Peaceful(start)
    ensures IsRun(INIT, es) && Peaceful(es)
    ensures Final(INIT, es) == OneHeld(d).(contacts := map[From(d) := ""],
      tasks := map[0 := Selected(From(d), [Entry(d.id, RowOf(d, true))])])
  {
    var s, items := OneHeld(d), [Entry(d.id, RowOf(d, true))];
    var s1 := s.(contacts := map[From(d) := ""], tasks := map[0 := Approving(From(d))]);
    es := Extend(INIT, start, s, Upsert(0, d.rawFrom, ""), s1);
    assert PendingOf(s1.pending, From(d)) == s1.pending && items[0].id == d.id;
    es := Extend(INIT, es, s1, Select(0, items), s1.(tasks := map[0 := Selected(From(d), items)]));
  }

  /* ---------------- the agent and its tables ---------------- */

  // The rest of handleInboundDM for an unknown sender, alone.
  function HoldAlone(s: State, d: Delivery): State {
    var held := s.(pending := WithRow(s.pending, d), log := Accepted(s.log, d.id));
    if HasNotified(held.pending, From(d)) then held
    else Announce(held.(pending := MarkNotified(held.pending, From(d))), d)
  }

  // What a handler alone makes of the tables.
  function HandledAlone(s: State, d: Delivery, muted: bool, now: int): State {
    if From(d) in s.blocked || (d.kind.Dm? && !d.verified) then s.(handler := Handled(d, false))
    else if d.kind.Dm? && From(d) !in s.contacts then HoldAlone(s, d).(handler := Handled(d, true))
    else HandleKnown(s, d, muted, now).(handler := Handled(d, true))
  }

  function HoldSteps(s: State, d: Delivery): seq<Event> {
    if HasNotified(WithRow(s.pending, d), From(d)) then [Hold, AskNotified] else [Hold, AskNotified, Mark, Notify]
  }

  // The statements of one handler.
  function HandlerSteps(s: State, d: Delivery, muted: bool, now: int): seq<Event> {
    if From(d) in s.blocked || (d.kind.Dm? && !d.verified) then [Emit(d)]
    else if d.kind.Dm? && From(d) !in s.contacts then [Emit(d), Route(muted, now)] + HoldSteps(s, d)
    else [Emit(d), Route(muted, now)]
  }

  lemma HoldRunAlone(s: State, d: Delivery)
    requires s.handler == Unknown(d)
    ensures IsRun(s, HoldSteps(s, d)) && Final(s, HoldSteps(s, d)) == HoldAlone(s, d).(handler := Handled(d, true))
  {
    var s1 := Apply(s, Hold);
    RunOne(s, Hold);
    RunSnoc(s, [Hold], AskNotified);
    assert [Hold] + [AskNotified] == [Hold, AskNotified];
    if !HasNotified(s1.pending, From(d)) {
      RunSnoc(s, [Hold, AskNotified], Mark);
      RunSnoc(s, [Hold, AskNotified] + [Mark], Notify);
      assert [Hold, AskNotified] + [Mark] + [Notify] == [Hold, AskNotified, Mark, Notify];
    }
  }

  lemma RoutedAlone(s: State, d: Delivery, muted: bool, now: int)
    requires s.handler.Idle? && From(d) !in s.blocked && (d.kind.Group? || d.verified)
    ensures var es := [Emit(d), Route(muted, now)];
      IsRun(s, es) && Final(s, es) == RouteOn(s.(handler := Admitted(d)), d, muted, now)
  {
    RunOne(s, Emit(d));
    RunSnoc(s, [Emit(d)], Route(muted, now));
    assert [Emit(d)] + [Route(muted, now)] == [Emit(d), Route(muted, now)];
  }

  lemma StrangerAlone(s: State, d: Delivery, muted: bool, now: int)
    requires s.handler.Idle? && From(d) !in s.blocked && d.kind.Dm? && d.verified && From(d) !in s.contacts
    ensures var es := [Emit(d), Route(muted, now)] + HoldSteps(s, d);
      IsRun(s, es) && Final(s, es) == HoldAlone(s, d).(handler := Handled(d, true))
  {
    var t := s.(handler := Unknown(d));
    RoutedAlone(s, d, muted, now);
    HoldRunAlone(t, d);
    RunConcat(s, [Emit(d), Route(muted, now)], HoldSteps(t, d));
  }

  lemma KnownAlone(s: State, d: Delivery, muted: bool, now: int)
    requires s.handler.Idle? && From(d) !in s.blocked && (d.kind.Group? || (d.verified && From(d) in s.contacts))
    ensures var es := [Emit(d), Route(muted, now)];
      IsRun(s, es) && Final(s, es) == HandleKnown(s, d, muted, now).(handler := Handled(d, true))
  {
    RoutedAlone(s, d, muted, now);
  }

  /** Undisturbed, the statements of a handler route the message to history, to pending, or nowhere. */
  lemma HandlerAlone(s: State, d: Delivery, muted: bool, now: int)
    requires s.handler.Idle?
    ensures var es := HandlerSteps(s, d, muted, now);
      IsRun(s, es) && Final(s, es) == HandledAlone(s, d, muted, now)
  {
    if From(d) in s.blocked || (d.kind.Dm? && !d.verified) {
      RunOne(s, Emit(d));
    } else if d.kind.Dm? && From(d) !in s.contacts {
      StrangerAlone(s, d, muted, now);
    } else {
      KnownAlone(s, d, muted, now);
    }
  }

  lemma BlockAlone(s: State, t: TaskId, address: string)
    requires t !in s.tasks
    ensures var s2, a := Apply(Apply(s, Block(t, address)), Unlist(t)), Normalize(address);
      && s2 == s.(blocked := s.blocked + {a}, contacts := s.contacts - {a}, tasks := s.tasks[t := Purging(a)])
      && Apply(s2, Purge(t)) == BlockedAlone(s, a)
  {
    var a := Normalize(address);
    HandsStay(s.tasks, t, Purging(a));
    assert s.tasks[t := Blocking(a)][t := Purging(a)] == s.tasks[t := Purging(a)];
    assert s.tasks[t := Purging(a)] - {t} == s.tasks;
  }

  // What a block alone makes of the tables.
  function BlockedAlone(s: State, a: Addr): State {
    s.(blocked := s.blocked + {a}, contacts := s.contacts - {a}, pending := Without(s.pending, a),
       log := s.log.(purged := s.log.purged + NowhereElse(s, a)))
  }

  // The steps of the read loop.
  predicate ByReadLoop(e: Event) {
    e.Emit? || e.Route? || e.Hold? || e.AskNotified? || e.Mark? || e.Notify? || e.Ack?
  }

  // The select and, if there are rows, the delete of FlushPending, with `gap` between them.
  function FlushSteps(t: TaskId, rows: seq<Item>, gap: seq<Event>): seq<Event> {
    [Select(t, rows)] + gap + if rows == [] then [] else [Delete(t)]
  }

  class Agent {
    var messages: map<Id, Message>
    var contacts: map<Addr, string>
    var blocked: set<Addr>
    var pending: map<Id, Pending>
    var lastInbound: Option<Surface>
    ghost var inserted: seq<Id>
    var handler: Handler           // the read loop's local state
    ghost var tasks: map<TaskId, Task>
    ghost var log: Log

    ghost function View(): State
      reads this
    {
      State(messages, inserted, contacts, blocked, pending, lastInbound, handler, tasks, log)
    }

    constructor ()
      ensures View() == INIT
    {
      messages, contacts, blocked, pending := map[], map[], {}, map[];
      lastInbound, inserted, handler, tasks, log := None, [], Idle, map[], INIT.log;
    }

    method StoreMessage(id: Id, m: Message)
      modifies this`messages, this`inserted
      ensures View() == SaveMessage(old(View()), id, m)
      ensures messages == if id in old(messages) then old(messages) else old(messages)[id := m]
      ensures inserted == if id in old(messages) then old(inserted) else old(inserted) + [id]
    {
      if id !in messages {
        messages := messages[id := m];
        inserted := inserted + [id];
      }
    }

    // setLastInbound, then the surface event.
    method SurfaceMessage(from: Addr, group: string, id: Id)
      modifies this`lastInbound, this`log
      ensures View() == Show(old(View()), from, group, id)
      ensures lastInbound == Some(Shown(from, group, id))
      ensures log.surfaced == old(log.surfaced) + [Shown(from, group, id)]
    {
      lastInbound := Some(Shown(from, group, id));
      log := log.(surfaced := log.surfaced + [Shown(from, group, id)]);
    }

    method SyncContactName(from: Addr, name: string)
      modifies this`contacts
      ensures contacts == SyncName(old(contacts), from, name)
      ensures contacts == if name == "" || from !in old(contacts) then old(contacts) else old(contacts)[from := name]
    {
      if name != "" && from in contacts {
        contacts := contacts[from := name];
      }
    }

    // What handleInboundGroup does, and handleInboundDM for a contact.
    method HandleKnownSender(d: Delivery, muted: bool, now: int)
      modifies this`messages, this`inserted, this`contacts, this`lastInbound, this`log
      ensures View() == HandleKnown(old(View()), d, muted, now)
      ensures var peer := Normalize(if d.kind.Group? then d.kind.group else d.rawFrom);
        messages == if d.id in old(messages) then old(messages)
          else old(messages)[d.id := Message(peer, In, d.plaintext, if d.ts <= 0 then now else d.ts)]
      ensures var shown := Shown(Normalize(d.rawFrom), if d.kind.Group? then d.kind.group else "", d.id);
        && lastInbound == (if muted then old(lastInbound) else Some(shown))
        && log.surfaced == if muted then old(log.surfaced) else old(log.surfaced) + [shown]
    {
      var from := Normalize(d.rawFrom);
      log := if d.kind.Group? then Stored(log, d.id) else Accepted(log, d.id);
      SyncContactName(from, d.fromName);
      var peer := if d.kind.Group? then Normalize(d.kind.group) else from;
      StoreMessage(d.id, Message(peer, In, d.plaintext, if d.ts <= 0 then now else d.ts));
      if !muted {
        SurfaceMessage(from, if d.kind.Group? then d.kind.group else "", d.id);
      }
    }

    /* The statements of the read loop, one by one. */

    // IsBlocked, and the signature check.
    method AdmitDelivery(d: Delivery) returns (admitted: bool)
      requires handler.Idle?
      modifies this`handler
      ensures View() == Apply(old(View()), Emit(d)) && admitted == handler.Admitted?
      ensures admitted <==> Normalize(d.rawFrom) !in blocked && (d.kind.Group? || d.verified)
    {
      admitted := !(Normalize(d.rawFrom) in blocked || (d.kind.Dm? && !d.verified));
      handler := if admitted then Admitted(d) else Handled(d, false);
    }

    // IsContact, and everything else about a message that does not go to pending.
    method RouteDelivery(d: Delivery, muted: bool, now: int) returns (unknown: bool)
      requires handler == Admitted(d)
      modifies this`messages, this`inserted, this`contacts, this`lastInbound, this`log, this`handler
      ensures View() == Apply(old(View()), Route(muted, now)) && unknown == handler.Unknown?
      ensures unknown <==> d.kind.Dm? && Normalize(d.rawFrom) !in old(contacts)
      ensures unknown ==> messages == old(messages) && log == old(log)
    {
      unknown := d.kind.Dm? && Normalize(d.rawFrom) !in contacts;
      if unknown {
        handler := Unknown(d);
      } else {
        HandleKnownSender(d, muted, now);
        handler := Handled(d, true);
      }
    }

    method SavePending(d: Delivery)
      requires handler == Unknown(d)
      modifies this`pending, this`log, this`handler
      ensures View() == Apply(old(View()), Hold)
      ensures pending == if d.id in old(pending) then old(pending)
        else old(pending)[d.id := Pending(Normalize(d.rawFrom), d.plaintext, d.ts, false)]
    {
      if d.id !in pending {
        pending := pending[d.id := Pending(Normalize(d.rawFrom), d.plaintext, d.ts, false)];
      }
      log, handler := Accepted(log, d.id), Held(d);
    }

    method HasPendingNotified(d: Delivery) returns (notified: bool)
      requires handler == Held(d)
      modifies this`handler
      ensures View() == Apply(old(View()), AskNotified) && notified == handler.Handled?
      ensures notified <==>
        exists id :: id in pending && pending[id].from == Normalize(d.rawFrom) && pending[id].notified
    {
      var from := Normalize(d.rawFrom);
      notified := exists id :: id in pending && pending[id].from == from && pending[id].notified;
      handler := if notified then Handled(d, true) else Unmarked(d);
    }

    method MarkPendingNotified(d: Delivery)
      requires handler == Unmarked(d)
      modifies this`pending, this`handler
      ensures View() == Apply(old(View()), Mark)
      ensures pending.Keys == old(pending).Keys
      ensures forall id | id in pending ::
        pending[id] == (if old(pending)[id].from == Normalize(d.rawFrom)
          then old(pending)[id].(notified := true) else old(pending)[id])
    {
      var from := Normalize(d.rawFrom);
      pending := map id | id in pending ::
        if pending[id].from == from then pending[id].(notified := true) else pending[id];
      handler := Marked(d);
    }

    method SurfacePending(d: Delivery)
      requires handler == Marked(d)
      modifies this`log, this`handler
      ensures View() == Apply(old(View()), Notify)
      ensures log.surfaced == old(log.surfaced) + [Notice(Normalize(d.rawFrom), d.id)]
    {
      log := log.(surfaced := log.surfaced + [Notice(Normalize(d.rawFrom), d.id)]);
      handler := Handled(d, true);
    }

    method WriteAck()
      requires handler.Handled?
      modifies this`log, this`handler
      ensures View() == Apply(old(View()), Ack)
      ensures handler.Idle? && log.acked == old(log.acked) + ({old(handler).d.id} * log.accepted)
    {
      var id := handler.d.id;
      log := log.(acked := if id in log.accepted then log.acked + {id} else log.acked);
      handler := Idle;
    }

    // The rest of handleInboundDM for an unknown sender, undisturbed.
    method HoldPending(d: Delivery)
      requires handler == Unknown(d)
      modifies this`pending, this`log, this`handler
      ensures View() == HoldAlone(old(View()), d).(handler := Handled(d, true))
    {
      SavePending(d);
      var notified := HasPendingNotified(d);
      if !notified {
        MarkPendingNotified(d);
        SurfacePending(d);
      }
    }

    // handleInbound, undisturbed.
    method HandleDelivery(d: Delivery, muted: bool, now: int)
      requires handler.Idle?
      modifies this
      ensures View() == HandledAlone(old(View()), d, muted, now)
    {
      var admitted := AdmitDelivery(d);
      if admitted {
        var unknown := RouteDelivery(d, muted, now);
        if unknown {
          HoldPending(d);
        }
      }
    }

    // The read loop going on beside an operation.
    method ReadLoop(es: seq<Event>)
      requires IsRun(View(), es) && forall i :: 0 <= i < |es| ==> ByReadLoop(es[i])
      modifies this
      ensures View() == Final(old(View()), es) && tasks == old(tasks)
    {
      assert es[0..] == es;
      for i := 0 to |es|
        invariant IsRun(View(), es[i..]) && Final(View(), es[i..]) == Final(old(View()), es)
        invariant tasks == old(tasks)
      {
        ghost var rest := es[i..];
        assert rest[0] == es[i] && rest[1..] == es[i + 1..];
        OneTurn(es[i]);
      }
    }

    method OneTurn(e: Event)
      requires Enabled(View(), e) && ByReadLoop(e)
      modifies this
      ensures View() == Apply(old(View()), e) && tasks == old(tasks)
    {
      match e
      case Emit(d) => var admitted := AdmitDelivery(d);
      case Route(muted, now) => var unknown := RouteDelivery(handler.d, muted, now);
      case Hold => SavePending(handler.d);
      case AskNotified => var notified := HasPendingNotified(handler.d);
      case Mark => MarkPendingNotified(handler.d);
      case Notify => SurfacePending(handler.d);
      case Ack => WriteAck();
    }

    /* The statements of an approval. */

    method UpsertContact(ghost t: TaskId, address: string, name: string)
      requires t !in tasks
      modifies this`contacts, this`tasks
      ensures View() == Apply(old(View()), Upsert(t, address, name))
      ensures var a := Normalize(address);
        contacts == if name == "" && a in old(contacts) then old(contacts) else old(contacts)[a := name]
    {
      var a := Normalize(address);
      contacts := contacts[a := if name == "" && a in contacts then contacts[a] else name];
      tasks := tasks[t := Approving(a)];
    }

    // The first half of FlushPending: the sender's rows, oldest first.
    method SelectPending(ghost t: TaskId, a: Addr) returns (rows: seq<Item>)
      requires t in tasks && tasks[t] == Approving(a)
      modifies this`tasks
      ensures Enabled(old(View()), Select(t, rows)) && View() == Apply(old(View()), Select(t, rows))
      ensures forall i, j :: 0 <= i < j < |rows| ==> rows[i].id != rows[j].id && rows[i].row.ts <= rows[j].row.ts
      ensures forall id :: HasId(rows, id) <==> id in pending && pending[id].from == a
      ensures forall i :: 0 <= i < |rows| ==> rows[i].row == pending[rows[i].id]
    {
      var mine := map id | id in pending && pending[id].from == a :: pending[id];
      rows := OrderBy(mine, OldestFirst);
      FlushedIds(rows, pending, a);
      tasks := if rows == [] then tasks - {t} else tasks[t := Selected(a, rows)];
    }

    // The second half: whatever rows the sender has by now.
    method DeletePending(ghost t: TaskId, a: Addr)
      requires t in tasks && tasks[t].Selected? && tasks[t].a == a
      modifies this`pending, this`tasks, this`log
      ensures View() == Apply(old(View()), Delete(t))
      ensures forall id :: id in pending <==> id in old(pending) && old(pending)[id].from != a
      ensures forall id :: id in pending ==> pending[id] == old(pending)[id]
    {
      log := log.(lost := log.lost + NowhereElse(View(), a));
      pending := map id | id in pending && pending[id].from != a :: pending[id];
      tasks := tasks[t := Saving(a, tasks[t].items)];
    }

    method SaveFlushed(ghost t: TaskId, a: Addr, item: Item, now: int)
      requires t in tasks && tasks[t].Saving? && tasks[t].a == a && tasks[t].items != [] && tasks[t].items[0] == item
      modifies this`messages, this`inserted, this`tasks
      ensures View() == Apply(old(View()), SaveNext(t, now))
      ensures messages == if item.id in old(messages) then old(messages) else old(messages)[
        item.id := Message(a, In, item.row.plaintext, if item.row.ts <= 0 then now else item.row.ts)]
    {
      StoreMessage(item.id, Message(a, In, item.row.plaintext, if item.row.ts <= 0 then now else item.row.ts));
      tasks := if |tasks[t].items| == 1 then tasks - {t} else tasks[t := Saving(a, tasks[t].items[1..])];
    }

    // FlushPending, with the read loop going on between its two statements.
    method FlushPending(ghost t: TaskId, a: Addr, gap: seq<Event>) returns (rows: seq<Item>)
      requires t in tasks && tasks[t] == Approving(a)
      requires forall i :: 0 <= i < |gap| ==> ByReadLoop(gap[i])
      requires forall rows :: Enabled(View(), Select(t, rows)) ==> IsRun(Apply(View(), Select(t, rows)), gap)
      modifies this
      ensures IsRun(old(View()), FlushSteps(t, rows, gap)) && View() == Final(old(View()), FlushSteps(t, rows, gap))
      ensures rows != [] ==> t in tasks && tasks[t] == Saving(a, rows)
    {
      ghost var s := View();
      rows := SelectPending(t, a);
      RunOne(s, Select(t, rows));
      RunConcat(s, [Select(t, rows)], gap);
      ReadLoop(gap);
      if |rows| > 0 {
        RunSnoc(s, [Select(t, rows)] + gap, Delete(t));
        DeletePending(t, a);
      } else {
        assert FlushSteps(t, rows, gap) == [Select(t, rows)] + gap;
      }
    }

    // addContactAndFlush, with the read loop going on between the select and the delete.
    method AddContactAndFlush(ghost t: TaskId, address: string, name: string, now: int, gap: seq<Event>)
      returns (rows: seq<Item>)
      requires t !in tasks && forall i :: 0 <= i < |gap| ==> ByReadLoop(gap[i])
      requires var s := Apply(View(), Upsert(t, address, name));
        forall rows :: Enabled(s, Select(t, rows)) ==> IsRun(Apply(s, Select(t, rows)), gap)
      modifies this
      ensures var es := [Upsert(t, address, name)] + FlushSteps(t, rows, gap) + Saves(t, |rows|, now);
        IsRun(old(View()), es) && View() == Final(old(View()), es)
    {
      ghost var s := View();
      var a := Normalize(address);
      UpsertContact(t, address, name);
      RunOne(s, Upsert(t, address, name));
      rows := FlushPending(t, a, gap);
      ghost var front := [Upsert(t, address, name)] + FlushSteps(t, rows, gap);
      RunConcat(s, [Upsert(t, address, name)], FlushSteps(t, rows, gap));
      if |rows| > 0 {
        SavesAlone(View(), t, now);
        RunConcat(s, front, Saves(t, |rows|, now));
        SaveRows(t, a, rows, now);
      } else {
        assert Saves(t, 0, now) == [] && front + [] == front;
      }
    }

    // The save loop.
    method SaveRows(ghost t: TaskId, a: Addr, rows: seq<Item>, now: int)
      requires t in tasks && tasks[t] == Saving(a, rows) && rows != []
      modifies this`messages, this`inserted, this`tasks
      ensures IsRun(old(View()), Saves(t, |rows|, now)) && View() == Final(old(View()), Saves(t, |rows|, now))
    {
      SavesAlone(View(), t, now);
      ghost var end := Final(View(), Saves(t, |rows|, now));
      for i := 0 to |rows|
        invariant i < |rows| ==> t in tasks && tasks[t] == Saving(a, rows[i..])
        invariant IsRun(View(), Saves(t, |rows| - i, now)) && Final(View(), Saves(t, |rows| - i, now)) == end
      {
        SaveRow(t, a, rows, i, now);
      }
      assert Saves(t, 0, now) == [];
    }

    // One turn of it.
    method SaveRow(ghost t: TaskId, a: Addr, rows: seq<Item>, i: nat, now: int)
      requires i < |rows| && t in tasks && tasks[t] == Saving(a, rows[i..])
      requires IsRun(View(), Saves(t, |rows| - i, now))
      modifies this`messages, this`inserted, this`tasks
      ensures i + 1 < |rows| ==> t in tasks && tasks[t] == Saving(a, rows[i + 1..])
      ensures IsRun(View(), Saves(t, |rows| - i - 1, now))
      ensures Final(View(), Saves(t, |rows| - i - 1, now)) == Final(old(View()), Saves(t, |rows| - i, now))
    {
      NextSave(View(), t, |rows| - i, now);
      assert rows[i..][0] == rows[i] && rows[i..][1..] == rows[i + 1..];
      SaveFlushed(t, a, rows[i], now);
    }

    /* The statements of a block, and the single statements. */

    method InsertBlocked(ghost t: TaskId, address: string)
      requires t !in tasks
      modifies this`blocked, this`tasks
      ensures View() == Apply(old(View()), Block(t, address)) && blocked == old(blocked) + {Normalize(address)}
    {
      blocked := blocked + {Normalize(address)};
      tasks := tasks[t := Blocking(Normalize(address))];
    }

    method DeleteContact(ghost t: TaskId, a: Addr)
      requires t in tasks && tasks[t] == Blocking(a)
      modifies this`contacts, this`tasks
      ensures View() == Apply(old(View()), Unlist(t)) && contacts == old(contacts) - {a}
    {
      contacts := contacts - {a};
      tasks := tasks[t := Purging(a)];
    }

    method PurgePending(ghost t: TaskId, a: Addr)
      requires t in tasks && tasks[t] == Purging(a)
      modifies this`pending, this`tasks, this`log
      ensures View() == Apply(old(View()), Purge(t))
      ensures forall id :: id in pending <==> id in old(pending) && old(pending)[id].from != a
      ensures forall id :: id in pending ==> pending[id] == old(pending)[id]
    {
      log := log.(purged := log.purged + NowhereElse(View(), a));
      pending := map id | id in pending && pending[id].from != a :: pending[id];
      tasks := tasks - {t};
    }

    // BlockContact, undisturbed.
    method BlockContact(ghost t: TaskId, address: string)
      requires t !in tasks
      modifies this
      ensures View() == BlockedAlone(old(View()), Normalize(address))
      ensures blocked == old(blocked) + {Normalize(address)} && contacts == old(contacts) - {Normalize(address)}
      ensures forall id :: id in pending <==> id in old(pending) && old(pending)[id].from != Normalize(address)
      ensures messages == old(messages) && lastInbound == old(lastInbound)
    {
      var a := Normalize(address);
      BlockAlone(View(), t, address);
      InsertBlocked(t, address);
      DeleteContact(t, a);
      PurgePending(t, a);
    }

    method DropContact(address: string)
      modifies this`contacts
      ensures View() == Apply(old(View()), RemoveContact(address)) && contacts == old(contacts) - {Normalize(address)}
    {
      contacts := contacts - {Normalize(address)};
    }

    method UnblockContact(address: string)
      modifies this`blocked
      ensures View() == Apply(old(View()), Unblock(address)) && blocked == old(blocked) - {Normalize(address)}
    {
      blocked := blocked - {Normalize(address)};
    }
  }
}
