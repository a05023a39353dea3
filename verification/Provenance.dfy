/**
Where everything in the inbound tables comes from: each row of history and of pending, each row an approval has
in hand, and each thing surfaced goes back to one message the relay delivered, with that message's own text,
sender and time.
*/
module Provenance {
  import opened Inbound
  import opened Tables
  import opened Text
  import opened Wrappers

  // The conversation a message belongs to: the group, or the sender.
  function PeerOf(d: Delivery): Addr {
    Normalize(if d.kind.Group? then d.kind.group else d.rawFrom)
  }

  predicate IsMessageOf(m: Message, id: Id, d: Delivery) {
    d.id == id && m.peer == PeerOf(d) && m.direction == In && m.content == d.plaintext && (d.ts > 0 ==> m.ts == d.ts)
  }

  predicate IsRowOf(row: Pending, id: Id, d: Delivery) {
    && d.id == id && d.kind.Dm? && d.verified
    && row.from == Normalize(d.rawFrom) && row.plaintext == d.plaintext && row.ts == d.ts
  }

  predicate IsSurfaceOf(x: Surface, d: Delivery) {
    && x.from == Normalize(d.rawFrom) && x.id == d.id
    && (x.Shown? ==> x.group == if d.kind.Group? then d.kind.group else "")
    && (x.Notice? ==> d.kind.Dm? && d.verified)
  }

  ghost predicate MessageSourced(m: Message, id: Id, past: seq<Event>) {
    exists d :: Emit(d) in past && IsMessageOf(m, id, d)
  }

  ghost predicate RowSourced(row: Pending, id: Id, past: seq<Event>) {
    exists d :: Emit(d) in past && IsRowOf(row, id, d)
  }

  ghost predicate SurfaceSourced(x: Surface, past: seq<Event>) {
    exists d :: Emit(d) in past && IsSurfaceOf(x, d)
  }

  // The rows an approval has in hand are its own sender's.
  ghost predicate TaskSourced(task: Task, past: seq<Event>) {
    forall i :: 0 <= i < |Items(task)| ==>
      Items(task)[i].row.from == task.a && RowSourced(Items(task)[i].row, Items(task)[i].id, past)
  }

  // What the read loop holds was emitted, and past the routing of an unknown sender it is a verified DM.
  ghost predicate HandlerSourced(h: Handler, past: seq<Event>) {
    && (!h.Idle? ==> Emit(h.d) in past)
    && (h.Admitted? ==> h.d.kind.Group? || h.d.verified)
    && (h.Unknown? || h.Held? || h.Unmarked? || h.Marked? ==> h.d.kind.Dm? && h.d.verified)
  }

  ghost predicate Sourced(s: State, past: seq<Event>) {
    && (forall id :: id in s.messages ==> MessageSourced(s.messages[id], id, past))
    && (forall id :: id in s.pending ==> RowSourced(s.pending[id], id, past))
    && (forall t :: t in s.tasks ==> TaskSourced(s.tasks[t], past))
    && (forall i :: 0 <= i < |s.log.surfaced| ==> SurfaceSourced(s.log.surfaced[i], past))
    && HandlerSourced(s.handler, past)
  }

  // What had a source has it still after one more event.
  lemma SourcesStay(s: State, past: seq<Event>, e: Event)
    requires Sourced(s, past)
    ensures Sourced(s, past + [e])
  {
    assert forall x :: x in past ==> x in past + [e];
  }

  lemma RouteStaysSourced(s: State, muted: bool, now: int, past: seq<Event>)
    requires Enabled(s, Route(muted, now)) && Sourced(s, past)
    ensures Sourced(Apply(s, Route(muted, now)), past)
  {
    var d := s.handler.d;
    if d.kind.Group? || From(d) in s.contacts {
      KnownStaysSourced(s, d, muted, now, past);
    }
  }

  lemma KnownStaysSourced(s: State, d: Delivery, muted: bool, now: int, past: seq<Event>)
    requires Sourced(s, past) && Emit(d) in past
    ensures Sourced(HandleKnown(s, d, muted, now), past)
  {
    var t := HandleKnown(s, d, muted, now);
    var m := Message(PeerOf(d), In, d.plaintext, Stamp(d.ts, now));
    var shown := Shown(From(d), if d.kind.Group? then d.kind.group else "", d.id);
    assert IsMessageOf(m, d.id, d) && IsSurfaceOf(shown, d);
    OneMoreMessage(s.messages, d.id, m, past);
    OneMoreSurface(s.log.surfaced, shown, past);
    assert t.messages == InsertOrIgnore(s.messages, d.id, m);
    assert t.log.surfaced == if muted then s.log.surfaced else s.log.surfaced + [shown];
    assert t.pending == s.pending && t.tasks == s.tasks && t.handler == s.handler;
  }

  lemma OneMoreMessage(messages: map<Id, Message>, id: Id, m: Message, past: seq<Event>)
    requires MessageSourced(m, id, past) && forall k :: k in messages ==> MessageSourced(messages[k], k, past)
    ensures forall k :: k in InsertOrIgnore(messages, id, m) ==>
      MessageSourced(InsertOrIgnore(messages, id, m)[k], k, past)
  {
  }

  lemma OneMoreSurface(surfaced: seq<Surface>, x: Surface, past: seq<Event>)
    requires SurfaceSourced(x, past) && forall i :: 0 <= i < |surfaced| ==> SurfaceSourced(surfaced[i], past)
    ensures forall i :: 0 <= i < |surfaced + [x]| ==> SurfaceSourced((surfaced + [x])[i], past)
  {
  }

  lemma HoldStaysSourced(s: State, past: seq<Event>)
    requires Enabled(s, Hold) && Sourced(s, past)
    ensures Sourced(Apply(s, Hold), past)
  {
    var d, t := s.handler.d, Apply(s, Hold);
    if d.id !in s.pending {
      assert IsRowOf(t.pending[d.id], d.id, d);
    }
  }

  lemma MarkStaysSourced(s: State, past: seq<Event>)
    requires Enabled(s, Mark) && Sourced(s, past)
    ensures Sourced(Apply(s, Mark), past)
  {
    var t := Apply(s, Mark);
    forall id | id in t.pending
      ensures RowSourced(t.pending[id], id, past)
    {
      var d :| Emit(d) in past && IsRowOf(s.pending[id], id, d);
      assert IsRowOf(t.pending[id], id, d);
    }
  }

  lemma NotifyStaysSourced(s: State, past: seq<Event>)
    requires Enabled(s, Notify) && Sourced(s, past)
    ensures Sourced(Apply(s, Notify), past)
  {
    assert IsSurfaceOf(Apply(s, Notify).log.surfaced[|s.log.surfaced|], s.handler.d);
  }

  lemma SelectStaysSourced(s: State, t: TaskId, rows: seq<Item>, past: seq<Event>)
    requires Enabled(s, Select(t, rows)) && Sourced(s, past)
    ensures Sourced(Apply(s, Select(t, rows)), past)
  {
    if rows != [] {
      var task := Apply(s, Select(t, rows)).tasks[t];
      forall i | 0 <= i < |rows|
        ensures rows[i].row.from == task.a && RowSourced(rows[i].row, rows[i].id, past)
      {
        assert PendingOf(s.pending, s.tasks[t].a)[rows[i].id] == rows[i].row;
      }
      assert TaskSourced(task, past);
    }
  }

  lemma SaveStaysSourced(s: State, t: TaskId, now: int, past: seq<Event>)
    requires Enabled(s, SaveNext(t, now)) && Sourced(s, past)
    ensures Sourced(Apply(s, SaveNext(t, now)), past)
  {
    var a, items := s.tasks[t].a, s.tasks[t].items;
    var m := Message(a, In, items[0].row.plaintext, Stamp(items[0].row.ts, now));
    assert TaskSourced(Saving(a, items), past);
    HandSourced(a, items, now, past);
    OneMoreMessage(s.messages, items[0].id, m, past);
    assert Apply(s, SaveNext(t, now)).messages == InsertOrIgnore(s.messages, items[0].id, m);
  }

  // The first row in hand makes a message, and the others stay in hand.
  lemma HandSourced(a: Addr, items: seq<Item>, now: int, past: seq<Event>)
    requires items != [] && TaskSourced(Saving(a, items), past)
    ensures MessageSourced(Message(a, In, items[0].row.plaintext, Stamp(items[0].row.ts, now)), items[0].id, past)
    ensures TaskSourced(Saving(a, items[1..]), past)
  {
    assert Items(Saving(a, items))[0] == items[0] && RowSourced(items[0].row, items[0].id, past);
    var d :| Emit(d) in past && IsRowOf(items[0].row, items[0].id, d);
    assert IsMessageOf(Message(a, In, items[0].row.plaintext, Stamp(items[0].row.ts, now)), items[0].id, d);
    assert forall i :: 0 <= i < |items[1..]| ==> items[1..][i] == Items(Saving(a, items))[i + 1];
  }

  // The other steps take things away or leave them.
  lemma OtherStepsStaySourced(s: State, e: Event, past: seq<Event>)
    requires Enabled(s, e) && Sourced(s, past) && (e.Emit? ==> e in past)
    requires !e.Route? && !e.Hold? && !e.Mark? && !e.Notify? && !e.Select? && !e.SaveNext?
    ensures Sourced(Apply(s, e), past)
  {
    var t := Apply(s, e);
    OtherStepsAddNothing(s, e);
    forall u | u in t.tasks
      ensures TaskSourced(t.tasks[u], past)
    {
      if Items(t.tasks[u]) != [] {
        assert TaskSourced(s.tasks[u], past);
      }
    }
  }

  lemma OtherStepsAddNothing(s: State, e: Event)
    requires Enabled(s, e) && !e.Route? && !e.Hold? && !e.Mark? && !e.Notify? && !e.Select? && !e.SaveNext?
    ensures var t := Apply(s, e);
      && t.messages == s.messages && t.log.surfaced == s.log.surfaced
      && (forall id :: id in t.pending ==> id in s.pending && t.pending[id] == s.pending[id])
      && (forall u :: u in t.tasks && Items(t.tasks[u]) != [] ==>
        u in s.tasks && Items(t.tasks[u]) == Items(s.tasks[u]) && t.tasks[u].a == s.tasks[u].a)
  {
  }

  lemma StepStaysSourced(s: State, e: Event, past: seq<Event>)
    requires Enabled(s, e) && Sourced(s, past) && (e.Emit? ==> e in past)
    ensures Sourced(Apply(s, e), past)
  {
    match e
    case Route(muted, now) => RouteStaysSourced(s, muted, now, past);
    case Hold => HoldStaysSourced(s, past);
    case Mark => MarkStaysSourced(s, past);
    case Notify => NotifyStaysSourced(s, past);
    case Select(t, rows) => SelectStaysSourced(s, t, rows, past);
    case SaveNext(t, now) => SaveStaysSourced(s, t, now, past);
    case _ => OtherStepsStaySourced(s, e, past);
  }

  lemma {:induction false} RunStaysSourced(s: State, es: seq<Event>, past: seq<Event>)
    requires IsRun(s, es) && Sourced(s, past)
    ensures Sourced(Final(s, es), past + es)
    decreases |es|
  {
    if es == [] {
      assert past + es == past;
    } else {
      SourcesStay(s, past, es[0]);
      assert (past + [es[0]])[|past|] == es[0];
      StepStaysSourced(s, es[0], past + [es[0]]);
      RunStaysSourced(Apply(s, es[0]), es[1..], past + [es[0]]);
      assert past + [es[0]] + es[1..] == past + es;
    }
  }

  /** Nothing is made up or mixed up. After any run each history row carries the text, the sender or group and the
      time of one message the relay delivered under that id, each pending row those of a verified DM, and what was
      surfaced names the sender, the group and the id of a delivered message. */
  lemma EverythingWasDelivered(es: seq<Event>)
    requires IsRun(INIT, es)
    ensures var s := Final(INIT, es);
      && (forall id :: id in s.messages ==> exists d :: Emit(d) in es && IsMessageOf(s.messages[id], id, d))
      && (forall id :: id in s.pending ==> exists d :: Emit(d) in es && IsRowOf(s.pending[id], id, d))
      && (forall i :: 0 <= i < |s.log.surfaced| ==> exists d :: Emit(d) in es && IsSurfaceOf(s.log.surfaced[i], d))
  {
    RunStaysSourced(INIT, es, []);
    assert [] + es == es;
    var s := Final(INIT, es);
    forall id | id in s.messages
      ensures exists d :: Emit(d) in es && IsMessageOf(s.messages[id], id, d)
    {
      assert MessageSourced(s.messages[id], id, es);
    }
    forall id | id in s.pending
      ensures exists d :: Emit(d) in es && IsRowOf(s.pending[id], id, d)
    {
      assert RowSourced(s.pending[id], id, es);
    }
    forall i | 0 <= i < |s.log.surfaced|
      ensures exists d :: Emit(d) in es && IsSurfaceOf(s.log.surfaced[i], d)
    {
      assert SurfaceSourced(s.log.surfaced[i], es);
    }
  }

  // The row with the message's own text, under its group or sender, at its own time or now, unless the id is there;
  // shown, and the reply target, unless muted.
  predicate StoredAndShown(s: State, t: State, d: Delivery, muted: bool, now: int) {
    var shown := Shown(Normalize(d.rawFrom), if d.kind.Group? then d.kind.group else "", d.id);
    && t.messages == (if d.id in s.messages then s.messages
      else s.messages[d.id := Message(PeerOf(d), In, d.plaintext, if d.ts > 0 then d.ts else now)])
    && t.inserted == (if d.id in s.messages then s.inserted else s.inserted + [d.id])
    && t.log.surfaced == (if muted then s.log.surfaced else s.log.surfaced + [shown])
    && t.lastInbound == (if muted then s.lastInbound else Some(shown))
    && t.pending == s.pending
  }

  // Kept in pending unless the id is there, the other rows only marked, and a notice unless one was marked before.
  predicate KeptPending(s: State, t: State, d: Delivery) {
    var from := Normalize(d.rawFrom);
    && t.messages == s.messages && t.lastInbound == s.lastInbound
    && t.pending.Keys == s.pending.Keys + {d.id}
    && (d.id !in s.pending ==>
      t.pending[d.id] == Pending(from, d.plaintext, d.ts, !HasNotified(s.pending, from)))
    && (forall id :: id in s.pending ==> t.pending[id] == s.pending[id].(
      notified := s.pending[id].notified || (s.pending[id].from == from && !HasNotified(s.pending, from))))
    && t.log.surfaced == (if HasNotified(s.pending, from) then s.log.surfaced
      else s.log.surfaced + [Notice(from, d.id)])
  }

  lemma KnownMeans(s: State, d: Delivery, muted: bool, now: int)
    ensures StoredAndShown(s, HandleKnown(s, d, muted, now), d, muted, now)
  {
  }

  lemma HeldMeans(s: State, d: Delivery)
    ensures HasNotified(WithRow(s.pending, d), From(d)) <==> HasNotified(s.pending, From(d))
  {
    var held := WithRow(s.pending, d);
    assert forall id :: id in s.pending ==> held[id] == s.pending[id];
    assert d.id !in s.pending ==> !held[d.id].notified;
  }

  lemma StrangerMeans(s: State, d: Delivery)
    ensures KeptPending(s, HoldAlone(s, d), d)
  {
    HeldMeans(s, d);
  }

  /** What a message becomes when its handler is not disturbed: nothing from a blocked sender, or as a DM that does not
      verify; a group message or a contact's is stored and shown; a stranger's is kept in pending. */
  lemma HandledMeans(s: State, d: Delivery, muted: bool, now: int)
    ensures var t := HandledAlone(s, d, muted, now);
      if Normalize(d.rawFrom) in s.blocked || (d.kind.Dm? && !d.verified) then t == s.(handler := t.handler)
      else if d.kind.Group? || Normalize(d.rawFrom) in s.contacts then StoredAndShown(s, t, d, muted, now)
      else KeptPending(s, t, d)
  {
    KnownMeans(s, d, muted, now);
    StrangerMeans(s, d);
  }

  /** What becomes of a known sender's message, routed in any state. */
  lemma KnownIsStoredAndShown(s: State, muted: bool, now: int)
    requires Enabled(s, Route(muted, now)) && (s.handler.d.kind.Group? || From(s.handler.d) in s.contacts)
    ensures StoredAndShown(s, Apply(s, Route(muted, now)), s.handler.d, muted, now)
  {
    KnownMeans(s, s.handler.d, muted, now);
  }
}
