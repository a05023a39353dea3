/**
The "pending" notifications of the inbound pipeline (`handleInboundDM`, `internal/agent/agent.go`): one for
each epoch of an unknown sender, the time from when its pending set becomes non-empty to when it is empty
again. The handler saves a row, asks whether the sender has a notified one, marks the sender's rows and
notifies, in four statements; approvals, blocks and deaths may come between any two.
*/
module PendingNotices {
  import opened Inbound
  import opened Tables
  import opened Text
  import opened Wrappers

  function Notices(surfaced: seq<Surface>, a: Addr): nat {
    if surfaced == [] then 0
    else
      Notices(surfaced[..|surfaced| - 1], a)
      + if surfaced[|surfaced| - 1].Notice? && surfaced[|surfaced| - 1].from == a then 1 else 0
  }

  function Opens(s: State, t: State, a: Addr): nat {
    if !HasPending(s.pending, a) && HasPending(t.pending, a) then 1 else 0
  }

  // How often the set of pending rows of `a` went from empty to non-empty along a run.
  function Epochs(s: State, es: seq<Event>, a: Addr): nat
    requires IsRun(s, es)
    decreases |es|
  {
    if es == [] then 0 else Opens(s, Apply(s, es[0]), a) + Epochs(Apply(s, es[0]), es[1..], a)
  }

  // The sender has pending rows and none is marked.
  function Due(pending: map<Id, Pending>, a: Addr): nat {
    if HasPending(pending, a) && !HasNotified(pending, a) then 1 else 0
  }

  // The handler has saved a row of `a` and not notified yet.
  predicate AtWork(s: State, a: Addr) {
    (s.handler.Held? || s.handler.Unmarked? || s.handler.Marked?) && From(s.handler.d) == a
  }

  // A notice for `a` is to come: the handler will send it, or the rows are unmarked.
  function Owed(s: State, a: Addr): nat {
    if !AtWork(s, a) then Due(s.pending, a)
    else if s.handler.Held? && HasNotified(s.pending, a) then 0
    else 1
  }

  predicate Deletes(s: State, e: Event, a: Addr)
    requires Enabled(s, e)
  {
    (e.Delete? || e.Purge?) && s.tasks[e.t].a == a
  }

  // An epoch ends without its notice, or the process dies with a notice to come.
  function MissedAt(s: State, e: Event, a: Addr): nat
    requires Enabled(s, e)
  {
    if Deletes(s, e, a) && !AtWork(s, a) then Due(s.pending, a)
    else if e.Crash? && Owed(s, a) > Due(s.pending, a) then 1
    else 0
  }

  // The sender's rows are deleted after the handler has saved one and before it asks: it will find no notified
  // row and notify again.
  function ExtraAt(s: State, e: Event, a: Addr): nat
    requires Enabled(s, e)
  {
    if Deletes(s, e, a) && AtWork(s, a) && s.handler.Held? && HasNotified(s.pending, a) then 1 else 0
  }

  function Missed(s: State, es: seq<Event>, a: Addr): nat
    requires IsRun(s, es)
    decreases |es|
  {
    if es == [] then 0 else MissedAt(s, es[0], a) + Missed(Apply(s, es[0]), es[1..], a)
  }

  function Extra(s: State, es: seq<Event>, a: Addr): nat
    requires IsRun(s, es)
    decreases |es|
  {
    if es == [] then 0 else ExtraAt(s, es[0], a) + Extra(Apply(s, es[0]), es[1..], a)
  }

  // An id belongs to one message, so always to the same sender.
  ghost predicate Authored(es: seq<Event>, author: Id -> Addr) {
    forall i :: 0 <= i < |es| && es[i].Emit? ==> From(es[i].d) == author(es[i].d.id)
  }

  ghost predicate StateAuthored(s: State, author: Id -> Addr) {
    && (forall id :: id in s.pending ==> s.pending[id].from == author(id))
    && (s.handler.Idle? || From(s.handler.d) == author(s.handler.d.id))
  }

  // Once the handler has marked the sender's rows, none is left unmarked.
  predicate MarkedOk(s: State) {
    s.handler.Marked? ==> Due(s.pending, From(s.handler.d)) == 0
  }

  /* ---------------- what a step does to one sender's rows ---------------- */

  lemma NoticeAdds(s: State, d: Delivery, a: Addr)
    ensures Notices(Announce(s, d).log.surfaced, a) == Notices(s.log.surfaced, a) + (if From(d) == a then 1 else 0)
  {
    var after := Announce(s, d).log.surfaced;
    assert after[..|after| - 1] == s.log.surfaced;
  }

  lemma ShownIsNoNotice(surfaced: seq<Surface>, x: Surface, a: Addr)
    requires x.Shown?
    ensures Notices(surfaced + [x], a) == Notices(surfaced, a)
  {
    assert (surfaced + [x])[..|surfaced|] == surfaced;
  }

  // A new row of `a`, where the id is not another sender's.
  lemma RowSaved(pending: map<Id, Pending>, d: Delivery, a: Addr)
    requires d.id in pending && pending[d.id].from != From(d) ==> HasPending(pending, From(d))
    ensures var saved := WithRow(pending, d);
      && (HasNotified(saved, a) <==> HasNotified(pending, a))
      && (HasPending(saved, a) <==> HasPending(pending, a) || From(d) == a)
  {
    var saved := WithRow(pending, d);
    forall id | id in pending
      ensures saved[id] == pending[id]
    {
    }
    if From(d) == a && !(d.id in pending && pending[d.id].from != a) {
      assert saved[d.id].from == a;
    }
  }

  lemma RowsMarked(pending: map<Id, Pending>, b: Addr, a: Addr)
    ensures var marked := MarkNotified(pending, b);
      && (HasPending(marked, a) <==> HasPending(pending, a))
      && (HasNotified(marked, a) <==> if a == b then HasPending(pending, a) else HasNotified(pending, a))
  {
    var marked := MarkNotified(pending, b);
    forall id | id in pending && pending[id].from == a
      ensures id in marked && marked[id].from == a && (marked[id].notified <==> a == b || pending[id].notified)
    {
    }
  }

  lemma RowsTaken(pending: map<Id, Pending>, b: Addr, a: Addr)
    ensures var rest := Without(pending, b);
      && (HasPending(rest, a) <==> a != b && HasPending(pending, a))
      && (HasNotified(rest, a) <==> a != b && HasNotified(pending, a))
  {
    var rest := Without(pending, b);
    forall id | id in pending && pending[id].from == a && a != b
      ensures id in rest && rest[id] == pending[id]
    {
    }
  }

  /* ---------------- counting ---------------- */

  ghost predicate Counted(s: State, e: Event, a: Addr)
    requires Enabled(s, e)
  {
    var t := Apply(s, e);
    Notices(t.log.surfaced, a) + MissedAt(s, e, a) + Owed(t, a)
    == Notices(s.log.surfaced, a) + Owed(s, a) + Opens(s, t, a) + ExtraAt(s, e, a)
  }

  lemma HoldCounts(s: State, a: Addr, author: Id -> Addr)
    requires Enabled(s, Hold) && StateAuthored(s, author)
    ensures Counted(s, Hold, a)
  {
    RowSaved(s.pending, s.handler.d, a);
  }

  lemma MarkCounts(s: State, a: Addr)
    requires Enabled(s, Mark)
    ensures Counted(s, Mark, a) && MarkedOk(Apply(s, Mark))
  {
    RowsMarked(s.pending, From(s.handler.d), a);
    RowsMarked(s.pending, From(s.handler.d), From(s.handler.d));
  }

  lemma NotifyCounts(s: State, a: Addr)
    requires Enabled(s, Notify) && MarkedOk(s)
    ensures Counted(s, Notify, a)
  {
    NoticeAdds(s, s.handler.d, a);
  }

  lemma KnownRaisesNone(s: State, d: Delivery, muted: bool, now: int, a: Addr)
    ensures var t := HandleKnown(s, d, muted, now);
      t.pending == s.pending && Notices(t.log.surfaced, a) == Notices(s.log.surfaced, a)
  {
    if !muted {
      ShownIsNoNotice(s.log.surfaced, Shown(From(d), if d.kind.Group? then d.kind.group else "", d.id), a);
    }
  }

  lemma RouteCounts(s: State, e: Event, a: Addr)
    requires Enabled(s, e) && e.Route?
    ensures Counted(s, e, a)
  {
    var d := s.handler.d;
    if d.kind.Dm? && From(d) !in s.contacts {
      CalmCounts(s, e, a, s.(handler := Unknown(d)));
    } else {
      KnownCounts(s, e, a, HandleKnown(s, d, e.muted, e.now).(handler := Handled(d, true)));
    }
  }

  lemma KnownCounts(s: State, e: Event, a: Addr, t: State)
    requires Enabled(s, e) && e.Route? && t == Apply(s, e)
    requires t == HandleKnown(s, s.handler.d, e.muted, e.now).(handler := Handled(s.handler.d, true))
    ensures Counted(s, e, a)
  {
    KnownRaisesNone(s, s.handler.d, e.muted, e.now, a);
    CalmCounts(s, e, a, t);
  }

  // A step before the handler's save or after its notice, that changes no pending row.
  lemma CalmCounts(s: State, e: Event, a: Addr, t: State)
    requires Enabled(s, e) && t == Apply(s, e) && !AtWork(s, a) && !AtWork(t, a)
    requires t.pending == s.pending && Notices(t.log.surfaced, a) == Notices(s.log.surfaced, a)
    requires !e.Delete? && !e.Purge? && !e.Crash?
    ensures Counted(s, e, a)
  {
  }

  lemma DeletionCounts(s: State, e: Event, a: Addr)
    requires Enabled(s, e) && (e.Delete? || e.Purge?)
    ensures Counted(s, e, a)
  {
    RowsTaken(s.pending, s.tasks[e.t].a, a);
  }

  // Steps that touch neither pending nor what is notified.
  lemma OtherStepsCount(s: State, e: Event, a: Addr)
    requires Enabled(s, e)
    requires !e.Hold? && !e.Mark? && !e.Notify? && !e.Route? && !e.Delete? && !e.Purge? && !e.Crash?
    ensures Counted(s, e, a)
  {
    assert Apply(s, e).pending == s.pending && Apply(s, e).log.surfaced == s.log.surfaced;
  }

  lemma StepCounts(s: State, e: Event, a: Addr, author: Id -> Addr)
    requires Enabled(s, e) && StateAuthored(s, author) && MarkedOk(s)
    ensures Counted(s, e, a)
  {
    match e
    case Hold => HoldCounts(s, a, author);
    case Mark => MarkCounts(s, a);
    case Notify => NotifyCounts(s, a);
    case Route(_, _) => RouteCounts(s, e, a);
    case Delete(_) => DeletionCounts(s, e, a);
    case Purge(_) => DeletionCounts(s, e, a);
    case Crash =>
    case _ => OtherStepsCount(s, e, a);
  }

  lemma StepKeepsAuthors(s: State, e: Event, author: Id -> Addr)
    requires Enabled(s, e) && StateAuthored(s, author) && (e.Emit? ==> From(e.d) == author(e.d.id))
    ensures StateAuthored(Apply(s, e), author)
  {
  }

  lemma StepKeepsMarked(s: State, e: Event)
    requires Enabled(s, e) && MarkedOk(s)
    ensures MarkedOk(Apply(s, e))
  {
    if e.Mark? {
      MarkCounts(s, From(s.handler.d));
    } else if (e.Delete? || e.Purge?) && s.handler.Marked? {
      RowsTaken(s.pending, s.tasks[e.t].a, From(s.handler.d));
    }
  }

  /** Over any run and any interleaving: the notices sent for a sender, those missed and the one still owed add
      up to the epochs its pending set has had and the notices sent a second time. */
  lemma {:induction false} NoticesCountEpochs(s: State, es: seq<Event>, a: Addr, author: Id -> Addr)
    requires IsRun(s, es) && StateAuthored(s, author) && MarkedOk(s) && Authored(es, author)
    ensures Notices(Final(s, es).log.surfaced, a) + Missed(s, es, a) + Owed(Final(s, es), a)
      == Notices(s.log.surfaced, a) + Owed(s, a) + Epochs(s, es, a) + Extra(s, es, a)
    decreases |es|
  {
    if es != [] {
      StepCounts(s, es[0], a, author);
      StepKeepsAuthors(s, es[0], author);
      StepKeepsMarked(s, es[0]);
      assert forall i :: 0 <= i < |es[1..]| ==> es[1..][i] == es[i + 1];
      NoticesCountEpochs(Apply(s, es[0]), es[1..], a, author);
    }
  }

  /* ---------------- when every epoch gets exactly one ---------------- */

  // Every sender with pending rows has a marked one, or the handler is about to ask or to mark.
  predicate Announced(s: State) {
    forall id :: id in s.pending ==>
      HasNotified(s.pending, s.pending[id].from) || (AtWork(s, s.pending[id].from) && !s.handler.Marked?)
  }

  predicate AnnouncedTo(s: State, a: Addr) {
    HasPending(s.pending, a) ==> HasNotified(s.pending, a) || (AtWork(s, a) && !s.handler.Marked?)
  }

  lemma AnnouncedToAll(s: State)
    ensures Announced(s) <==> forall a :: AnnouncedTo(s, a)
  {
    if forall a :: AnnouncedTo(s, a) {
      forall id | id in s.pending
        ensures HasNotified(s.pending, s.pending[id].from) || (AtWork(s, s.pending[id].from) && !s.handler.Marked?)
      {
        assert AnnouncedTo(s, s.pending[id].from);
      }
    }
  }

  lemma HoldAnnounces(s: State, a: Addr)
    requires Enabled(s, Hold) && AnnouncedTo(s, a)
    ensures AnnouncedTo(Apply(s, Hold), a)
  {
    var t := Apply(s, Hold);
    assert forall id :: id in s.pending ==> t.pending[id] == s.pending[id];
    assert forall id :: id in t.pending && id !in s.pending ==> t.pending[id].from == From(s.handler.d);
  }

  // The other steps of the read loop keep whose rows are marked.
  lemma LoopAnnounces(s: State, e: Event, a: Addr)
    requires Enabled(s, e) && ByReadLoop(e) && !e.Hold? && AnnouncedTo(s, a)
    ensures AnnouncedTo(Apply(s, e), a)
  {
    if e.Mark? {
      RowsMarked(s.pending, From(s.handler.d), a);
    } else if e.Route? {
      KnownRaisesNone(s, s.handler.d, e.muted, e.now, a);
    }
  }

  lemma StepKeepsAnnounced(s: State, e: Event)
    requires Enabled(s, e) && Announced(s) && !e.Crash?
    ensures Announced(Apply(s, e))
  {
    AnnouncedToAll(s);
    AnnouncedToAll(Apply(s, e));
    forall a
      ensures AnnouncedTo(Apply(s, e), a)
    {
      assert AnnouncedTo(s, a);
      if e.Hold? {
        HoldAnnounces(s, a);
      } else if ByReadLoop(e) {
        LoopAnnounces(s, e, a);
      } else if e.Delete? || e.Purge? {
        RowsTaken(s.pending, s.tasks[e.t].a, a);
      } else {
        assert Apply(s, e).pending == s.pending && Apply(s, e).handler == s.handler;
      }
    }
  }

  /** A death leaves a sender with pending rows and no notice to come exactly if its rows are unmarked. */
  lemma DeathKeepsAnnouncedIff(s: State)
    ensures Announced(Apply(s, Crash)) <==> forall id :: id in s.pending ==> HasNotified(s.pending, s.pending[id].from)
  {
  }

  // A sender's rows are not deleted between the handler's save of one and its question.
  predicate Undisturbed(s: State, es: seq<Event>, a: Addr)
    requires IsRun(s, es)
    decreases |es|
  {
    es == [] || (
      && !(Deletes(s, es[0], a) && AtWork(s, a) && s.handler.Held?)
      && Undisturbed(Apply(s, es[0]), es[1..], a))
  }

  lemma {:induction false} NoneMissed(s: State, es: seq<Event>, a: Addr)
    requires IsRun(s, es) && Announced(s) && Crash !in es
    ensures Missed(s, es, a) == 0 && Announced(Final(s, es))
    decreases |es|
  {
    if es != [] {
      assert es[0] in es;
      StepKeepsAnnounced(s, es[0]);
      NoneMissed(Apply(s, es[0]), es[1..], a);
    }
  }

  lemma {:induction false} NoneExtra(s: State, es: seq<Event>, a: Addr)
    requires IsRun(s, es) && Undisturbed(s, es, a)
    ensures Extra(s, es, a) == 0
    decreases |es|
  {
    if es != [] {
      NoneExtra(Apply(s, es[0]), es[1..], a);
    }
  }

  /** Without a death, and unless a sender's rows are deleted between the handler's save and its question,
      every epoch gets exactly one notice, the last one possibly still to come: redeliveries and further
      messages never announce a sender again. */
  lemma OneNoticePerEpoch(es: seq<Event>, a: Addr, author: Id -> Addr)
    requires IsRun(INIT, es) && Authored(es, author) && Crash !in es && Undisturbed(INIT, es, a)
    ensures Notices(Final(INIT, es).log.surfaced, a) + Owed(Final(INIT, es), a) == Epochs(INIT, es, a)
    ensures !AtWork(Final(INIT, es), a) ==> Owed(Final(INIT, es), a) == 0
  {
    NoticesCountEpochs(INIT, es, a, author);
    NoneMissed(INIT, es, a);
    NoneExtra(INIT, es, a);
  }

  /* ---------------- the runs that break it ---------------- */

  /** A death between the mark and the notice silences the epoch: the redelivered message is held, and its
      sender is never announced. */
  lemma DeathSilencesEpoch(d: Delivery, muted: bool, now: int) returns (es: seq<Event>)
    requires d.kind.Dm? && d.verified
    ensures IsRun(INIT, es) && Final(INIT, es).handler.Idle?
    ensures var t := HandledAlone(Final(INIT, es), d, muted, now);
      HasPending(t.pending, From(d)) && Notices(t.log.surfaced, From(d)) == 0
  {
    es := ToUnknown(INIT, d);
    var s2 := INIT.(handler := Unknown(d));
    var s3 := INIT.(pending := map[d.id := RowOf(d, false)], handler := Held(d), log := INIT.log.(accepted := {d.id}));
    assert WithRow(map[], d) == s3.pending;
    es := Extend(INIT, es, s2, Hold, s3);
    es := Extend(INIT, es, s3, AskNotified, s3.(handler := Unmarked(d)));
    var s5 := s3.(pending := map[d.id := RowOf(d, true)], handler := Marked(d));
    assert MarkNotified(s3.pending, From(d)) == s5.pending;
    es := Extend(INIT, es, s3.(handler := Unmarked(d)), Mark, s5);
    RunSnoc(INIT, es, Crash);
    es := es + [Crash];
    assert s5.pending[d.id].notified && s5.pending[d.id].from == From(d);
    assert WithRow(s5.pending, d) == s5.pending;
  }

  lemma {:induction false} EpochsSnoc(s: State, es: seq<Event>, e: Event, a: Addr)
    requires IsRun(s, es) && Enabled(Final(s, es), e)
    ensures IsRun(s, es + [e])
    ensures Epochs(s, es + [e], a) == Epochs(s, es, a) + Opens(Final(s, es), Apply(Final(s, es), e), a)
    decreases |es|
  {
    RunSnoc(s, es, e);
    if es == [] {
      assert [] + [e] == [e] && [e][1..] == [];
    } else {
      assert (es + [e])[0] == es[0] && (es + [e])[1..] == es[1..] + [e];
      EpochsSnoc(Apply(s, es[0]), es[1..], e, a);
    }
  }

  // One more event on a trace, that opens no epoch of `a`.
  lemma ExtendWithin(start: State, es: seq<Event>, s: State, e: Event, t: State, a: Addr) returns (longer: seq<Event>)
    requires IsRun(start, es) && Final(start, es) == s && Epochs(start, es, a) == 0
    requires Enabled(s, e) && Apply(s, e) == t && Opens(s, t, a) == 0
    ensures IsRun(start, longer) && Final(start, longer) == t && Epochs(start, longer, a) == 0
  {
    RunSnoc(start, es, e);
    EpochsSnoc(start, es, e, a);
    longer := es + [e];
  }

  // The second row is saved, and then the approval deletes both.
  function BothDeleted(d1: Delivery, d2: Delivery): State {
    var s := ReadEarly(d1, d2);
    s.(pending := map[], handler := Held(d2), tasks := map[0 := Saving(From(d1), s.tasks[0].items)],
       log := s.log.(accepted := {d1.id, d2.id}, lost := {d2.id}))
  }

  predicate SecondSaved(d1: Delivery, d2: Delivery, s: State) {
    s == ReadEarly(d1, d2).(handler := Held(d2), pending := map[d1.id := RowOf(d1, true), d2.id := RowOf(d2, false)],
      log := OneHeld(d1).log.(accepted := {d1.id, d2.id}))
  }

  lemma OnlySecondIsLost(d1: Delivery, d2: Delivery, s: State)
    requires FromOneStranger(d1, d2) && SecondSaved(d1, d2, s)
    ensures Without(s.pending, From(d1)) == map[] && NowhereElse(s, From(d1)) == {d2.id}
  {
    HandsOfOne(s.tasks, d1);
    assert PendingOf(s.pending, From(d1)) == s.pending && s.pending.Keys == {d1.id, d2.id};
  }

  lemma BothAreDeleted(d1: Delivery, d2: Delivery, s: State)
    requires FromOneStranger(d1, d2) && SecondSaved(d1, d2, s)
    ensures Apply(s, Delete(0)) == BothDeleted(d1, d2)
  {
    OnlySecondIsLost(d1, d2, s);
  }

  lemma ToBothDeleted(d1: Delivery, d2: Delivery) returns (es: seq<Event>)
    requires FromOneStranger(d1, d2)
    ensures IsRun(OneHeld(d1), es) && Final(OneHeld(d1), es) == BothDeleted(d1, d2)
    ensures Epochs(OneHeld(d1), es, From(d1)) == 0
  {
    var a, s, s1 := From(d1), OneHeld(d1), ReadEarly(d1, d2);
    es := ToReadEarly(d1, d2);
    var s2 := s1.(handler := Held(d2), pending := map[d1.id := RowOf(d1, true), d2.id := RowOf(d2, false)],
                  log := s.log.(accepted := {d1.id, d2.id}));
    assert WithRow(s1.pending, d2) == s2.pending && HasPending(s1.pending, a) by {
      assert s1.pending[d1.id].from == a;
    }
    es := ExtendWithin(s, es, s1, Hold, s2, a);
    BothAreDeleted(d1, d2, s2);
    es := ExtendWithin(s, es, s2, Delete(0), BothDeleted(d1, d2), a);
  }

  /** Two notices in one epoch: the sender's rows are deleted after the handler has saved a second one and
      before it asks. The second notice is about a message that is in neither table. */
  lemma SecondNotice(d1: Delivery, d2: Delivery) returns (es: seq<Event>)
    requires FromOneStranger(d1, d2)
    ensures IsRun(OneHeld(d1), es) && Epochs(OneHeld(d1), es, From(d1)) == 0
    ensures var s, t := OneHeld(d1), Final(OneHeld(d1), es);
      t.log.surfaced == s.log.surfaced + [Notice(From(d1), d2.id)] && !Located(t, d2.id)
  {
    var a, s, s3 := From(d1), OneHeld(d1), BothDeleted(d1, d2);
    es := ToBothDeleted(d1, d2);
    es := ExtendWithin(s, es, s3, AskNotified, s3.(handler := Unmarked(d2)), a);
    es := ExtendWithin(s, es, s3.(handler := Unmarked(d2)), Mark, s3.(handler := Marked(d2)), a);
    es := ExtendWithin(s, es, s3.(handler := Marked(d2)), Notify, Announce(s3, d2).(handler := Handled(d2, true)), a);
    HandsOfOne(s3.tasks, d1);
  }

  lemma HandsOfOne(tasks: map<TaskId, Task>, d: Delivery)
    requires tasks.Keys == {0} && Items(tasks[0]) == [Entry(d.id, RowOf(d, true))]
    ensures Hands(tasks) == {d.id}
  {
    var items := [Entry(d.id, RowOf(d, true))];
    assert items[0].id == d.id && d.id in Ids(Items(tasks[0]));
  }

  lemma ToSecondUnknown(d1: Delivery, d2: Delivery) returns (es: seq<Event>)
    requires FromOneStranger(d1, d2)
    ensures IsRun(OneHeld(d1), es) && Final(OneHeld(d1), es) == OneHeld(d1).(handler := Unknown(d2))
    ensures Epochs(OneHeld(d1), es, From(d1)) == 0
  {
    var a, s := From(d1), OneHeld(d1);
    es := ExtendWithin(s, [], s, Emit(d2), s.(handler := Admitted(d2)), a);
    es := ExtendWithin(s, es, s.(handler := Admitted(d2)), Route(false, 0), s.(handler := Unknown(d2)), a);
  }

  lemma ToReadEarly(d1: Delivery, d2: Delivery) returns (es: seq<Event>)
    requires FromOneStranger(d1, d2)
    ensures IsRun(OneHeld(d1), es) && Final(OneHeld(d1), es) == ReadEarly(d1, d2)
    ensures Epochs(OneHeld(d1), es, From(d1)) == 0
  {
    var a, s, items := From(d1), OneHeld(d1), [Entry(d1.id, RowOf(d1, true))];
    es := ToSecondUnknown(d1, d2);
    var s1 := s.(handler := Unknown(d2));
    var s2 := s1.(contacts := map[a := ""], tasks := map[0 := Approving(a)]);
    es := ExtendWithin(s, es, s1, Upsert(0, d1.rawFrom, ""), s2, a);
    assert PendingOf(s2.pending, a) == s2.pending && items[0].id == d1.id;
    es := ExtendWithin(s, es, s2, Select(0, items), ReadEarly(d1, d2), a);
  }

  /* ---------------- ids shared between senders ---------------- */

  // An id held for someone else, and nothing held for the sender: a notice with nothing behind it.
  lemma HoldingForeignId(pending: map<Id, Pending>, d: Delivery)
    requires d.id in pending && pending[d.id].from != From(d) && !HasPending(pending, From(d))
    ensures WithRow(pending, d) == pending && !HasNotified(pending, From(d))
    ensures !HasPending(MarkNotified(pending, From(d)), From(d))
  {
    RowsMarked(pending, From(d), From(d));
  }

  /** An unknown sender's message, handled alone: the notices sent and due grow by the epochs opened, if and
      only if the id is not already held for another sender while this one has nothing pending. */
  lemma NoticeIffEpoch(s: State, d: Delivery)
    ensures var t, a := HoldAlone(s, d), From(d);
      (Notices(t.log.surfaced, a) + Due(t.pending, a) == Notices(s.log.surfaced, a) + Due(s.pending, a) + Opens(s, t, a))
      <==> (d.id in s.pending && s.pending[d.id].from != a ==> HasPending(s.pending, a))
  {
    var a, saved := From(d), WithRow(s.pending, d);
    NoticeAdds(s.(pending := MarkNotified(saved, a), log := Accepted(s.log, d.id)), d, a);
    if d.id in s.pending && s.pending[d.id].from != a && !HasPending(s.pending, a) {
      HoldingForeignId(s.pending, d);
    } else {
      RowSaved(s.pending, d, a);
      RowsMarked(saved, a, a);
    }
  }

  /** Two senders that share an id break the count: the second one is announced with nothing pending. */
  lemma SharedIdAnnouncesNothing(first: Delivery, second: Delivery)
    requires From(first) != From(second) && first.id == second.id
    ensures var t := HoldAlone(HoldAlone(INIT, first), second);
      !HasPending(t.pending, From(second)) && Notices(t.log.surfaced, From(second)) == 1
  {
    var s := HoldAlone(INIT, first);
    assert WithRow(map[], first) == map[first.id := RowOf(first, false)];
    assert s.pending == map[first.id := RowOf(first, true)];
    assert [] + [Notice(From(first), first.id)] == [Notice(From(first), first.id)];
    NoticeAdds(INIT.(pending := s.pending, log := Accepted(INIT.log, first.id)), first, From(second));
    HoldingForeignId(s.pending, second);
    var held := s.(pending := MarkNotified(s.pending, From(second)), log := Accepted(s.log, second.id));
    NoticeAdds(held, second, From(second));
  }
}
