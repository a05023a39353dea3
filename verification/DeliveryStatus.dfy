/**
Matching `delivery_status` frames to the sends that wait for them
(`sendPreparedMessage` and the `delivery_status` case of `handle`, `internal/relay/session.go`).

The read loop looks the channel up under the lock and sends to it after releasing the lock, so a
send may return, and its entry go away, between the two.
*/
module DeliveryStatus {
  import opened Wrappers

  type Id = string
  type Chan = nat

  datatype Status = Status(id: Id, status: string)

  // A call that waits on its channel, or has returned with a status or an error.
  datatype Sender = Pending(ch: Chan) | Returned(result: Option<Status>)

  datatype Held = Held(ch: Chan, status: Status)

  datatype State = State(
    entries: map<Id, Chan>,
    buffers: map<Chan, Option<Status>>,
    held: Option<Held>,
    senders: map<Id, Sender>
  )

  datatype Event =
    | Begin(id: Id, ch: Chan)  // register the entry; the id and the channel are new
    | Frame(status: Status)    // the read loop looks the id up
    | Push                     // and sends without blocking
    | Return(id: Id)           // the caller receives a status
    | Abort(id: Id)            // write failure, timeout or cancel

  const INIT := State(map[], map[], None, map[])

  predicate Enabled(s: State, e: Event) {
    match e
    case Begin(id, ch) => id !in s.senders && ch !in s.buffers
    case Frame(_) => s.held.None?
    case Push => s.held.Some? && s.held.value.ch in s.buffers
    case Return(id) =>
      id in s.senders && s.senders[id].Pending?
      && s.senders[id].ch in s.buffers && s.buffers[s.senders[id].ch].Some?
    case Abort(id) => id in s.senders && s.senders[id].Pending?
  }

  function Apply(s: State, e: Event): State
    requires Enabled(s, e)
  {
    match e
    case Begin(id, ch) =>
      s.(entries := s.entries[id := ch], buffers := s.buffers[ch := None], senders := s.senders[id := Pending(ch)])
    case Frame(st) =>
      if st.id in s.entries then s.(held := Some(Held(s.entries[st.id], st))) else s
    case Push =>
      var h := s.held.value;
      s.(held := None, buffers := if s.buffers[h.ch].None? then s.buffers[h.ch := Some(h.status)] else s.buffers)
    case Return(id) =>
      var ch := s.senders[id].ch;
      s.(entries := s.entries - {id}, buffers := s.buffers[ch := None], senders := s.senders[id := Returned(s.buffers[ch])])
    case Abort(id) =>
      s.(entries := s.entries - {id}, senders := s.senders[id := Returned(None)])
  }

  predicate IsRun(s: State, es: seq<Event>)
    decreases |es|
  {
    es == [] || (Enabled(s, es[0]) && IsRun(Apply(s, es[0]), es[1..]))
  }

  function Final(s: State, es: seq<Event>): State
    requires IsRun(s, es)
    decreases |es|
  {
    if es == [] then s else Final(Apply(s, es[0]), es[1..])
  }

  // `owner` remembers the id each channel was made for, also after the send has returned.
  ghost predicate Inv(s: State, owner: map<Chan, Id>, past: seq<Event>) {
    && owner.Keys == s.buffers.Keys
    && (forall ch :: ch in owner ==> owner[ch] in s.senders)
    && (forall ch :: ch in s.buffers && s.buffers[ch].Some? ==>
      s.buffers[ch].value.id == owner[ch] && Frame(s.buffers[ch].value) in past)
    && (s.held.Some? ==>
      s.held.value.ch in owner && s.held.value.status.id == owner[s.held.value.ch] && Frame(s.held.value.status) in past)
    && (forall id :: id in s.entries <==> id in s.senders && s.senders[id].Pending?)
    && (forall id :: id in s.entries ==>
      s.senders[id] == Pending(s.entries[id]) && s.entries[id] in owner && owner[s.entries[id]] == id)
    && (forall id :: id in s.senders && s.senders[id].Returned? && s.senders[id].result.Some? ==>
      s.senders[id].result.value.id == id && Frame(s.senders[id].result.value) in past)
  }

  function OwnerAfter(owner: map<Chan, Id>, e: Event): map<Chan, Id> {
    if e.Begin? then owner[e.ch := e.id] else owner
  }

  // A frame in hand, or one pushed, does not touch the sends.
  lemma FrameKeeps(s: State, e: Event, owner: map<Chan, Id>, past: seq<Event>)
    requires Inv(s, owner, past) && Enabled(s, e) && (e.Frame? || e.Push?)
    ensures Inv(Apply(s, e), owner, past + [e])
  {
    assert forall p :: p in past ==> p in past + [e];
    assert (past + [e])[|past|] == e;
  }

  // A send begins, returns or aborts.
  lemma SendKeeps(s: State, e: Event, owner: map<Chan, Id>, past: seq<Event>)
    requires Inv(s, owner, past) && Enabled(s, e) && (e.Begin? || e.Return? || e.Abort?)
    ensures Inv(Apply(s, e), OwnerAfter(owner, e), past + [e])
  {
    assert forall p :: p in past ==> p in past + [e];
  }

  lemma StepKeeps(s: State, e: Event, owner: map<Chan, Id>, past: seq<Event>)
    requires Inv(s, owner, past) && Enabled(s, e)
    ensures Inv(Apply(s, e), OwnerAfter(owner, e), past + [e])
  {
    if e.Frame? || e.Push? {
      FrameKeeps(s, e, owner, past);
    } else {
      SendKeeps(s, e, owner, past);
    }
  }

  lemma {:induction false} RunKeeps(s: State, es: seq<Event>, owner: map<Chan, Id>, past: seq<Event>)
    returns (last: map<Chan, Id>)
    requires Inv(s, owner, past) && IsRun(s, es)
    ensures Inv(Final(s, es), last, past + es)
    decreases |es|
  {
    if es == [] {
      last := owner;
      assert past + es == past;
    } else {
      StepKeeps(s, es[0], owner, past);
      last := RunKeeps(Apply(s, es[0]), es[1..], OwnerAfter(owner, es[0]), past + [es[0]]);
      assert past + [es[0]] + es[1..] == past + es;
    }
  }

  /** Whatever frames arrive, late, repeated or for unknown ids: a status that `Send` returns is one
      the relay sent for exactly the id of that send; the entry of a send that has returned is gone,
      and the entries are exactly the sends in progress. */
  lemma StatusMatchesSend(es: seq<Event>, id: Id)
    requires IsRun(INIT, es) && id in Final(INIT, es).senders
    ensures var s := Final(INIT, es);
      && (id in s.entries <==> s.senders[id].Pending?)
      && (s.senders[id].Returned? && s.senders[id].result.Some? ==>
        s.senders[id].result.value.id == id && Frame(s.senders[id].result.value) in es)
  {
    var last := RunKeeps(INIT, es, map[], []);
    assert [] + es == es;
  }

  // The send waits and nothing has come for it.
  predicate WaitsEmpty(s: State, id: Id) {
    && id in s.senders && s.senders[id].Pending? && s.senders[id].ch in s.buffers
    && s.buffers[s.senders[id].ch] == None
  }

  // The send waits and its channel holds this status.
  predicate Holds(s: State, id: Id, st: Status) {
    && id in s.senders && s.senders[id].Pending? && s.senders[id].ch in s.buffers
    && s.buffers[s.senders[id].ch] == Some(st)
  }

  // What has become of a send whose channel held `st`: the first return or abort decides.
  function Outcome(es: seq<Event>, id: Id, st: Status): Option<Sender> {
    if es == [] then None
    else if es[0] == Return(id) then Some(Returned(Some(st)))
    else if es[0] == Abort(id) then Some(Returned(None))
    else Outcome(es[1..], id, st)
  }

  lemma {:induction false} ReturnedStays(s: State, es: seq<Event>, id: Id)
    requires IsRun(s, es) && id in s.senders && s.senders[id].Returned?
    ensures id in Final(s, es).senders && Final(s, es).senders[id] == s.senders[id]
    decreases |es|
  {
    if es != [] {
      ReturnedStays(Apply(s, es[0]), es[1..], id);
    }
  }

  // Two sends never share a channel.
  predicate OwnChannels(s: State) {
    && (forall id :: id in s.senders && s.senders[id].Pending? ==> s.senders[id].ch in s.buffers)
    && forall id, other :: id in s.senders && other in s.senders && id != other ==>
      !(s.senders[id].Pending? && s.senders[other].Pending? && s.senders[id].ch == s.senders[other].ch)
  }

  /** A status once in a send's channel is what that send returns: whatever else happens, it can return until it
      does or aborts, and it returns that status, however many frames come after. */
  lemma {:induction false} HeldStatusIsReturned(s: State, es: seq<Event>, id: Id, st: Status)
    requires OwnChannels(s) && IsRun(s, es) && Holds(s, id, st)
    ensures var t := Final(s, es);
      match Outcome(es, id, st)
      case None => Holds(t, id, st) && Enabled(t, Return(id))
      case Some(sender) => id in t.senders && t.senders[id] == sender
    decreases |es|
  {
    if es != [] {
      var t := Apply(s, es[0]);
      if es[0] == Return(id) || es[0] == Abort(id) {
        ReturnedStays(t, es[1..], id);
      } else {
        assert OwnChannels(t) && Holds(t, id, st);
        HeldStatusIsReturned(t, es[1..], id, st);
      }
    }
  }

  lemma {:induction false} RunKeepsChannels(s: State, es: seq<Event>)
    requires OwnChannels(s) && IsRun(s, es)
    ensures OwnChannels(Final(s, es))
    decreases |es|
  {
    if es != [] {
      RunKeepsChannels(Apply(s, es[0]), es[1..]);
    }
  }

  // The send waits on an empty channel, and the read loop has this status in hand for it.
  predicate InHand(s: State, id: Id, st: Status) {
    WaitsEmpty(s, id) && s.held == Some(Held(s.senders[id].ch, st))
  }

  // Until the read loop sends it, nothing takes the status away but the send's own abort.
  lemma {:induction false} StaysInHand(s: State, es: seq<Event>, id: Id, st: Status)
    requires OwnChannels(s) && IsRun(s, es) && InHand(s, id, st) && Push !in es && Abort(id) !in es
    ensures InHand(Final(s, es), id, st)
    decreases |es|
  {
    if es != [] {
      assert es[0] in es && !Enabled(s, Return(id));
      StaysInHand(Apply(s, es[0]), es[1..], id, st);
    }
  }

  /** The first status reaches its send. In any run: a send waits on an empty channel, its status frame is looked
      up, and the read loop sends, with anything in between but the send's abort. Then the send can return exactly
      that status until it returns or aborts, and returns nothing else. */
  lemma FirstStatusIsReturned(before: seq<Event>, between: seq<Event>, after: seq<Event>, st: Status)
    requires IsRun(INIT, before)
    requires var s := Final(INIT, before);
      && s.held.None? && WaitsEmpty(s, st.id)
      && IsRun(Apply(s, Frame(st)), between) && Push !in between && Abort(st.id) !in between
    ensures Enabled(Final(Apply(Final(INIT, before), Frame(st)), between), Push)
    ensures var pushed := Apply(Final(Apply(Final(INIT, before), Frame(st)), between), Push);
      IsRun(pushed, after) ==>
        match Outcome(after, st.id, st)
        case None => Enabled(Final(pushed, after), Return(st.id)) && Holds(Final(pushed, after), st.id, st)
        case Some(sender) =>
          st.id in Final(pushed, after).senders && Final(pushed, after).senders[st.id] == sender
  {
    var s := Final(INIT, before);
    var owner := RunKeeps(INIT, before, map[], []);
    RunKeepsChannels(INIT, before);
    var looked := Apply(s, Frame(st));
    StaysInHand(looked, between, st.id, st);
    RunKeepsChannels(looked, between);
    var pushed := Apply(Final(looked, between), Push);
    assert Holds(pushed, st.id, st);
    if IsRun(pushed, after) {
      HeldStatusIsReturned(pushed, after, st.id, st);
    }
  }

  class Deliveries {
    var entries: map<Id, Chan>
    var buffers: map<Chan, Option<Status>>
    var held: Option<Held>
    ghost var senders: map<Id, Sender>

    ghost function View(): State
      reads this
    {
      State(entries, buffers, held, senders)
    }

    constructor ()
      ensures View() == INIT
    {
      entries, buffers, held, senders := map[], map[], None, map[];
    }

    method BeginSend(id: Id, ch: Chan)
      requires Enabled(View(), Begin(id, ch))
      modifies this
      ensures View() == Apply(old(View()), Begin(id, ch))
      ensures entries == old(entries)[id := ch] && buffers == old(buffers)[ch := None] && held == old(held)
      ensures senders == old(senders)[id := Pending(ch)]
    {
      buffers := buffers[ch := None];
      entries := entries[id := ch];
      senders := senders[id := Pending(ch)];
    }

    // The delivery_status case of `handle`, when nothing happens between its two halves.
    method HandleStatus(st: Status)
      requires Enabled(View(), Frame(st)) && forall id :: id in entries ==> entries[id] in buffers
      modifies this
      ensures var looked := Apply(old(View()), Frame(st));
        View() == if looked.held.Some? then Apply(looked, Push) else looked
      ensures entries == old(entries) && senders == old(senders) && held == None
      ensures buffers == if st.id in old(entries) && old(buffers)[old(entries)[st.id]] == None
        then old(buffers)[old(entries)[st.id] := Some(st)] else old(buffers)
    {
      LookUp(st);
      if held.Some? {
        PushHeld();
      }
    }

    // Under the lock: find the channel.
    method LookUp(st: Status)
      requires held.None?
      modifies this`held
      ensures View() == Apply(old(View()), Frame(st))
      ensures held == if st.id in entries then Some(Held(entries[st.id], st)) else None
    {
      if st.id in entries {
        held := Some(Held(entries[st.id], st));
      }
    }

    // And outside it: the select with a default.
    method PushHeld()
      requires Enabled(View(), Push)
      modifies this`held, this`buffers
      ensures View() == Apply(old(View()), Push)
      ensures held == None
      ensures var w, st := old(held).value.ch, old(held).value.status;
        buffers == if old(buffers)[w] == None then old(buffers)[w := Some(st)] else old(buffers)
    {
      var w := held.value.ch;
      if buffers[w].None? {
        buffers := buffers[w := Some(held.value.status)];
      }
      held := None;
    }

    method ReturnStatus(id: Id, ch: Chan) returns (st: Status)
      requires Enabled(View(), Return(id)) && senders[id] == Pending(ch)
      modifies this
      ensures View() == Apply(old(View()), Return(id)) && old(buffers)[ch] == Some(st)
      ensures entries == old(entries) - {id} && senders == old(senders)[id := Returned(Some(st))]
      ensures buffers == old(buffers)[ch := None] && held == old(held)
    {
      st := buffers[ch].value;
      buffers := buffers[ch := None];
      entries := entries - {id};
      senders := senders[id := Returned(Some(st))];
    }

    // A failed write, the timeout or a cancel.
    method AbortSend(id: Id)
      requires Enabled(View(), Abort(id))
      modifies this`entries, this`senders
      ensures View() == Apply(old(View()), Abort(id))
      ensures entries == old(entries) - {id} && senders == old(senders)[id := Returned(None)]
    {
      entries := entries - {id};
      senders := senders[id := Returned(None)];
    }
  }
}
