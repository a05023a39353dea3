/**
The request waiters of the relay session (`internal/relay/session.go`).

Callers of `GetKey`, `Resolve` and `QueryPresence` register a one-slot channel under the key
they ask for; the first one registered for a key writes the request frame. The read loop
answers by detaching the whole list under the lock and sending to each channel after releasing
it. A disconnect drains all lists with nil. A timeout or cancel removes the caller's own channel.

Every critical section and every send is one event, so the state machine below ranges over all
interleavings of callers with the read loop.
*/
module RelayWaiters {
  import opened Wrappers

  // The three waiter maps are one map here, tagged by the table the key belongs to.
  datatype Table = Keys | Names | Presences
  datatype WaitKey = WaitKey(table: Table, name: string)

  // The identity of a channel: `make` never returns the same one twice.
  type Chan = nat

  // What travels through a waiter channel: a nil pointer or an answer.
  datatype Reply = Nil | Value(text: string)

  // Where the caller that owns a channel is.
  datatype Caller =
    | MustWrite               // registered first, has not written its request yet
    | Waiting                 // blocked in select
    | Answered(reply: Reply)  // returned with a value
    | GaveUp                  // returned on timeout or cancel
    | WriteFailed             // returned because its request could not be written

  // A channel, the values ever sent to it, and its caller.
  datatype Slot = Slot(key: WaitKey, buffer: Option<Reply>, log: seq<Reply>, caller: Caller)

  // The list the read loop has detached and not finished answering; idle when `rest` is empty.
  datatype Answering = Answering(key: WaitKey, reply: Reply, rest: seq<Chan>)

  datatype State = State(
    waits: map<WaitKey, seq<Chan>>,
    slots: map<Chan, Slot>,
    loop: Answering,
    firsts: set<Chan>,   // channels registered on an empty list
    attempts: seq<Chan>  // request writes attempted, by the channel of the caller
  )

  datatype Event =
    | Register(ch: Chan, key: WaitKey)
    | WriteRequest(ch: Chan, ok: bool)
    | Receive(ch: Chan)
    | GiveUp(ch: Chan)
    | Answer(key: WaitKey, reply: Reply)
    | SendNext
    | Drain

  const INIT := State(map[], map[], Answering(WaitKey(Keys, ""), Nil, []), {}, [])

  // A nil slice and a missing key read the same in Go.
  function Listed(waits: map<WaitKey, seq<Chan>>, k: WaitKey): seq<Chan> {
    if k in waits then waits[k] else []
  }

  // `q` without the first occurrence of `ch`.
  function Without(q: seq<Chan>, ch: Chan): seq<Chan> {
    if q == [] then []
    else if q[0] == ch then q[1..]
    else [q[0]] + Without(q[1..], ch)
  }

  function RemoveFrom(waits: map<WaitKey, seq<Chan>>, k: WaitKey, ch: Chan): map<WaitKey, seq<Chan>> {
    var q := Without(Listed(waits, k), ch);
    if q == [] then waits - {k} else waits[k := q]
  }

  predicate Sendable(slot: Slot) {
    slot.buffer.None?
  }

  function Sent(slot: Slot, r: Reply): Slot {
    slot.(buffer := Some(r), log := slot.log + [r])
  }

  predicate IsListed(s: State, ch: Chan)
    requires ch in s.slots
  {
    ch in Listed(s.waits, s.slots[ch].key)
  }

  // A send that finds the slot full blocks, so it is not an enabled event.
  predicate Enabled(s: State, e: Event) {
    match e
    case Register(ch, _) => ch !in s.slots
    case WriteRequest(ch, _) => ch in s.slots && s.slots[ch].caller.MustWrite?
    case Receive(ch) => ch in s.slots && s.slots[ch].caller.Waiting? && s.slots[ch].buffer.Some?
    case GiveUp(ch) => ch in s.slots && s.slots[ch].caller.Waiting?
    case Answer(_, _) => s.loop.rest == []
    case SendNext => s.loop.rest != [] && s.loop.rest[0] in s.slots && Sendable(s.slots[s.loop.rest[0]])
    case Drain => s.loop.rest == []
  }

  function Apply(s: State, e: Event): State
    requires Enabled(s, e)
  {
    match e
    case Register(ch, k) =>
      var first := Listed(s.waits, k) == [];
      s.(waits := s.waits[k := Listed(s.waits, k) + [ch]],
         slots := s.slots[ch := Slot(k, None, [], if first then MustWrite else Waiting)],
         firsts := if first then s.firsts + {ch} else s.firsts)
    case WriteRequest(ch, ok) =>
      s.(slots := s.slots[ch := s.slots[ch].(caller := if ok then Waiting else WriteFailed)],
         attempts := s.attempts + [ch])
    case Receive(ch) =>
      s.(slots := s.slots[ch := s.slots[ch].(buffer := None, caller := Answered(s.slots[ch].buffer.value))])
    case GiveUp(ch) =>
      s.(waits := RemoveFrom(s.waits, s.slots[ch].key, ch),
         slots := s.slots[ch := s.slots[ch].(caller := GaveUp)])
    case Answer(k, r) =>
      s.(waits := s.waits - {k}, loop := Answering(k, r, Listed(s.waits, k)))
    case SendNext =>
      var ch := s.loop.rest[0];
      s.(slots := s.slots[ch := Sent(s.slots[ch], s.loop.reply)],
         loop := s.loop.(rest := s.loop.rest[1..]))
    case Drain =>
      s.(waits := map[],
         slots := map ch | ch in s.slots ::
           if IsListed(s, ch) && Sendable(s.slots[ch]) then Sent(s.slots[ch], Nil) else s.slots[ch])
  }

  // The events form a run from `s`, and `Final` is where it ends.
  predicate IsRun(s: State, es: seq<Event>)
    decreases |es|
  {
    es == [] || (Enabled(s, es[0]) && IsRun(Apply(s, es[0]), es[1..]))
  }

  function Final(s: State, es: seq<Event>): State
    requires IsRun(s, es)
    decreases |es|
  {
    if es == [] then s else Final(Apply(s, es[0]), es[1..])
  }

  /* ---------------- the invariant ---------------- */

  predicate Distinct<T(==)>(q: seq<T>) {
    forall i, j :: 0 <= i < j < |q| ==> q[i] != q[j]
  }

  // Nothing was ever sent to this channel, so a send to it has room.
  predicate Untouched(slot: Slot) {
    slot.buffer.None? && slot.log == [] && !slot.caller.Answered?
  }

  ghost predicate ListsOk(s: State) {
    forall k :: k in s.waits ==>
      && s.waits[k] != [] && Distinct(s.waits[k])
      && forall ch :: ch in s.waits[k] ==>
        ch in s.slots && s.slots[ch].key == k && Untouched(s.slots[ch]) && !s.slots[ch].caller.GaveUp?
  }

  ghost predicate LoopOk(s: State) {
    && Distinct(s.loop.rest)
    && forall ch :: ch in s.loop.rest ==>
      && ch in s.slots && s.slots[ch].key == s.loop.key && Untouched(s.slots[ch])
      && !IsListed(s, ch)
  }

  predicate SlotOk(slot: Slot) {
    && |slot.log| <= 1
    && (slot.buffer.Some? ==> slot.log == [slot.buffer.value])
    && (slot.caller.Answered? ==> slot.buffer.None? && slot.log == [slot.caller.reply])
    && (slot.caller.Waiting? || slot.caller.MustWrite? ==> slot.log == [] || slot.buffer.Some?)
  }

  // A caller that still waits is either holding its value, listed, or about to be sent to.
  predicate NotLost(s: State, ch: Chan)
    requires ch in s.slots
  {
    s.slots[ch].caller.Waiting? || s.slots[ch].caller.MustWrite? ==>
      s.slots[ch].buffer.Some? || IsListed(s, ch) || ch in s.loop.rest
  }

  ghost predicate SlotsOk(s: State) {
    forall ch :: ch in s.slots ==> SlotOk(s.slots[ch]) && NotLost(s, ch)
  }

  predicate OwesWrite(s: State, ch: Chan) {
    ch in s.slots && s.slots[ch].caller.MustWrite?
  }

  // Exactly the callers that registered first write a request, each exactly once.
  ghost predicate RequestsOk(s: State) {
    && Distinct(s.attempts)
    && (forall ch :: ch in s.firsts <==> ch in s.attempts || OwesWrite(s, ch))
    && (forall ch :: ch in s.attempts ==> ch in s.slots && !OwesWrite(s, ch))
  }

  ghost predicate Inv(s: State) {
    ListsOk(s) && LoopOk(s) && SlotsOk(s) && RequestsOk(s)
  }

  /* ---------------- removeWaiter ---------------- */

  /** `removeWaiter` takes out the caller's own channel and keeps everyone else's place in line. */
  lemma {:induction false} WithoutKeepsOrder(q: seq<Chan>, i: nat)
    requires i < |q| && q[i] !in q[..i]
    ensures Without(q, q[i]) == q[..i] + q[i + 1..]
  {
    if i > 0 {
      assert q[0] in q[..i];
      var tail := q[1..];
      assert tail[..i - 1] == q[1..i];
      assert forall c :: c in q[1..i] ==> c in q[..i];
      WithoutKeepsOrder(tail, i - 1);
      assert [q[0]] + q[1..i] == q[..i];
    }
  }

  lemma {:induction false} WithoutMembers(q: seq<Chan>, ch: Chan)
    requires Distinct(q)
    ensures Distinct(Without(q, ch))
    ensures forall c :: c in Without(q, ch) <==> c in q && c != ch
  {
    if q != [] {
      assert q == [q[0]] + q[1..];
      WithoutMembers(q[1..], ch);
      assert q[0] !in Without(q[1..], ch);
    }
  }

  lemma {:induction false} WithoutAbsent(q: seq<Chan>, ch: Chan)
    requires ch !in q
    ensures Without(q, ch) == q
  {
    if q != [] {
      WithoutAbsent(q[1..], ch);
    }
  }

  method RemoveWaiter(m: map<WaitKey, seq<Chan>>, key: WaitKey, ch: Chan) returns (r: map<WaitKey, seq<Chan>>)
    ensures r == RemoveFrom(m, key, ch)
  {
    r := m;
    var waiters := if key in m then m[key] else [];
    var i := 0;
    while i < |waiters| && waiters[i] != ch
      invariant i <= |waiters| && ch !in waiters[..i]
    {
      i := i + 1;
    }
    if i < |waiters| {
      WithoutKeepsOrder(waiters, i);
      r := r[key := waiters[..i] + waiters[i + 1..]];
    } else {
      WithoutAbsent(waiters, ch);
    }
    if key !in r || |r[key]| == 0 {
      r := r - {key};
    }
  }

  /* ---------------- every step keeps the invariant ---------------- */

  lemma StepKeepsRequests(s: State, e: Event)
    requires RequestsOk(s) && Enabled(s, e)
    ensures RequestsOk(Apply(s, e))
  {
    if e.WriteRequest? {
      assert OwesWrite(s, e.ch) && e.ch !in s.attempts;
    }
  }

  lemma RegisterKeeps(s: State, ch: Chan, k: WaitKey)
    requires Inv(s) && Enabled(s, Register(ch, k))
    ensures Inv(Apply(s, Register(ch, k)))
  {
    var t := Apply(s, Register(ch, k));
    assert forall c :: c in t.slots && c != ch ==> (IsListed(t, c) <==> IsListed(s, c));
    assert ch in t.waits[k] by {
      assert t.waits[k][|t.waits[k]| - 1] == ch;
    }
    assert IsListed(t, ch);
    assert RequestsOk(t) by {
      StepKeepsRequests(s, Register(ch, k));
    }
  }

  lemma WriteRequestKeeps(s: State, ch: Chan, ok: bool)
    requires Inv(s) && Enabled(s, WriteRequest(ch, ok))
    ensures Inv(Apply(s, WriteRequest(ch, ok)))
  {
    var t := Apply(s, WriteRequest(ch, ok));
    assert forall c :: c in s.slots ==> (IsListed(t, c) <==> IsListed(s, c));
    assert RequestsOk(t) by {
      StepKeepsRequests(s, WriteRequest(ch, ok));
    }
  }

  lemma ReceiveKeeps(s: State, ch: Chan)
    requires Inv(s) && Enabled(s, Receive(ch))
    ensures Inv(Apply(s, Receive(ch)))
  {
    var t := Apply(s, Receive(ch));
    assert forall c :: c in s.slots ==> (IsListed(t, c) <==> IsListed(s, c));
  }

  lemma GiveUpKeeps(s: State, ch: Chan)
    requires Inv(s) && Enabled(s, GiveUp(ch))
    ensures Inv(Apply(s, GiveUp(ch)))
  {
    var t := Apply(s, GiveUp(ch));
    var k := s.slots[ch].key;
    WithoutMembers(Listed(s.waits, k), ch);
    assert forall c :: c in s.slots && c != ch ==> (IsListed(t, c) <==> IsListed(s, c));
    assert !IsListed(t, ch);
    assert RequestsOk(t) by {
      StepKeepsRequests(s, GiveUp(ch));
    }
  }

  lemma AnswerKeeps(s: State, k: WaitKey, r: Reply)
    requires Inv(s) && Enabled(s, Answer(k, r))
    ensures Inv(Apply(s, Answer(k, r)))
  {
    var t := Apply(s, Answer(k, r));
    assert forall c :: c in s.slots && s.slots[c].key != k ==> (IsListed(t, c) <==> IsListed(s, c));
  }

  lemma SendNextKeepsLists(s: State)
    requires ListsOk(s) && LoopOk(s) && Enabled(s, SendNext)
    ensures ListsOk(Apply(s, SendNext)) && LoopOk(Apply(s, SendNext))
  {
    var t := Apply(s, SendNext);
    var ch := s.loop.rest[0];
    assert s.loop.rest == [ch] + t.loop.rest;
    assert ch in s.loop.rest && forall c :: c in t.loop.rest ==> c in s.loop.rest && c != ch;
    assert forall c :: c in s.slots ==> (IsListed(t, c) <==> IsListed(s, c));
  }

  lemma SendNextKeepsSlots(s: State)
    requires LoopOk(s) && SlotsOk(s) && Enabled(s, SendNext)
    ensures SlotsOk(Apply(s, SendNext))
  {
    var t := Apply(s, SendNext);
    var ch := s.loop.rest[0];
    assert s.loop.rest == [ch] + t.loop.rest && ch in s.loop.rest;
    assert forall c :: c in s.slots ==> (IsListed(t, c) <==> IsListed(s, c));
  }

  lemma SendNextKeeps(s: State)
    requires Inv(s) && Enabled(s, SendNext)
    ensures Inv(Apply(s, SendNext))
  {
    SendNextKeepsLists(s);
    SendNextKeepsSlots(s);
    StepKeepsRequests(s, SendNext);
  }

  lemma DrainKeeps(s: State)
    requires Inv(s) && Enabled(s, Drain)
    ensures Inv(Apply(s, Drain))
  {
  }

  lemma StepKeeps(s: State, e: Event)
    requires Inv(s) && Enabled(s, e)
    ensures Inv(Apply(s, e))
  {
    match e
    case Register(ch, k) => RegisterKeeps(s, ch, k);
    case WriteRequest(ch, ok) => WriteRequestKeeps(s, ch, ok);
    case Receive(ch) => ReceiveKeeps(s, ch);
    case GiveUp(ch) => GiveUpKeeps(s, ch);
    case Answer(k, r) => AnswerKeeps(s, k, r);
    case SendNext => SendNextKeeps(s);
    case Drain => DrainKeeps(s);
  }

  lemma {:induction false} RunKeeps(s: State, es: seq<Event>)
    requires Inv(s) && IsRun(s, es)
    ensures Inv(Final(s, es))
    decreases |es|
  {
    if es != [] {
      StepKeeps(s, es[0]);
      RunKeeps(Apply(s, es[0]), es[1..]);
    }
  }

  /* ---------------- what holds over whole runs ---------------- */

  lemma InitOk()
    ensures Inv(INIT)
  {
  }

  /** However callers, timeouts, answers and drains interleave, a listed or just-detached channel is
      listed once, is empty, and gets at most one value ever: the read loop's bare send has room. */
  lemma ReadLoopNeverBlocks(es: seq<Event>)
    requires IsRun(INIT, es)
    ensures var s := Final(INIT, es);
      && (s.loop.rest != [] ==> Enabled(s, SendNext))
      && (forall k :: k in s.waits ==> s.waits[k] != [] && Distinct(s.waits[k]))
      && (forall k, ch :: k in s.waits && ch in s.waits[k] ==>
        ch in s.slots && s.slots[ch].key == k && s.slots[ch].buffer.None?)
      && (forall ch :: ch in s.loop.rest ==> ch in s.slots && s.slots[ch].buffer.None? && !IsListed(s, ch))
      && (forall ch :: ch in s.slots ==> |s.slots[ch].log| <= 1)
  {
    InitOk();
    RunKeeps(INIT, es);
    var s := Final(INIT, es);
    if s.loop.rest != [] {
      assert s.loop.rest[0] in s.loop.rest;
    }
  }

  function Sends(n: nat): seq<Event> {
    seq(n, _ => SendNext)
  }

  /** The loop always gets through its list on its own: nothing another goroutine did can stop it. */
  lemma {:induction false} ReadLoopFinishes(s: State)
    requires Inv(s)
    ensures IsRun(s, Sends(|s.loop.rest|)) && Final(s, Sends(|s.loop.rest|)).loop.rest == []
    decreases |s.loop.rest|
  {
    if s.loop.rest != [] {
      assert s.loop.rest[0] in s.loop.rest;
      SendNextKeeps(s);
      var t := Apply(s, SendNext);
      ReadLoopFinishes(t);
      assert Sends(|s.loop.rest|)[1..] == Sends(|t.loop.rest|);
    }
  }

  // A detached channel is still about to get the reply it was detached for, or has exactly that.
  predicate DetachedFor(s: State, ch: Chan, k: WaitKey, r: Reply) {
    && ch in s.slots
    && if ch in s.loop.rest then s.loop.key == k && s.loop.reply == r else s.slots[ch].log == [r]
  }

  lemma {:induction false} DetachedStaysOwed(s: State, es: seq<Event>, ch: Chan, k: WaitKey, r: Reply)
    requires Inv(s) && IsRun(s, es) && DetachedFor(s, ch, k, r)
    ensures DetachedFor(Final(s, es), ch, k, r)
    decreases |es|
  {
    if es != [] {
      var t := Apply(s, es[0]);
      StepKeeps(s, es[0]);
      if ch in s.loop.rest && es[0].SendNext? {
        assert s.loop.rest == [s.loop.rest[0]] + t.loop.rest;
      }
      if ch !in s.loop.rest {
        assert ch in s.slots && s.slots[ch].log == [r] ==> !IsListed(s, ch);
      }
      DetachedStaysOwed(t, es[1..], ch, k, r);
    }
  }

  /** Every waiter listed under a key when its response arrives gets that response and nothing else,
      whatever happens until the loop is idle again, even if the waiter times out meanwhile. */
  lemma ListedGetTheAnswer(s: State, k: WaitKey, r: Reply, es: seq<Event>, ch: Chan)
    requires Inv(s) && Enabled(s, Answer(k, r)) && ch in Listed(s.waits, k)
    requires IsRun(Apply(s, Answer(k, r)), es)
    requires Final(Apply(s, Answer(k, r)), es).loop.rest == []
    ensures ch in Final(Apply(s, Answer(k, r)), es).slots
    ensures Final(Apply(s, Answer(k, r)), es).slots[ch].log == [r]
  {
    AnswerKeeps(s, k, r);
    DetachedStaysOwed(Apply(s, Answer(k, r)), es, ch, k, r);
  }

  /** A drain gives every listed waiter of the three maps exactly nil, leaves every other channel
      alone and leaves no list behind. Draining again changes nothing. */
  lemma DrainAnswersEveryone(s: State)
    requires Inv(s) && Enabled(s, Drain)
    ensures Apply(s, Drain).waits == map[]
    ensures forall k, ch :: k in s.waits && ch in s.waits[k] ==>
      ch in Apply(s, Drain).slots && Apply(s, Drain).slots[ch].log == [Nil]
    ensures forall ch :: ch in s.slots && !IsListed(s, ch) ==> Apply(s, Drain).slots[ch] == s.slots[ch]
    ensures Apply(Apply(s, Drain), Drain) == Apply(s, Drain)
  {
  }

  // Every value a channel ever got was sent by an event of the past that was meant for its key.
  predicate Justified(s: State, past: seq<Event>) {
    && (s.loop.rest != [] ==> Answer(s.loop.key, s.loop.reply) in past)
    && forall ch, r :: ch in s.slots && r in s.slots[ch].log ==>
      Answer(s.slots[ch].key, r) in past || (r == Nil && Drain in past)
  }

  lemma StepJustified(s: State, e: Event, past: seq<Event>)
    requires Inv(s) && Enabled(s, e) && Justified(s, past)
    ensures Justified(Apply(s, e), past + [e])
  {
    var t, now := Apply(s, e), past + [e];
    assert forall p :: p in past ==> p in now;
    assert now[|past|] == e && e in now;
    forall ch, r | ch in t.slots && r in t.slots[ch].log
      ensures Answer(t.slots[ch].key, r) in now || (r == Nil && Drain in now)
    {
      if ch in s.slots && r !in s.slots[ch].log {
        if e.SendNext? {
          assert s.loop.rest[0] in s.loop.rest;
        }
      }
    }
  }

  lemma {:induction false} RunJustified(s: State, es: seq<Event>, past: seq<Event>)
    requires Inv(s) && IsRun(s, es) && Justified(s, past)
    ensures Justified(Final(s, es), past + es)
    decreases |es|
  {
    if es == [] {
      assert past + es == past;
    } else {
      StepJustified(s, es[0], past);
      StepKeeps(s, es[0]);
      RunJustified(Apply(s, es[0]), es[1..], past + [es[0]]);
      assert past + [es[0]] + es[1..] == past + es;
    }
  }

  /** Correlation: what a caller returned is an answer the relay gave for the caller's own key, or
      the nil of a drain. */
  lemma RepliesAreCorrelated(es: seq<Event>, ch: Chan)
    requires IsRun(INIT, es) && ch in Final(INIT, es).slots
    requires Final(INIT, es).slots[ch].caller.Answered?
    ensures var slot := Final(INIT, es).slots[ch];
      Answer(slot.key, slot.caller.reply) in es || (slot.caller.reply == Nil && Drain in es)
  {
    InitOk();
    RunKeeps(INIT, es);
    RunJustified(INIT, es, []);
    assert [] + es == es;
    var slot := Final(INIT, es).slots[ch];
    assert slot.caller.reply in slot.log;
  }

  /** A caller that is still blocked is never forgotten: its value is in its slot, or it is listed
      where the next answer or drain finds it, or the read loop is on its way to it. */
  lemma BlockedCallersAreReachable(es: seq<Event>, ch: Chan)
    requires IsRun(INIT, es) && ch in Final(INIT, es).slots
    requires Final(INIT, es).slots[ch].caller.Waiting?
    ensures var s := Final(INIT, es);
      s.slots[ch].buffer.Some? || IsListed(s, ch) || ch in s.loop.rest
  {
    InitOk();
    RunKeeps(INIT, es);
  }

  /* ---------------- coalescing ---------------- */

  // How often the waiter list of `k` went from empty to non-empty along a run.
  function Transitions(s: State, es: seq<Event>, k: WaitKey): nat
    requires IsRun(s, es)
    decreases |es|
  {
    if es == [] then 0
    else
      (if Listed(s.waits, k) == [] && Listed(Apply(s, es[0]).waits, k) != [] then 1 else 0)
      + Transitions(Apply(s, es[0]), es[1..], k)
  }

  ghost function FirstsFor(s: State, k: WaitKey): set<Chan> {
    set ch | ch in s.firsts && ch in s.slots && s.slots[ch].key == k
  }

  ghost function AttemptsFor(s: State, k: WaitKey): set<Chan> {
    set ch | ch in s.attempts && ch in s.slots && s.slots[ch].key == k
  }

  ghost function OwedFor(s: State, k: WaitKey): set<Chan> {
    set ch | ch in s.slots && OwesWrite(s, ch) && s.slots[ch].key == k
  }

  lemma OnlyRegisterFills(s: State, e: Event, k: WaitKey)
    requires Inv(s) && Enabled(s, e) && !e.Register?
    ensures Listed(s.waits, k) == [] ==> Listed(Apply(s, e).waits, k) == []
    ensures Apply(s, e).firsts == s.firsts && Apply(s, e).slots.Keys == s.slots.Keys
    ensures forall ch :: ch in s.slots ==> Apply(s, e).slots[ch].key == s.slots[ch].key
  {
  }

  lemma FirstsHaveSlots(s: State)
    requires RequestsOk(s)
    ensures forall c :: c in s.firsts ==> c in s.slots
  {
  }

  lemma StepCountsFirsts(s: State, e: Event, k: WaitKey)
    requires Inv(s) && Enabled(s, e)
    ensures |FirstsFor(Apply(s, e), k)| == |FirstsFor(s, k)|
      + if Listed(s.waits, k) == [] && Listed(Apply(s, e).waits, k) != [] then 1 else 0
  {
    if e.Register? {
      FirstsHaveSlots(s);
      RegisterAddsFirst(s, e.ch, e.key, k);
    } else {
      OnlyRegisterFills(s, e, k);
      assert FirstsFor(Apply(s, e), k) == FirstsFor(s, k);
    }
  }

  lemma RegisterAddsFirst(s: State, ch: Chan, key: WaitKey, k: WaitKey)
    requires ch !in s.slots && forall c :: c in s.firsts ==> c in s.slots
    ensures ch !in FirstsFor(s, k)
    ensures FirstsFor(Apply(s, Register(ch, key)), k)
      == FirstsFor(s, k) + if key == k && Listed(s.waits, k) == [] then {ch} else {}
  {
    var t := Apply(s, Register(ch, key));
    forall c
      ensures c in FirstsFor(t, k) <==> c in FirstsFor(s, k) || (c == ch && key == k && Listed(s.waits, k) == [])
    {
    }
  }

  lemma {:induction false} RunCountsFirsts(s: State, es: seq<Event>, k: WaitKey)
    requires Inv(s) && IsRun(s, es)
    ensures |FirstsFor(Final(s, es), k)| == |FirstsFor(s, k)| + Transitions(s, es, k)
    decreases |es|
  {
    if es != [] {
      StepCountsFirsts(s, es[0], k);
      StepKeeps(s, es[0]);
      RunCountsFirsts(Apply(s, es[0]), es[1..], k);
    }
  }

  /** One request attempt per empty-to-non-empty transition of a key's list: the attempts made for
      `k`, each by a different caller, and the ones still to be made are as many as the transitions. */
  lemma OneRequestPerTransition(es: seq<Event>, k: WaitKey)
    requires IsRun(INIT, es)
    ensures Distinct(Final(INIT, es).attempts)
    ensures |AttemptsFor(Final(INIT, es), k)| + |OwedFor(Final(INIT, es), k)| == Transitions(INIT, es, k)
  {
    InitOk();
    RunKeeps(INIT, es);
    RunCountsFirsts(INIT, es, k);
    var s := Final(INIT, es);
    assert FirstsFor(s, k) == AttemptsFor(s, k) + OwedFor(s, k);
    assert AttemptsFor(s, k) !! OwedFor(s, k);
  }

  // Who opened the list of a key last, and whether its request went out.
  datatype Asking = Asking(opener: Chan, out: bool)

  function AskingAfter(s: State, asking: Option<Asking>, e: Event, k: WaitKey): Option<Asking> {
    match e
    case Register(ch, key) => if key == k && Listed(s.waits, k) == [] then Some(Asking(ch, false)) else asking
    case WriteRequest(ch, ok) => if asking.Some? && asking.value.opener == ch then Some(Asking(ch, ok)) else asking
    case _ => asking
  }

  function AskingIn(s: State, asking: Option<Asking>, es: seq<Event>, k: WaitKey): Option<Asking>
    requires IsRun(s, es)
    decreases |es|
  {
    if es == [] then asking else AskingIn(Apply(s, es[0]), AskingAfter(s, asking, es[0], k), es[1..], k)
  }

  // A caller whose request has not been written, or could not be.
  predicate Unasked(s: State, ch: Chan) {
    ch in s.slots && (s.slots[ch].caller.MustWrite? || s.slots[ch].caller.WriteFailed?)
  }

  ghost predicate AskingOk(s: State, asking: Option<Asking>, k: WaitKey) {
    && (asking.Some? ==>
      && asking.value.opener in s.slots
      && (asking.value.out ==> !s.slots[asking.value.opener].caller.MustWrite?))
    && (Listed(s.waits, k) != [] ==>
      && asking.Some?
      && (forall ch :: ch in Listed(s.waits, k) && Unasked(s, ch) ==> ch == asking.value.opener && !asking.value.out)
      && (!asking.value.out ==> asking.value.opener in Listed(s.waits, k) && Unasked(s, asking.value.opener)))
  }

  lemma RegisterKeepsAsking(s: State, asking: Option<Asking>, ch: Chan, key: WaitKey, k: WaitKey)
    requires ListsOk(s) && Enabled(s, Register(ch, key)) && AskingOk(s, asking, k)
    ensures AskingOk(Apply(s, Register(ch, key)), AskingAfter(s, asking, Register(ch, key), k), k)
  {
    assert Listed(Apply(s, Register(ch, key)).waits, key) == Listed(s.waits, key) + [ch];
  }

  lemma GiveUpKeepsAsking(s: State, asking: Option<Asking>, ch: Chan, k: WaitKey)
    requires ListsOk(s) && Enabled(s, GiveUp(ch)) && AskingOk(s, asking, k)
    ensures AskingOk(Apply(s, GiveUp(ch)), asking, k)
  {
    WithoutMembers(Listed(s.waits, s.slots[ch].key), ch);
  }

  lemma StepKeepsAsking(s: State, asking: Option<Asking>, e: Event, k: WaitKey)
    requires ListsOk(s) && Enabled(s, e) && AskingOk(s, asking, k)
    ensures AskingOk(Apply(s, e), AskingAfter(s, asking, e, k), k)
  {
    match e
    case Register(ch, key) => RegisterKeepsAsking(s, asking, ch, key, k);
    case GiveUp(ch) => GiveUpKeepsAsking(s, asking, ch, k);
    case _ =>
  }

  lemma {:induction false} RunKeepsAsking(s: State, asking: Option<Asking>, es: seq<Event>, k: WaitKey)
    requires Inv(s) && IsRun(s, es) && AskingOk(s, asking, k)
    ensures AskingOk(Final(s, es), AskingIn(s, asking, es, k), k)
    decreases |es|
  {
    if es != [] {
      StepKeepsAsking(s, asking, es[0], k);
      StepKeeps(s, es[0]);
      RunKeepsAsking(Apply(s, es[0]), AskingAfter(s, asking, es[0], k), es[1..], k);
    }
  }

  /** The request for a key with waiters is out exactly if nobody in its list has still to write it or
      failed to: the caller that opened the list has written its request successfully, or is the one such
      caller there. */
  lemma RequestIsOutIff(es: seq<Event>, k: WaitKey)
    requires IsRun(INIT, es) && Listed(Final(INIT, es).waits, k) != []
    ensures var s, asking := Final(INIT, es), AskingIn(INIT, None, es, k);
      && asking.Some?
      && (asking.value.out <==> forall ch :: ch in Listed(s.waits, k) ==> !Unasked(s, ch))
      && (forall ch :: ch in Listed(s.waits, k) && Unasked(s, ch) ==> ch == asking.value.opener)
  {
    InitOk();
    RunKeepsAsking(INIT, None, es, k);
  }

  // A caller listed for `k` that returned because its request could not be written.
  predicate Silenced(s: State, k: WaitKey, ch: Chan) {
    ch in Listed(s.waits, k) && ch in s.slots && s.slots[ch].caller.WriteFailed?
  }

  // The relay answers for `k`, or the connection drops.
  predicate Frees(e: Event, k: WaitKey) {
    e.Drain? || (e.Answer? && e.key == k)
  }

  lemma SilentStep(s: State, e: Event, k: WaitKey, ch: Chan)
    requires ListsOk(s) && Enabled(s, e) && Silenced(s, k, ch)
    ensures if Frees(e, k) then Listed(Apply(s, e).waits, k) == [] else Silenced(Apply(s, e), k, ch)
  {
    match e
    case Register(c, key) =>
      assert Listed(Apply(s, e).waits, key) == Listed(s.waits, key) + [c];
    case GiveUp(c) =>
      WithoutMembers(Listed(s.waits, s.slots[c].key), c);
    case _ =>
  }

  lemma SilentAddsNoFirst(s: State, e: Event, k: WaitKey)
    requires Inv(s) && Enabled(s, e) && Listed(s.waits, k) != []
    ensures FirstsFor(Apply(s, e), k) == FirstsFor(s, k)
  {
    FirstsHaveSlots(s);
    if e.Register? {
      RegisterAddsFirst(s, e.ch, e.key, k);
    } else {
      OnlyRegisterFills(s, e, k);
    }
  }

  /** What coalescing costs: a caller whose request could not be written stays listed until the relay
      answers for the key all the same or the connection drops, and nobody who comes until then is made
      to ask. No timeout helps: the caller that failed is not waiting any more. */
  lemma {:induction false} FailedWriteSilencesItsKey(s: State, es: seq<Event>, k: WaitKey, ch: Chan)
    requires Inv(s) && IsRun(s, es) && Silenced(s, k, ch)
    requires forall i :: 0 <= i < |es| ==> !Frees(es[i], k)
    ensures Silenced(Final(s, es), k, ch) && FirstsFor(Final(s, es), k) == FirstsFor(s, k)
    decreases |es|
  {
    if es != [] {
      assert !Frees(es[0], k);
      SilentStep(s, es[0], k, ch);
      SilentAddsNoFirst(s, es[0], k);
      StepKeeps(s, es[0]);
      FailedWriteSilencesItsKey(Apply(s, es[0]), es[1..], k, ch);
    }
  }

  /** The shortest such run: a second caller waits while no request is on its way. */
  lemma SilencedKey(k: WaitKey)
    ensures var es := [Register(0, k), WriteRequest(0, false), Register(1, k)];
      IsRun(INIT, es)
      && Final(INIT, es) == State(map[k := [0, 1]],
        map[0 := Slot(k, None, [], WriteFailed), 1 := Slot(k, None, [], Waiting)], INIT.loop, {0}, [0])
  {
    var s1 := Apply(INIT, Register(0, k));
    var s2 := Apply(s1, WriteRequest(0, false));
    var s3 := Apply(s2, Register(1, k));
    assert Listed(s1.waits, k) == [0] && Listed(s2.waits, k) == [0];
    assert s2.waits[k] + [1] == [0, 1];
    assert s3.waits == map[k := [0, 1]];
    assert s3.slots == map[0 := Slot(k, None, [], WriteFailed), 1 := Slot(k, None, [], Waiting)];
    assert IsRun(s2, [Register(1, k)]) && Final(s2, [Register(1, k)]) == s3;
    var es1 := [WriteRequest(0, false), Register(1, k)];
    assert es1[1..] == [Register(1, k)];
    assert IsRun(s1, es1) && Final(s1, es1) == s3;
    var es := [Register(0, k), WriteRequest(0, false), Register(1, k)];
    assert es[1..] == es1;
  }

  /* ---------------- the session object ---------------- */

  // The select with a default that drainWaiters runs for each waiter of one list.
  method NilEach(slots: map<Chan, Slot>, waiters: seq<Chan>) returns (r: map<Chan, Slot>)
    requires forall ch :: ch in waiters ==> ch in slots
    ensures r == map ch | ch in slots ::
      if ch in waiters && Sendable(slots[ch]) then Sent(slots[ch], Nil) else slots[ch]
  {
    r := slots;
    for i := 0 to |waiters|
      invariant r.Keys == slots.Keys
      invariant forall ch :: ch in slots ==>
        r[ch] == if ch in waiters[..i] && Sendable(slots[ch]) then Sent(slots[ch], Nil) else slots[ch]
    {
      var ch := waiters[i];
      assert ch in waiters;
      if r[ch].buffer.None? {
        r := r[ch := r[ch].(buffer := Some(Nil), log := r[ch].log + [Nil])];
      }
      assert waiters[..i + 1] == waiters[..i] + [ch];
    }
    assert waiters[..|waiters|] == waiters;
  }

  // The slots after draining every list except those of the keys in `todo`.
  ghost function DrainedBut(s: State, todo: set<WaitKey>): map<Chan, Slot> {
    map ch | ch in s.slots ::
      if IsListed(s, ch) && s.slots[ch].key !in todo then Sent(s.slots[ch], Nil) else s.slots[ch]
  }

  lemma OneChannelDrained(s: State, todo: set<WaitKey>, k: WaitKey, ch: Chan)
    requires ListsOk(s) && k in todo && k in s.waits && ch in s.slots
    ensures var was := DrainedBut(s, todo)[ch];
      DrainedBut(s, todo - {k})[ch] == if ch in s.waits[k] && Sendable(was) then Sent(was, Nil) else was
  {
    if ch in s.waits[k] {
      assert s.slots[ch].key == k;
    }
  }

  lemma OneListDrained(s: State, todo: set<WaitKey>, k: WaitKey, now: map<Chan, Slot>)
    requires ListsOk(s) && k in todo && k in s.waits
    requires var was := DrainedBut(s, todo);
      now == map ch | ch in was :: if ch in s.waits[k] && Sendable(was[ch]) then Sent(was[ch], Nil) else was[ch]
    ensures now == DrainedBut(s, todo - {k})
  {
    forall ch | ch in s.slots
      ensures now[ch] == DrainedBut(s, todo - {k})[ch]
    {
      OneChannelDrained(s, todo, k, ch);
    }
  }

  lemma DrainAsLoops(s: State)
    requires Inv(s) && Enabled(s, Drain)
    ensures Apply(s, Drain) == s.(waits := map[], slots := DrainedBut(s, {}))
    ensures Inv(s.(waits := map[], slots := DrainedBut(s, {})))
  {
    DrainKeeps(s);
    assert Apply(s, Drain).slots == DrainedBut(s, {});
  }

  // The range over one waiter map, which deletes each key once its list is done.
  method NilAll(ghost s: State, waits: map<WaitKey, seq<Chan>>, slots: map<Chan, Slot>)
    returns (r: map<Chan, Slot>)
    requires ListsOk(s) && waits == s.waits && slots == s.slots
    ensures r == DrainedBut(s, {})
  {
    var todo := waits;
    r := slots;
    while todo != map[]
      invariant todo.Keys <= waits.Keys && r == DrainedBut(s, todo.Keys)
      decreases todo.Keys
    {
      var k :| k in todo;
      r := NilEach(r, waits[k]);
      OneListDrained(s, todo.Keys, k, r);
      todo := todo - {k};
    }
  }

  class Session {
    var waits: map<WaitKey, seq<Chan>>
    var slots: map<Chan, Slot>
    var loop: Answering
    var next: Chan
    ghost var firsts: set<Chan>
    ghost var attempts: seq<Chan>

    ghost function View(): State
      reads this
    {
      State(waits, slots, loop, firsts, attempts)
    }

    ghost predicate Valid()
      reads this
    {
      Inv(View()) && forall ch :: ch in slots ==> ch < next
    }

    constructor ()
      ensures Valid() && View() == INIT
    {
      waits, slots, next := map[], map[], 0;
      loop := Answering(WaitKey(Keys, ""), Nil, []);
      firsts, attempts := {}, [];
    }

    // The locked section at the start of GetKey, Resolve and QueryPresence.
    method RegisterWaiter(k: WaitKey) returns (ch: Chan, first: bool)
      requires Valid()
      modifies this
      ensures Valid() && Enabled(old(View()), Register(ch, k))
      ensures View() == Apply(old(View()), Register(ch, k))
      ensures first == (ch in View().firsts)
      ensures first <==> Listed(old(waits), k) == []
      ensures waits == old(waits)[k := Listed(old(waits), k) + [ch]]
      ensures slots == old(slots)[ch := Slot(k, None, [], if first then MustWrite else Waiting)] && loop == old(loop)
    {
      RegisterKeeps(View(), next, k);
      ch, next := next, next + 1;
      waits := waits[k := (if k in waits then waits[k] else []) + [ch]];
      first := |waits[k]| == 1;
      slots := slots[ch := Slot(k, None, [], if first then MustWrite else Waiting)];
      if first {
        firsts := firsts + {ch};
      }
    }

    // The first caller for a key writes the request; on failure it returns and stays listed.
    method RequestWritten(ch: Chan, ok: bool)
      requires Valid() && Enabled(View(), WriteRequest(ch, ok))
      modifies this
      ensures Valid() && View() == Apply(old(View()), WriteRequest(ch, ok))
      ensures slots == old(slots)[ch := old(slots)[ch].(caller := if ok then Waiting else WriteFailed)]
      ensures waits == old(waits) && attempts == old(attempts) + [ch]
    {
      WriteRequestKeeps(View(), ch, ok);
      slots := slots[ch := slots[ch].(caller := if ok then Waiting else WriteFailed)];
      attempts := attempts + [ch];
    }

    // The caller wakes up with a value. A nil answer reads as "no key on file".
    method Wake(ch: Chan) returns (r: Reply)
      requires Valid() && Enabled(View(), Receive(ch))
      modifies this
      ensures Valid() && View() == Apply(old(View()), Receive(ch))
      ensures old(View()).slots[ch].log == [r]
      ensures old(slots)[ch].buffer == Some(r)
      ensures slots == old(slots)[ch := old(slots)[ch].(buffer := None, caller := Answered(r))] && waits == old(waits)
    {
      ReceiveKeeps(View(), ch);
      r := slots[ch].buffer.value;
      slots := slots[ch := slots[ch].(buffer := None, caller := Answered(r))];
    }

    // The locked section after a timeout or cancel, and the caller's return.
    method GiveUpWaiting(ch: Chan)
      requires Valid() && Enabled(View(), GiveUp(ch))
      modifies this
      ensures Valid() && View() == Apply(old(View()), GiveUp(ch))
      ensures slots == old(slots)[ch := old(slots)[ch].(caller := GaveUp)]
      ensures var key := old(slots)[ch].key;
        && Listed(waits, key) == Without(Listed(old(waits), key), ch)
        && forall k :: k != key ==> Listed(waits, k) == Listed(old(waits), k)
    {
      GiveUpKeeps(View(), ch);
      waits := RemoveWaiter(waits, slots[ch].key, ch);
      slots := slots[ch := slots[ch].(caller := GaveUp)];
    }

    // A response frame: detach the list under the lock, then send to each channel outside it.
    method Respond(k: WaitKey, r: Reply)
      requires Valid() && loop.rest == []
      modifies this
      ensures Valid()
      ensures var s := Apply(old(View()), Answer(k, r));
        IsRun(s, Sends(|s.loop.rest|)) && View() == Final(s, Sends(|s.loop.rest|))
      ensures waits == old(waits) - {k}
      ensures forall ch :: ch in Listed(old(waits), k) ==> ch in slots && slots[ch].log == [r]
    {
      AnswerKeeps(View(), k, r);
      loop := Answering(k, r, if k in waits then waits[k] else []);
      waits := waits - {k};
      ghost var s := View();
      ReadLoopFinishes(s);
      assert Sends(0) == [];
      while loop.rest != []
        invariant Valid() && |loop.rest| <= |s.loop.rest| && waits == old(waits) - {k}
        invariant IsRun(View(), Sends(|loop.rest|))
        invariant Final(View(), Sends(|loop.rest|)) == Final(s, Sends(|s.loop.rest|))
        decreases |loop.rest|
      {
        SendFirst();
      }
      forall ch | ch in Listed(old(waits), k)
        ensures ch in slots && slots[ch].log == [r]
      {
        ListedGetTheAnswer(old(View()), k, r, Sends(|s.loop.rest|), ch);
      }
    }

    // One turn of that loop.
    method SendFirst()
      requires Valid() && loop.rest != []
      requires IsRun(View(), Sends(|loop.rest|))
      modifies this`slots, this`loop
      ensures Valid() && |loop.rest| == |old(loop.rest)| - 1
      ensures IsRun(View(), Sends(|loop.rest|))
      ensures Final(View(), Sends(|loop.rest|)) == Final(old(View()), Sends(|old(loop.rest)|))
    {
      ghost var before := View();
      assert loop.rest[0] in loop.rest;
      SendNextKeeps(before);
      var ch := loop.rest[0];
      slots := slots[ch := slots[ch].(buffer := Some(loop.reply), log := slots[ch].log + [loop.reply])];
      loop := loop.(rest := loop.rest[1..]);
      assert View() == Apply(before, SendNext);
      assert Sends(|before.loop.rest|)[1..] == Sends(|loop.rest|);
    }

    // drainWaiters: both loops run under the lock, so the whole drain is one event.
    method DrainWaiters()
      requires Valid() && loop.rest == []
      modifies this`waits, this`slots
      ensures Valid() && View() == Apply(old(View()), Drain)
      ensures waits == map[] && slots.Keys == old(slots).Keys
      ensures forall k, ch :: k in old(waits) && ch in old(waits)[k] ==> slots[ch].buffer == Some(Nil)
    {
      DrainAsLoops(View());
      slots := NilAll(View(), waits, slots);
      waits := map[];
    }
  }
}
