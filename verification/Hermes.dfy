/**
The two idempotency layers on the way to a Hermes agent run: the bridge's bounded seen-set with
forget-on-failure (`adapters/hermes/bridge/bridge.go`) and the receiver's table with a time-to-live
and a size cap (`adapters/hermes/plugin/attn/adapter.py`).

A post may get lost, its response may get lost, and a post the bridge has given up on may still
arrive later. The bridge handles one frame at a time; either side may restart.
*/
module Hermes {
  import opened Wrappers
  import opened Tables
  import opened Text
  import opened Numbers

  type Id = string

  const SEEN_CAP := 4096
  const TTL := 3600.0
  const IDEMPOTENCY_MAX := 8192

  datatype FrameType = MessageFrame | FileFrame | OtherFrame
  // `digest` is the leading part of the body's HMAC, the request id of a frame without one.
  datatype Frame = Frame(
    kind: FrameType, from: string, message: string, id: Id, filename: string, path: string, size: nat, digest: string)

  // What reaches the receiver: the request id and the message text.
  datatype Post = Post(id: Id, text: string)

  /* ---------------- the bridge's pure part ---------------- */

  predicate ShouldForward(f: Frame, session: string) {
    && f.from != session
    && match f.kind
       case MessageFrame => Trim(f.message, IsGoSpace) != ""
       case FileFrame => f.filename != "" || f.path != ""
       case OtherFrame => false
  }

  function Notice(f: Frame): string {
    "[received file: " + (if f.filename == "" then f.path else f.filename)
    + " (" + Itoa(f.size) + " bytes) at " + f.path + "]"
  }

  function BuildPost(f: Frame): Post {
    Post(if f.id == "" then f.digest else f.id, if f.kind.FileFrame? then Notice(f) else f.message)
  }

  // The receiver answers 400 to a text that strips to nothing.
  predicate Empty(p: Post) {
    Trim(p.text, IsPySpace) == ""
  }

  // Only information separators and spaces, and at least one separator.
  predicate OnlySeparators(s: string) {
    Blank(s, IsPySpace) && !Blank(s, IsGoSpace)
  }

  /** A frame the bridge forwards is empty for the receiver exactly if its message consists of spaces
      and information separators: the two trims differ on U+001C to U+001F and nowhere else. */
  lemma ForwardedYetEmpty(f: Frame, session: string)
    requires ShouldForward(f, session)
    ensures Empty(BuildPost(f)) <==> f.kind.MessageFrame? && OnlySeparators(f.message)
  {
    var i, j := TrimCuts(BuildPost(f).text, IsPySpace);
    if f.kind.MessageFrame? {
      var k, l := TrimCuts(f.message, IsGoSpace);
    } else {
      assert BuildPost(f).text[0] == '[' && !IsPySpace('[');
    }
  }

  /** What is posted: the frame's own text under the frame's own id. A file's notice names the file, else its
      path, then its size, and ends with the path; a frame without an id is known by its digest. */
  lemma PostCarriesFrame(f: Frame)
    ensures f.id != "" ==> BuildPost(f).id == f.id
    ensures f.id == "" ==> BuildPost(f).id == f.digest
    ensures !f.kind.FileFrame? ==> BuildPost(f).text == f.message
    ensures f.kind.FileFrame? && f.filename != "" ==>
      BuildPost(f).text == "[received file: " + f.filename + " (" + Itoa(f.size) + " bytes) at " + f.path + "]"
    ensures f.kind.FileFrame? && f.filename == "" ==>
      BuildPost(f).text == "[received file: " + f.path + " (" + Itoa(f.size) + " bytes) at " + f.path + "]"
  {
  }

  /* ---------------- the receiver's table ---------------- */

  // `epoch` is how often the receiver had been restarted.
  datatype Accepted = Accepted(id: Id, at: real, ran: bool, epoch: nat)

  function Fresh(seen: map<Id, real>, now: real): map<Id, real> {
    map k | k in seen && seen[k] > now - TTL :: seen[k]
  }

  // What a prune may leave: the entries inside the time-to-live, or the newest 8192 of them.
  ghost predicate Pruned(seen: map<Id, real>, now: real, kept: map<Id, real>) {
    var live := Fresh(seen, now);
    if |live| <= IDEMPOTENCY_MAX then kept == live
    else
      && |kept| == IDEMPOTENCY_MAX
      && (forall k :: k in kept ==> k in live && kept[k] == live[k])
      && (forall k, d :: k in kept && d in live && d !in kept ==> live[d] <= kept[k])
  }

  /** Pruning never drops an entry newer than one it keeps, keeps no expired one, and drops a live one
      only for lack of room. */
  lemma PruneDropsOldest(seen: map<Id, real>, now: real, kept: map<Id, real>, k: Id, d: Id)
    requires Pruned(seen, now, kept) && k in kept && d in seen && d !in kept
    ensures k in seen && kept[k] == seen[k] && seen[d] <= seen[k] && now - 3600.0 < seen[k]
    ensures now - 3600.0 < seen[d] ==> |kept| == 8192
  {
    if seen[d] > now - TTL {
      assert d in Fresh(seen, now);
    }
  }

  datatype State = State(
    bridgeSeen: set<Id>,
    inFlight: Option<Frame>,      // forward is waiting for the response
    seen: map<Id, real>,          // the receiver's table
    clock: real,
    epoch: nat,                   // receiver restarts so far
    accepted: seq<Accepted>,      // new request ids ever taken in
    log: Log
  )

  datatype Log = Log(
    posted: set<Post>,            // every attempt ever made
    forwarded: set<Id>,           // ids the bridge recorded as forwarded
    sinceReset: set<Id>,          // those recorded since its set was last emptied
    ran: set<Id>,                 // ids that ever started an agent run
    refused: set<Id>              // ids ever taken in and answered 400
  )

  datatype Net = Dropped | ResponseLost | Answered

  datatype Event =
    | Take(f: Frame, session: string)
    | Resolve(net: Net, now: real, kept: map<Id, real>)
    | Late(p: Post, now: real, kept: map<Id, real>)
    | BridgeRestart
    | ReceiverRestart

  const INIT := State({}, None, map[], 0.0, 0, [], Log({}, {}, {}, {}, {}))

  // `_is_duplicate` and the empty-text check, as one request.
  function Receive(s: State, p: Post, now: real, kept: map<Id, real>): State {
    if p.id in kept then s.(seen := kept, clock := now)
    else
      var ran := !Empty(p);
      s.(seen := kept[p.id := now], clock := now, accepted := s.accepted + [Accepted(p.id, now, ran, s.epoch)],
         log := if ran then s.log.(ran := s.log.ran + {p.id}) else s.log.(refused := s.log.refused + {p.id}))
  }

  // 2xx for a duplicate and for an accepted request, 400 for an empty one.
  predicate Success(p: Post, kept: map<Id, real>) {
    p.id in kept || !Empty(p)
  }

  function Forget(seen: set<Id>, id: Id): set<Id> {
    if id == "" then seen else seen - {id}
  }

  ghost predicate Enabled(s: State, e: Event) {
    match e
    case Take(_, _) => s.inFlight.None?
    case Resolve(net, now, kept) => s.inFlight.Some? && s.clock <= now && (net.Dropped? || Pruned(s.seen, now, kept))
    case Late(p, now, kept) => p in s.log.posted && s.clock <= now && Pruned(s.seen, now, kept)
    case _ => true
  }

  ghost function Apply(s: State, e: Event): State
    requires Enabled(s, e)
  {
    match e
    case Take(f, session) =>
      if !ShouldForward(f, session) || f.id in s.bridgeSeen then s
      else
        var reset := f.id != "" && |s.bridgeSeen| >= SEEN_CAP;
        var room := if reset then {} else s.bridgeSeen;
        s.(bridgeSeen := if f.id == "" then room else room + {f.id}, inFlight := Some(f),
           log := s.log.(posted := s.log.posted + {BuildPost(f)},
                         sinceReset := if reset then {} else s.log.sinceReset))
    case Resolve(net, now, kept) =>
      var f := s.inFlight.value;
      var p := BuildPost(f);
      var t := if net.Dropped? then s.(clock := now) else Receive(s, p, now, kept);
      if net.Answered? && Success(p, kept) then
        t.(inFlight := None,
           log := if f.id == "" then t.log
                  else t.log.(forwarded := t.log.forwarded + {f.id}, sinceReset := t.log.sinceReset + {f.id}))
      else t.(inFlight := None, bridgeSeen := Forget(s.bridgeSeen, f.id))
    case Late(p, now, kept) => Receive(s, p, now, kept)
    case BridgeRestart => s.(bridgeSeen := {}, inFlight := None, log := s.log.(sinceReset := {}))
    case ReceiverRestart => s.(seen := map[], epoch := s.epoch + 1)
  }

  ghost predicate IsRun(s: State, es: seq<Event>)
    decreases |es|
  {
    es == [] || (Enabled(s, es[0]) && IsRun(Apply(s, es[0]), es[1..]))
  }

  ghost function Final(s: State, es: seq<Event>): State
    requires IsRun(s, es)
    decreases |es|
  {
    if es == [] then s else Final(Apply(s, es[0]), es[1..])
  }

  /* ---------------- the invariant ---------------- */

  // The set is what was forwarded since the last reset, and the id in flight.
  predicate BridgeOk(s: State) {
    && |s.bridgeSeen| <= SEEN_CAP
    && s.log.sinceReset <= s.log.forwarded
    && "" !in s.bridgeSeen && "" !in s.log.sinceReset
    && match s.inFlight
       case None => s.bridgeSeen == s.log.sinceReset
       case Some(f) =>
         && BuildPost(f) in s.log.posted
         && if f.id == "" then s.bridgeSeen == s.log.sinceReset
            else s.bridgeSeen == s.log.sinceReset + {f.id} && f.id !in s.log.sinceReset
  }

  // The ids, other than acceptance i's own, that the same receiver accepted before acceptance j, at or
  // after i's time.
  function Others(acc: seq<Accepted>, i: nat, j: nat): set<Id>
    requires i < |acc| && j <= |acc|
  {
    set k | 0 <= k < j && acc[k].at >= acc[i].at && acc[k].epoch == acc[i].epoch && acc[k].id != acc[i].id :: acc[k].id
  }

  predicate InTable(acc: seq<Accepted>, seen: map<Id, real>, i: nat)
    requires i < |acc|
  {
    acc[i].id in seen && seen[acc[i].id] >= acc[i].at
  }

  predicate Remembered(s: State, i: nat)
    requires i < |s.accepted|
  {
    InTable(s.accepted, s.seen, i)
  }

  // Every entry of the table is an acceptance of this receiver.
  ghost predicate Sourced(seen: map<Id, real>, acc: seq<Accepted>, epoch: nat) {
    forall k :: k in seen ==>
      exists i :: 0 <= i < |acc| && acc[i].id == k && acc[i].at == seen[k] && acc[i].epoch == epoch
  }

  predicate Crowded(acc: seq<Accepted>, i: nat)
    requires i < |acc|
  {
    |Others(acc, i, |acc|)| >= IDEMPOTENCY_MAX
  }

  predicate EpochsOrdered(acc: seq<Accepted>) {
    forall i, j :: 0 <= i < j < |acc| ==> acc[i].epoch <= acc[j].epoch
  }

  predicate Past(acc: seq<Accepted>, clock: real, epoch: nat) {
    forall i :: 0 <= i < |acc| ==> acc[i].at <= clock && acc[i].epoch <= epoch
  }

  ghost predicate Window(acc: seq<Accepted>, seen: map<Id, real>, clock: real, epoch: nat) {
    && Past(acc, clock, epoch)
    && EpochsOrdered(acc)
    && Sourced(seen, acc, epoch)
    && (forall i :: 0 <= i < |acc| && clock - TTL < acc[i].at && acc[i].epoch == epoch ==>
      InTable(acc, seen, i) || Crowded(acc, i))
    && |seen| <= IDEMPOTENCY_MAX + 1
  }

  ghost predicate WindowOk(s: State) {
    Window(s.accepted, s.seen, s.clock, s.epoch)
  }

  // Two acceptances of an id by one receiver, closer than the time-to-live, have 8192 others between them.
  ghost predicate PairsOk(acc: seq<Accepted>) {
    forall i, j :: 0 <= i < j < |acc| && TooClose(acc[i], acc[j]) ==> |Others(acc, i, j)| >= IDEMPOTENCY_MAX
  }

  predicate TooClose(a: Accepted, b: Accepted) {
    a.id == b.id && b.at - a.at < TTL && a.epoch == b.epoch
  }

  // What the receiver took in either ran or was refused, and nothing else is recorded as forwarded.
  ghost predicate RunsOk(s: State) {
    && (forall k :: k in s.seen ==> k in s.log.ran || k in s.log.refused)
    && (forall i :: 0 <= i < |s.accepted| && s.accepted[i].ran ==> s.accepted[i].id in s.log.ran)
    && PostedOk(s.log)
  }

  ghost predicate PostedOk(log: Log) {
    && log.forwarded <= log.ran + log.refused
    && (forall k :: k in log.ran ==> exists p :: p in log.posted && p.id == k && !Empty(p))
    && (forall k :: k in log.refused ==> exists p :: p in log.posted && p.id == k && Empty(p))
  }

  ghost predicate Inv(s: State) {
    BridgeOk(s) && WindowOk(s) && PairsOk(s.accepted) && RunsOk(s)
  }

  lemma OthersGrow(acc: seq<Accepted>, a: Accepted, i: nat, j: nat)
    requires i < |acc| && j <= |acc|
    ensures Others(acc + [a], i, j) == Others(acc, i, j)
    ensures Others(acc, i, j) <= Others(acc, i, |acc|) <= Others(acc + [a], i, |acc| + 1)
  {
    assert forall k :: 0 <= k < |acc| ==> (acc + [a])[k] == acc[k];
    forall x | x in Others(acc, i, j)
      ensures x in Others(acc + [a], i, j)
    {
      var k :| 0 <= k < j && acc[k].at >= acc[i].at && acc[k].epoch == acc[i].epoch
        && acc[k].id != acc[i].id && acc[k].id == x;
      assert (acc + [a])[k] == acc[k];
    }
    forall x | x in Others(acc, i, |acc|)
      ensures x in Others(acc + [a], i, |acc| + 1)
    {
      var k :| 0 <= k < |acc| && acc[k].at >= acc[i].at && acc[k].epoch == acc[i].epoch
        && acc[k].id != acc[i].id && acc[k].id == x;
      assert (acc + [a])[k] == acc[k];
    }
  }

  /** After a prune, an acceptance inside the window is still in the table, or 8192 other ids were
      accepted at or after it. */
  lemma PruneRemembers(s: State, now: real, kept: map<Id, real>, i: nat)
    requires WindowOk(s) && s.clock <= now && Pruned(s.seen, now, kept)
    requires i < |s.accepted| && now - TTL < s.accepted[i].at && s.accepted[i].epoch == s.epoch
    ensures (s.accepted[i].id in kept && kept[s.accepted[i].id] >= s.accepted[i].at)
      || Crowded(s.accepted, i)
  {
    var a := s.accepted[i];
    if !Crowded(s.accepted, i) && a.id !in kept {
      assert Remembered(s, i);
      assert a.id in Fresh(s.seen, now);
      forall k | k in kept
        ensures k in Others(s.accepted, i, |s.accepted|)
      {
        var n :| 0 <= n < |s.accepted| && s.accepted[n].id == k && s.accepted[n].at == s.seen[k]
          && s.accepted[n].epoch == s.epoch;
        assert s.accepted[n].at >= a.at && s.accepted[n].id != a.id;
      }
      SubsetSize(kept.Keys, Others(s.accepted, i, |s.accepted|));
    }
  }

  lemma PrunedIsSmall(seen: map<Id, real>, now: real, kept: map<Id, real>)
    requires Pruned(seen, now, kept)
    ensures |kept| <= IDEMPOTENCY_MAX && forall k :: k in kept ==> k in seen && kept[k] == seen[k]
  {
  }

  // Time passing without a request keeps everything but the window's left edge.
  lemma ClockKeeps(s: State, now: real)
    requires WindowOk(s) && s.clock <= now
    ensures WindowOk(s.(clock := now))
  {
    var t := s.(clock := now);
    forall i | 0 <= i < |t.accepted| && t.clock - TTL < t.accepted[i].at && t.accepted[i].epoch == t.epoch
      ensures Remembered(t, i) || Crowded(t.accepted, i)
    {
      assert Remembered(t, i) <==> Remembered(s, i);
    }
  }

  lemma DuplicateKeeps(s: State, p: Post, now: real, kept: map<Id, real>)
    requires WindowOk(s) && s.clock <= now && Pruned(s.seen, now, kept) && p.id in kept
    ensures WindowOk(Receive(s, p, now, kept))
  {
    var t := Receive(s, p, now, kept);
    PrunedIsSmall(s.seen, now, kept);
    assert Sourced(kept, s.accepted, s.epoch);
    forall i | 0 <= i < |t.accepted| && t.clock - TTL < t.accepted[i].at && t.accepted[i].epoch == t.epoch
      ensures Remembered(t, i) || Crowded(t.accepted, i)
    {
      PruneRemembers(s, now, kept, i);
    }
  }

  lemma AcceptanceIsSourced(seen: map<Id, real>, kept: map<Id, real>, acc: seq<Accepted>, a: Accepted)
    requires Sourced(seen, acc, a.epoch) && forall k :: k in kept ==> k in seen && kept[k] == seen[k]
    ensures Sourced(kept[a.id := a.at], acc + [a], a.epoch)
  {
    var more := acc + [a];
    forall k | k in kept || k == a.id
      ensures exists i ::
        && 0 <= i < |more| && more[i].id == k && more[i].at == kept[a.id := a.at][k]
        && more[i].epoch == a.epoch
    {
      if k == a.id {
        assert more[|acc|].id == k && more[|acc|].at == a.at;
      } else {
        var i :| 0 <= i < |acc| && acc[i].id == k && acc[i].at == seen[k] && acc[i].epoch == a.epoch;
        assert more[i] == acc[i];
      }
    }
  }

  lemma CrowdedStays(acc: seq<Accepted>, a: Accepted, i: nat)
    requires i < |acc| && Crowded(acc, i)
    ensures Crowded(acc + [a], i)
  {
    OthersGrow(acc, a, i, |acc|);
    SubsetSize(Others(acc, i, |acc|), Others(acc + [a], i, |acc| + 1));
  }

  lemma AcceptanceKeepsEntry(s: State, p: Post, now: real, kept: map<Id, real>, i: nat)
    requires WindowOk(s) && s.clock <= now && Pruned(s.seen, now, kept) && p.id !in kept
    requires i < |s.accepted| && now - TTL < s.accepted[i].at && s.accepted[i].epoch == s.epoch
    ensures Remembered(Receive(s, p, now, kept), i) || Crowded(Receive(s, p, now, kept).accepted, i)
  {
    var t := Receive(s, p, now, kept);
    PruneRemembers(s, now, kept, i);
    assert t.accepted[i] == s.accepted[i];
    if Crowded(s.accepted, i) {
      CrowdedStays(s.accepted, Accepted(p.id, now, !Empty(p), s.epoch), i);
    }
  }

  lemma AcceptanceKeepsPast(acc: seq<Accepted>, clock: real, a: Accepted)
    requires Past(acc, clock, a.epoch) && EpochsOrdered(acc) && clock <= a.at
    ensures Past(acc + [a], a.at, a.epoch) && EpochsOrdered(acc + [a])
  {
    var more := acc + [a];
    assert forall i :: 0 <= i < |acc| ==> more[i] == acc[i];
  }

  lemma AcceptanceKeepsWindow(s: State, p: Post, now: real, kept: map<Id, real>)
    requires WindowOk(s) && s.clock <= now && Pruned(s.seen, now, kept) && p.id !in kept
    ensures WindowOk(Receive(s, p, now, kept))
  {
    var a := Accepted(p.id, now, !Empty(p), s.epoch);
    var acc, seen := s.accepted + [a], kept[p.id := now];
    assert |seen| <= IDEMPOTENCY_MAX + 1 && Sourced(seen, acc, s.epoch) by {
      PrunedIsSmall(s.seen, now, kept);
      AcceptanceIsSourced(s.seen, kept, s.accepted, a);
    }
    assert Past(acc, now, s.epoch) && EpochsOrdered(acc) by {
      AcceptanceKeepsPast(s.accepted, s.clock, a);
    }
    forall i | 0 <= i < |acc| && now - TTL < acc[i].at && acc[i].epoch == s.epoch
      ensures InTable(acc, seen, i) || Crowded(acc, i)
    {
      AcceptanceKeepsLive(s, p, now, kept, i);
    }
    assert Window(acc, seen, now, s.epoch);
  }

  lemma AcceptanceKeepsLive(s: State, p: Post, now: real, kept: map<Id, real>, i: nat)
    requires WindowOk(s) && s.clock <= now && Pruned(s.seen, now, kept) && p.id !in kept
    requires var acc := s.accepted + [Accepted(p.id, now, !Empty(p), s.epoch)];
      i < |acc| && now - TTL < acc[i].at && acc[i].epoch == s.epoch
    ensures var acc := s.accepted + [Accepted(p.id, now, !Empty(p), s.epoch)];
      InTable(acc, kept[p.id := now], i) || Crowded(acc, i)
  {
    if i < |s.accepted| {
      assert (s.accepted + [Accepted(p.id, now, !Empty(p), s.epoch)])[i] == s.accepted[i];
      AcceptanceKeepsEntry(s, p, now, kept, i);
    }
  }

  lemma AcceptanceKeepsPairs(s: State, p: Post, now: real, kept: map<Id, real>)
    requires WindowOk(s) && PairsOk(s.accepted) && s.clock <= now && Pruned(s.seen, now, kept) && p.id !in kept
    ensures PairsOk(Receive(s, p, now, kept).accepted)
  {
    var a := Accepted(p.id, now, !Empty(p), s.epoch);
    var n := |s.accepted|;
    var acc := s.accepted + [a];
    forall i, j | 0 <= i < j < |acc| && TooClose(acc[i], acc[j])
      ensures |Others(acc, i, j)| >= IDEMPOTENCY_MAX
    {
      OthersGrow(s.accepted, a, i, j);
      assert acc[i] == s.accepted[i];
      if j == n {
        PruneRemembers(s, now, kept, i);
      } else {
        assert acc[j] == s.accepted[j];
      }
    }
  }

  lemma DuplicateKeepsRuns(s: State, p: Post, now: real, kept: map<Id, real>)
    requires RunsOk(s) && Pruned(s.seen, now, kept) && p.id in kept
    ensures RunsOk(Receive(s, p, now, kept))
  {
    PrunedIsSmall(s.seen, now, kept);
  }

  lemma TakenInKeepsPosted(log: Log, p: Post)
    requires PostedOk(log) && p in log.posted
    ensures PostedOk(if Empty(p) then log.(refused := log.refused + {p.id}) else log.(ran := log.ran + {p.id}))
  {
  }

  lemma AcceptanceKeepsRuns(s: State, p: Post, now: real, kept: map<Id, real>)
    requires RunsOk(s) && Pruned(s.seen, now, kept) && p.id !in kept && p in s.log.posted
    ensures RunsOk(Receive(s, p, now, kept))
  {
    var t := Receive(s, p, now, kept);
    assert PostedOk(t.log) by {
      TakenInKeepsPosted(s.log, p);
    }
    assert forall k :: k in t.seen ==> k in t.log.ran || k in t.log.refused by {
      PrunedIsSmall(s.seen, now, kept);
    }
    RanStays(s.accepted, Accepted(p.id, now, !Empty(p), s.epoch), s.log.ran, t.log.ran);
  }

  lemma RanStays(acc: seq<Accepted>, a: Accepted, ran: set<Id>, after: set<Id>)
    requires (forall i :: 0 <= i < |acc| && acc[i].ran ==> acc[i].id in ran) && ran <= after && (a.ran ==> a.id in after)
    ensures forall i :: 0 <= i < |acc + [a]| && (acc + [a])[i].ran ==> (acc + [a])[i].id in after
  {
  }

  lemma ReceiveKeepsRuns(s: State, p: Post, now: real, kept: map<Id, real>)
    requires RunsOk(s) && Pruned(s.seen, now, kept) && p in s.log.posted
    ensures RunsOk(Receive(s, p, now, kept))
  {
    if p.id in kept {
      DuplicateKeepsRuns(s, p, now, kept);
    } else {
      AcceptanceKeepsRuns(s, p, now, kept);
    }
  }

  lemma ReceiveKeeps(s: State, p: Post, now: real, kept: map<Id, real>)
    requires Inv(s) && s.clock <= now && Pruned(s.seen, now, kept) && p in s.log.posted
    ensures Inv(Receive(s, p, now, kept))
  {
    if p.id in kept {
      DuplicateKeeps(s, p, now, kept);
    } else {
      AcceptanceKeepsWindow(s, p, now, kept);
      AcceptanceKeepsPairs(s, p, now, kept);
    }
    ReceiveKeepsRuns(s, p, now, kept);
  }

  lemma TakeKeepsBridge(s: State, f: Frame, session: string)
    requires BridgeOk(s) && Enabled(s, Take(f, session))
    ensures BridgeOk(Apply(s, Take(f, session)))
  {
  }

  lemma TakeKeepsRuns(s: State, f: Frame, session: string)
    requires RunsOk(s) && Enabled(s, Take(f, session))
    ensures RunsOk(Apply(s, Take(f, session)))
  {
    assert s.log.posted <= Apply(s, Take(f, session)).log.posted;
  }

  lemma TakeKeeps(s: State, f: Frame, session: string)
    requires Inv(s) && Enabled(s, Take(f, session))
    ensures Inv(Apply(s, Take(f, session)))
  {
    var t := Apply(s, Take(f, session));
    assert t.accepted == s.accepted && t.seen == s.seen && t.clock == s.clock;
    TakeKeepsBridge(s, f, session);
    TakeKeepsRuns(s, f, session);
  }

  // The end of a forward: recorded, or forgotten so that a replay is tried again.
  lemma EndKeeps(s: State, t: State, f: Frame, ok: bool)
    requires Inv(t) && s.inFlight == t.inFlight == Some(f) && t.bridgeSeen == s.bridgeSeen
    requires ok && f.id != "" ==> f.id in t.log.ran || f.id in t.log.refused
    ensures Inv(t.(inFlight := None, bridgeSeen := if ok then t.bridgeSeen else Forget(s.bridgeSeen, f.id),
      log := if f.id == "" || !ok then t.log
        else t.log.(forwarded := t.log.forwarded + {f.id}, sinceReset := t.log.sinceReset + {f.id})))
  {
    var u := t.(inFlight := None, bridgeSeen := if ok then t.bridgeSeen else Forget(s.bridgeSeen, f.id),
      log := if f.id == "" || !ok then t.log
        else t.log.(forwarded := t.log.forwarded + {f.id}, sinceReset := t.log.sinceReset + {f.id}));
    SubsetSize(u.bridgeSeen, t.bridgeSeen);
    assert BridgeOk(u);
    assert WindowOk(u);
  }

  lemma ResolveKeeps(s: State, net: Net, now: real, kept: map<Id, real>)
    requires Inv(s) && Enabled(s, Resolve(net, now, kept))
    ensures Inv(Apply(s, Resolve(net, now, kept)))
  {
    var f := s.inFlight.value;
    var p := BuildPost(f);
    if net.Dropped? {
      ClockKeeps(s, now);
      EndKeeps(s, s.(clock := now), f, false);
    } else {
      ReceiveKeeps(s, p, now, kept);
      var t := Receive(s, p, now, kept);
      PrunedIsSmall(s.seen, now, kept);
      EndKeeps(s, t, f, net.Answered? && Success(p, kept));
    }
  }

  lemma StepKeeps(s: State, e: Event)
    requires Inv(s) && Enabled(s, e)
    ensures Inv(Apply(s, e))
  {
    match e
    case Take(f, session) => TakeKeeps(s, f, session);
    case Resolve(net, now, kept) => ResolveKeeps(s, net, now, kept);
    case Late(p, now, kept) => ReceiveKeeps(s, p, now, kept);
    case BridgeRestart =>
      assert BridgeOk(Apply(s, e));
    case ReceiverRestart =>
  }

  lemma {:induction false} RunKeeps(s: State, es: seq<Event>)
    requires Inv(s) && IsRun(s, es)
    ensures Inv(Final(s, es))
    decreases |es|
  {
    if es != [] {
      StepKeeps(s, es[0]);
      RunKeeps(Apply(s, es[0]), es[1..]);
    }
  }

  /* ---------------- what holds over whole runs ---------------- */

  lemma InitOk()
    ensures Inv(INIT)
  {
  }

  /** The bridge's set never exceeds 4096 ids and is exactly the ids forwarded since it was last
      emptied, plus the one in flight. */
  lemma BridgeSetIsExact(es: seq<Event>)
    requires IsRun(INIT, es)
    ensures var s := Final(INIT, es);
      && |s.bridgeSeen| <= 4096 && |s.seen| <= 8193
      && s.bridgeSeen == s.log.sinceReset
        + if s.inFlight.Some? && s.inFlight.value.id != "" then {s.inFlight.value.id} else {}
  {
    InitOk();
    RunKeeps(INIT, es);
  }

  /** At most one run per id inside the retention window, over both layers and all losses, retries,
      late arrivals and restarts: if an id is accepted twice less than the time-to-live apart, the receiver
      took in at least 8192 other ids in between, or was restarted. */
  lemma OneRunPerWindow(es: seq<Event>, i: nat, j: nat)
    requires IsRun(INIT, es)
    requires i < j < |Final(INIT, es).accepted|
    requires Final(INIT, es).accepted[i].id == Final(INIT, es).accepted[j].id
    requires Final(INIT, es).accepted[j].at - Final(INIT, es).accepted[i].at < 3600.0
    ensures var acc := Final(INIT, es).accepted;
      |Others(acc, i, j)| >= 8192 || acc[i].epoch < acc[j].epoch
  {
    InitOk();
    RunKeeps(INIT, es);
    var acc := Final(INIT, es).accepted;
    assert EpochsOrdered(acc) && PairsOk(acc);
    assert acc[i].epoch == acc[j].epoch ==> TooClose(acc[i], acc[j]);
  }

  // What another session sent and an agent can use: a message with text, or a file with a name or a path.
  predicate Foreign(f: Frame, session: string) {
    && f.from != session
    && ((f.kind.MessageFrame? && !Blank(f.message, IsGoSpace))
      || (f.kind.FileFrame? && (f.filename != "" || f.path != "")))
  }

  lemma ForwardsForeign(f: Frame, session: string)
    ensures ShouldForward(f, session) <==> Foreign(f, session)
  {
    var i, j := TrimCuts(f.message, IsGoSpace);
  }

  /** An idle bridge takes a frame exactly if it is new, not its own session's, and a message with text or a file
      with a name or a path. Any other frame changes nothing. */
  lemma TakesIffForeign(s: State, f: Frame, session: string)
    requires s.inFlight.None?
    ensures var t := Apply(s, Take(f, session));
      && (t.inFlight == Some(f) <==> f.id !in s.bridgeSeen && Foreign(f, session))
      && (t.inFlight != Some(f) ==> t == s)
  {
    ForwardsForeign(f, session);
  }

  // Every post ever made is that of a frame taken from another session.
  ghost predicate Posted(p: Post, es: seq<Event>) {
    exists i :: 0 <= i < |es| && es[i].Take? && Foreign(es[i].f, es[i].session) && p == BuildPost(es[i].f)
  }

  lemma PostedEarlier(p: Post, past: seq<Event>, e: Event)
    requires Posted(p, past)
    ensures Posted(p, past + [e])
  {
    var i :| 0 <= i < |past| && past[i].Take? && Foreign(past[i].f, past[i].session) && p == BuildPost(past[i].f);
    assert (past + [e])[i] == past[i];
  }

  lemma StepPosts(s: State, past: seq<Event>, e: Event, p: Post)
    requires Enabled(s, e) && (p in s.log.posted ==> Posted(p, past))
    ensures p in Apply(s, e).log.posted ==> Posted(p, past + [e])
  {
    if p in s.log.posted {
      PostedEarlier(p, past, e);
    } else if p in Apply(s, e).log.posted {
      ForwardsForeign(e.f, e.session);
      assert (past + [e])[|past|] == e;
    }
  }

  lemma {:induction false} PostsComeFrom(s: State, past: seq<Event>, es: seq<Event>, p: Post)
    requires IsRun(s, es) && (p in s.log.posted ==> Posted(p, past)) && p in Final(s, es).log.posted
    ensures Posted(p, past + es)
    decreases |es|
  {
    if es == [] {
      assert past + es == past;
    } else {
      var e := es[0];
      StepPosts(s, past, e, p);
      PostsComeFrom(Apply(s, e), past + [e], es[1..], p);
      Shifted(past, es);
    }
  }

  lemma Shifted(past: seq<Event>, es: seq<Event>)
    requires es != []
    ensures past + [es[0]] + es[1..] == past + es
  {
  }

  /** The bridge never posts its own session's echoes: over any run every post is that of a frame it took from
      another session. */
  lemma EchoesAreNeverPosted(es: seq<Event>, p: Post)
    requires IsRun(INIT, es) && p in Final(INIT, es).log.posted
    ensures Posted(p, es)
  {
    PostsComeFrom(INIT, [], es, p);
    assert [] + es == es;
  }

  function Restarts(es: seq<Event>): nat {
    if es == [] then 0 else (if es[0].ReceiverRestart? then 1 else 0) + Restarts(es[1..])
  }

  /** The epoch an acceptance is stamped with counts the receiver's restarts before it. */
  lemma {:induction false} EpochCountsRestarts(s: State, es: seq<Event>)
    requires IsRun(s, es)
    ensures Final(s, es).epoch == s.epoch + Restarts(es)
    decreases |es|
  {
    if es != [] {
      EpochCountsRestarts(Apply(s, es[0]), es[1..]);
    }
  }

  // The receiver after it ran a message, whose response was lost, and was restarted.
  function Restarted(f: Frame): State {
    INIT.(clock := 1.0, epoch := 1, accepted := [Accepted(f.id, 1.0, true, 0)],
          log := INIT.log.(posted := {BuildPost(f)}, ran := {f.id}))
  }

  lemma ReachesRestart(f: Frame, session: string)
    requires f.id != "" && ShouldForward(f, session) && !Empty(BuildPost(f))
    ensures var es := [Take(f, session), Resolve(ResponseLost, 1.0, map[]), ReceiverRestart];
      IsRun(INIT, es) && Final(INIT, es) == Restarted(f)
  {
    var e1, e2, e3 := Take(f, session), Resolve(ResponseLost, 1.0, map[]), ReceiverRestart;
    var s1 := Apply(INIT, e1);
    assert Fresh(map[], 1.0) == map[];
    var s2 := Apply(s1, e2);
    assert s2.bridgeSeen == {};
    assert Apply(s2, e3) == Restarted(f);
    assert IsRun(INIT, []) && Final(INIT, []) == INIT;
    RunSnoc(INIT, [], e1);
    RunSnoc(INIT, [e1], e2);
    RunSnoc(INIT, [e1] + [e2], e3);
    assert [e1] + [e2] + [e3] == [e1, e2, e3] && [] + [e1] == [e1];
  }

  /** The receiver's table does not survive a restart: a message whose response was lost runs again. */
  lemma RestartRunsTwice(f: Frame, session: string) returns (es: seq<Event>)
    requires f.id != "" && ShouldForward(f, session) && !Empty(BuildPost(f))
    ensures IsRun(INIT, es) && Restarts(es) == 1
    ensures Final(INIT, es).accepted == [Accepted(f.id, 1.0, true, 0), Accepted(f.id, 2.0, true, 1)]
  {
    var front := [Take(f, session), Resolve(ResponseLost, 1.0, map[]), ReceiverRestart];
    var e4, e5 := Take(f, session), Resolve(Answered, 2.0, map[]);
    ReachesRestart(f, session);
    RunSnoc(INIT, front, e4);
    assert Fresh(map[], 2.0) == map[];
    RunSnoc(INIT, front + [e4], e5);
    es := front + [e4] + [e5];
    EpochCountsRestarts(INIT, es);
  }

  lemma {:induction false} RunSnoc(s: State, es: seq<Event>, e: Event)
    requires IsRun(s, es) && Enabled(Final(s, es), e)
    ensures IsRun(s, es + [e]) && Final(s, es + [e]) == Apply(Final(s, es), e)
    decreases |es|
  {
    if es == [] {
      assert IsRun(Apply(s, e), []) && [e][1..] == [] && [] + [e] == [e];
    } else {
      assert (es + [e])[1..] == es[1..] + [e];
      RunSnoc(Apply(s, es[0]), es[1..], e);
    }
  }

  // A request id belongs to one message.
  ghost predicate SameText(s: State, content: Id -> string) {
    forall p :: p in s.log.posted ==> p.text == content(p.id)
  }

  /** A restart empties the memory of the side that restarts and nothing else: the bridge's set and its frame in
      flight, or the receiver's table. */
  lemma RestartsForget(s: State)
    ensures var t := Apply(s, BridgeRestart);
      t.bridgeSeen == {} && t.inFlight == None && t.seen == s.seen && t.accepted == s.accepted && t.clock == s.clock
    ensures var t := Apply(s, ReceiverRestart);
      t.seen == map[] && t.bridgeSeen == s.bridgeSeen && t.inFlight == s.inFlight && t.accepted == s.accepted
  {
  }

  /** What the bridge records as forwarded has started a run, if and only if the text does not strip to
      nothing at the receiver. */
  lemma ForwardedRanIffNotEmpty(es: seq<Event>, content: Id -> string, id: Id)
    requires IsRun(INIT, es) && SameText(Final(INIT, es), content)
    requires id in Final(INIT, es).log.forwarded
    ensures id in Final(INIT, es).log.ran <==> !Empty(Post(id, content(id)))
  {
    InitOk();
    RunKeeps(INIT, es);
    var s := Final(INIT, es);
    forall p | p in s.log.posted && p.id == id
      ensures p == Post(id, content(id))
    {
    }
  }

  /** After a forward that failed, or whose response was lost, the bridge will try the id again. */
  lemma FailureIsRetried(s: State, now: real, kept: map<Id, real>, net: Net, session: string)
    requires Inv(s) && Enabled(s, Resolve(net, now, kept)) && ShouldForward(s.inFlight.value, session)
    requires net.Answered? ==> !Success(BuildPost(s.inFlight.value), kept)
    ensures var f, t := s.inFlight.value, Apply(s, Resolve(net, now, kept));
      f.id !in t.bridgeSeen && Apply(t, Take(f, session)).inFlight == Some(f)
  {
  }

  // A message of one information separator is text to the bridge and empty to the plugin.
  lemma SeparatorIsForwardedEmpty(f: Frame, session: string)
    requires f == Frame(MessageFrame, f.from, "\U{1C}", f.id, "", "", 0, "") && f.id != "" && f.from != session
    ensures ShouldForward(f, session) && Empty(BuildPost(f))
  {
    assert f.message[0] == '\U{1C}' && !IsGoSpace('\U{1C}') && IsPySpace('\U{1C}');
    var i, j := TrimCuts(f.message, IsGoSpace);
    var k, l := TrimCuts(BuildPost(f).text, IsPySpace);
  }

  lemma RunOfFour(s: State, e1: Event, e2: Event, e3: Event, e4: Event)
    requires Enabled(s, e1) && Enabled(Apply(s, e1), e2) && Enabled(Apply(Apply(s, e1), e2), e3)
    requires Enabled(Apply(Apply(Apply(s, e1), e2), e3), e4)
    ensures IsRun(s, [e1, e2, e3, e4]) && Final(s, [e1, e2, e3, e4]) == Apply(Apply(Apply(Apply(s, e1), e2), e3), e4)
  {
    var s1 := Apply(s, e1);
    var s2 := Apply(s1, e2);
    var s3 := Apply(s2, e3);
    var s4 := Apply(s3, e4);
    assert IsRun(s4, []) && Final(s4, []) == s4;
    assert [e4][1..] == [] && IsRun(s3, [e4]) && Final(s3, [e4]) == s4;
    assert [e3, e4][1..] == [e4] && IsRun(s2, [e3, e4]) && Final(s2, [e3, e4]) == s4;
    assert [e2, e3, e4][1..] == [e3, e4] && IsRun(s1, [e2, e3, e4]) && Final(s1, [e2, e3, e4]) == s4;
    assert [e1, e2, e3, e4][1..] == [e2, e3, e4];
  }

  // The message of one information separator: forwarded, refused with 400, forgotten, and on replay
  // answered as a duplicate, so the bridge records an id that never ran.
  lemma SeparatorIsRecordedWithoutRun(id: Id, session: string, from: string)
    requires id != "" && from != session
    ensures var f := Frame(MessageFrame, from, "\U{1C}", id, "", "", 0, "");
      var es := [Take(f, session), Resolve(Answered, 1.0, map[]), Take(f, session), Resolve(Answered, 2.0, map[id := 1.0])];
      IsRun(INIT, es) && id in Final(INIT, es).log.forwarded && Final(INIT, es).log.ran == {}
  {
    var f := Frame(MessageFrame, from, "\U{1C}", id, "", "", 0, "");
    var p := BuildPost(f);
    SeparatorIsForwardedEmpty(f, session);
    var s1 := Apply(INIT, Take(f, session));
    assert Fresh(map[], 1.0) == map[];
    var s2 := Apply(s1, Resolve(Answered, 1.0, map[]));
    assert s2.seen == map[id := 1.0] && s2.bridgeSeen == {} && s2.log.ran == {};
    var s3 := Apply(s2, Take(f, session));
    assert Fresh(s3.seen, 2.0) == map[id := 1.0];
    RunOfFour(INIT, Take(f, session), Resolve(Answered, 1.0, map[]),
              Take(f, session), Resolve(Answered, 2.0, map[id := 1.0]));
  }

  /* ---------------- the two objects ---------------- */

  predicate NewestFirst(a: real, b: real) {
    a >= b
  }

  // The dict built from the first `i` items of the sorted list.
  function FirstOf(items: seq<Entry<real>>, i: nat): map<Id, real>
    requires i <= |items|
  {
    if i == 0 then map[] else FirstOf(items, i - 1)[items[i - 1].id := items[i - 1].row]
  }

  predicate Among(items: seq<Entry<real>>, i: nat, k: Id)
    requires i <= |items|
  {
    exists n :: 0 <= n < i && items[n].id == k
  }

  lemma {:induction false} FirstOfKeys(items: seq<Entry<real>>, i: nat, k: Id)
    requires i <= |items|
    ensures k in FirstOf(items, i) <==> Among(items, i, k)
  {
    if i > 0 {
      FirstOfKeys(items, i - 1, k);
      assert Among(items, i, k) <==> Among(items, i - 1, k) || items[i - 1].id == k;
    }
  }

  lemma {:induction false} FirstOfIs(items: seq<Entry<real>>, table: map<Id, real>, i: nat)
    requires Enumerates(items, table) && i <= |items|
    ensures |FirstOf(items, i)| == i
    ensures forall k :: k in FirstOf(items, i) ==> k in table && FirstOf(items, i)[k] == table[k]
  {
    if i > 0 {
      FirstOfIs(items, table, i - 1);
      FirstOfKeys(items, i - 1, items[i - 1].id);
      assert items[i - 1].id !in FirstOf(items, i - 1);
    }
  }

  lemma NewestIsPruned(seen: map<Id, real>, now: real, items: seq<Entry<real>>)
    requires Enumerates(items, Fresh(seen, now)) && Ordered(items, NewestFirst)
    requires IDEMPOTENCY_MAX < |items| && |Fresh(seen, now)| > IDEMPOTENCY_MAX
    ensures Pruned(seen, now, FirstOf(items, IDEMPOTENCY_MAX))
  {
    var live, kept := Fresh(seen, now), FirstOf(items, IDEMPOTENCY_MAX);
    FirstOfIs(items, live, IDEMPOTENCY_MAX);
    forall k, d | k in kept && d in live && d !in kept
      ensures live[d] <= kept[k]
    {
      FirstOfKeys(items, IDEMPOTENCY_MAX, k);
      FirstOfKeys(items, IDEMPOTENCY_MAX, d);
      var i :| 0 <= i < IDEMPOTENCY_MAX && items[i].id == k;
      var j :| 0 <= j < |items| && items[j].id == d;
      assert j >= IDEMPOTENCY_MAX;
      assert NewestFirst(items[i].row, items[j].row);
    }
  }

  // The cap: sort by time, newest first, and keep the leading 8192.
  method KeepNewest(live: map<Id, real>, ghost seen: map<Id, real>, ghost now: real) returns (kept: map<Id, real>)
    requires live == Fresh(seen, now)
    ensures Pruned(seen, now, kept)
  {
    kept := live;
    if |live| > IDEMPOTENCY_MAX {
      var items := OrderBy(live, NewestFirst);
      EnumerationSize(items, live);
      kept := map[];
      for i := 0 to IDEMPOTENCY_MAX
        invariant kept == FirstOf(items, i)
      {
        kept := kept[items[i].id := items[i].row];
      }
      NewestIsPruned(seen, now, items);
    }
  }

  class Receiver {
    var seen: map<Id, real>

    constructor ()
      ensures seen == map[]
    {
      seen := map[];
    }

    method IsDuplicate(id: Id, now: real) returns (duplicate: bool, ghost kept: map<Id, real>)
      modifies this
      ensures Pruned(old(seen), now, kept) && duplicate == (id in kept)
      ensures seen == if duplicate then kept else kept[id := now]
    {
      if seen != map[] {
        var live := map k | k in seen && seen[k] > now - TTL :: seen[k];
        assert live == Fresh(seen, now);
        seen := KeepNewest(live, seen, now);
      } else {
        assert Fresh(seen, now) == map[];
      }
      kept := seen;
      duplicate := id in seen;
      if !duplicate {
        seen := seen[id := now];
      }
    }

    method HandleInbound(p: Post, now: real) returns (success: bool, ran: bool, ghost kept: map<Id, real>)
      modifies this
      ensures Pruned(old(seen), now, kept) && success == Success(p, kept)
      ensures success <==> p.id in kept || Trim(p.text, IsPySpace) != ""
      ensures seen == if p.id in kept then kept else kept[p.id := now]
      ensures ran <==> p.id !in kept && Trim(p.text, IsPySpace) != ""
    {
      var duplicate;
      duplicate, kept := IsDuplicate(p.id, now);
      ran := !duplicate && Trim(p.text, IsPySpace) != "";
      success := duplicate || ran;
    }
  }

  class Bridge {
    var seen: set<Id>
    const session: string

    constructor (session: string)
      ensures seen == {} && this.session == session
    {
      seen := {};
      this.session := session;
    }

    method AlreadySeen(id: Id) returns (already: bool)
      modifies this
      ensures already == (id != "" && id in old(seen))
      ensures seen == if already || id == "" then old(seen)
        else (if |old(seen)| >= 4096 then {} else old(seen)) + {id}
    {
      if id == "" {
        return false;
      }
      if id in seen {
        return true;
      }
      if |seen| >= SEEN_CAP {
        seen := {};
      }
      seen := seen + {id};
      already := false;
    }

    // One frame from the socket: the POST blocks, and `net` is how it goes.
    method HandleFrame(f: Frame, r: Receiver, net: Net, now: real, ghost s: State) returns (ghost kept: map<Id, real>)
      requires s.bridgeSeen == seen && s.seen == r.seen && s.inFlight.None? && s.clock <= now && "" !in seen
      modifies this, r
      ensures var taken := Apply(s, Take(f, session));
        if taken.inFlight.None? then seen == s.bridgeSeen && r.seen == s.seen
        else (
          && Enabled(taken, Resolve(net, now, kept))
          && seen == Apply(taken, Resolve(net, now, kept)).bridgeSeen
          && r.seen == Apply(taken, Resolve(net, now, kept)).seen)
      ensures f.from == session || !Foreign(f, session) || f.id in old(seen) ==> seen == old(seen) && r.seen == old(r.seen)
      ensures Foreign(f, session) && f.id !in old(seen) && f.id != "" ==>
        (f.id in seen <==> net.Answered? && (BuildPost(f).id in kept || Trim(BuildPost(f).text, IsPySpace) != ""))
    {
      ForwardsForeign(f, session);
      kept := map[];
      if !ShouldForward(f, session) {
        return;
      }
      var already := AlreadySeen(f.id);
      if already {
        return;
      }
      var ok := false;
      if !net.Dropped? {
        var ran;
        ok, ran, kept := r.HandleInbound(BuildPost(f), now);
      }
      if !net.Answered? || !ok {
        if f.id != "" {
          seen := seen - {f.id};
        }
      }
    }
  }
}
