/**
Timed mutes with lazy expiry (`internal/store/store.go`, the `muted` check of
`internal/agent/agent.go`): an expired row stays until a query happens to look at it. The reference is
a table that loses expired rows the instant they expire.

`IsMuted` reads a row and, if it has expired, deletes it in a second statement; the agent's check makes up
to three such queries. Other goroutines may come between any two statements, so each is a call of its own.
*/
module Mutes {
  import opened Wrappers
  import opened Text

  datatype Kind = Agent | Group | All
  datatype Key = Key(target: string, kind: Kind)
  // `until` is None for an indefinite mute.
  datatype Row = Row(until: Option<int>, createdAt: int)

  type Rows = map<Key, Row>

  const ALL_TARGET := "*"

  predicate Expired(row: Row, now: int) {
    row.until.Some? && row.until.value <= now
  }

  function Purge(rows: Rows, now: int): Rows {
    map k | k in rows && !Expired(rows[k], now) :: rows[k]
  }

  datatype Op =
    | Add(target: string, kind: Kind, untilMs: int)
    | Remove(target: string, kind: Kind)
    | Read(k: Key)     // the select of IsMuted
    | Drop(k: Key)     // its delete
    | List

  datatype Call = Call(now: int, op: Op)

  datatype Answer = Done | Muted(yes: bool) | Listed(rows: Rows)

  function KeyOf(target: string, kind: Kind): Key {
    Key(Normalize(target), kind)
  }

  const GLOBAL := KeyOf(ALL_TARGET, All)

  // AddMute: an upsert; an end time that is not positive means no end.
  function Upsert(rows: Rows, now: int, target: string, kind: Kind, untilMs: int): Rows {
    rows[KeyOf(target, kind) := Row(if untilMs > 0 then Some(untilMs) else None, now)]
  }

  predicate InForce(rows: Rows, now: int, k: Key) {
    k in rows && !Expired(rows[k], now)
  }

  function LazyStep(rows: Rows, c: Call): (Rows, Answer) {
    match c.op
    case Add(target, kind, untilMs) => (Upsert(rows, c.now, target, kind, untilMs), Done)
    case Remove(target, kind) => (rows - {KeyOf(target, kind)}, Done)
    case Read(k) => (rows, Muted(InForce(rows, c.now, k)))
    case Drop(k) => (rows - {k}, Done)
    case List => (Purge(rows, c.now), Listed(Purge(rows, c.now)))
  }

  // The reference: at every instant the table holds exactly the mutes in force.
  function EagerStep(rows: Rows, c: Call): (Rows, Answer) {
    var live := Purge(rows, c.now);
    match c.op
    case Add(target, kind, untilMs) => (Upsert(live, c.now, target, kind, untilMs), Done)
    case Remove(target, kind) => (live - {KeyOf(target, kind)}, Done)
    case Read(k) => (live, Muted(k in live))
    case Drop(_) => (live, Done)
    case List => (live, Listed(live))
  }

  // The clock never goes backwards.
  predicate Timely(clock: int, calls: seq<Call>)
    decreases |calls|
  {
    calls == [] || (clock <= calls[0].now && Timely(calls[0].now, calls[1..]))
  }

  function LazyAnswers(rows: Rows, calls: seq<Call>): seq<Answer>
    decreases |calls|
  {
    if calls == [] then []
    else
      var (r, a) := LazyStep(rows, calls[0]);
      [a] + LazyAnswers(r, calls[1..])
  }

  function EagerAnswers(rows: Rows, calls: seq<Call>): seq<Answer>
    decreases |calls|
  {
    if calls == [] then []
    else
      var (r, a) := EagerStep(rows, calls[0]);
      [a] + EagerAnswers(r, calls[1..])
  }

  function RowsAfter(rows: Rows, calls: seq<Call>): Rows
    decreases |calls|
  {
    if calls == [] then rows else RowsAfter(LazyStep(rows, calls[0]).0, calls[1..])
  }

  function EagerRowsAfter(rows: Rows, calls: seq<Call>): Rows
    decreases |calls|
  {
    if calls == [] then rows else EagerRowsAfter(EagerStep(rows, calls[0]).0, calls[1..])
  }

  function ClockAfter(clock: int, calls: seq<Call>): int
    decreases |calls|
  {
    if calls == [] then clock else ClockAfter(calls[0].now, calls[1..])
  }

  // The two tables agree on what is in force from `clock` on.
  predicate Agree(lazy: Rows, eager: Rows, clock: int) {
    Purge(lazy, clock) == Purge(eager, clock)
  }

  lemma AgreeLater(lazy: Rows, eager: Rows, clock: int, now: int)
    requires Agree(lazy, eager, clock) && clock <= now
    ensures Agree(lazy, eager, now)
  {
    assert forall k :: k in Purge(lazy, now) ==> k in Purge(lazy, clock);
    assert forall k :: k in Purge(eager, now) ==> k in Purge(eager, clock);
    forall k | k in Purge(lazy, clock) && !Expired(Purge(lazy, clock)[k], now)
      ensures k in Purge(eager, now) && Purge(eager, now)[k] == Purge(lazy, now)[k]
    {
      assert k in Purge(eager, clock);
    }
  }

  lemma PurgeOfUpsert(lazy: Rows, live: Rows, now: int, k: Key, row: Row)
    requires Purge(lazy, now) == Purge(live, now)
    ensures Purge(lazy[k := row], now) == Purge(live[k := row], now)
  {
    forall x | x != k
      ensures x in Purge(lazy[k := row], now) <==> x in Purge(live[k := row], now)
      ensures x in Purge(lazy[k := row], now) ==> lazy[x] == live[x]
    {
      assert x in Purge(lazy[k := row], now) <==> x in Purge(lazy, now);
      assert x in Purge(live[k := row], now) <==> x in Purge(live, now);
      if x in Purge(lazy, now) {
        assert lazy[x] == Purge(lazy, now)[x] == Purge(live, now)[x] == live[x];
      }
    }
  }

  // A late delete that hits a mute in force.
  predicate Hits(rows: Rows, c: Call) {
    c.op.Drop? && InForce(rows, c.now, c.op.k)
  }

  /** One statement answers alike on both tables, and leaves them in agreement exactly if it is not the delete
      of a mute in force. */
  lemma StepAgreesIff(lazy: Rows, eager: Rows, c: Call)
    requires Agree(lazy, eager, c.now)
    ensures LazyStep(lazy, c).1 == EagerStep(eager, c).1
    ensures Agree(LazyStep(lazy, c).0, EagerStep(eager, c).0, c.now) <==> !Hits(lazy, c)
  {
    var live := Purge(eager, c.now);
    assert Purge(live, c.now) == live;
    match c.op
    case Add(target, kind, untilMs) =>
      PurgeOfUpsert(lazy, live, c.now, KeyOf(target, kind), Row(if untilMs > 0 then Some(untilMs) else None, c.now));
    case Remove(target, kind) =>
      assert Purge(lazy - {KeyOf(target, kind)}, c.now) == Purge(lazy, c.now) - {KeyOf(target, kind)};
      assert Purge(live - {KeyOf(target, kind)}, c.now) == live - {KeyOf(target, kind)};
    case Read(k) =>
      assert k in live <==> k in Purge(lazy, c.now);
    case Drop(k) =>
      assert Purge(lazy - {k}, c.now) == Purge(lazy, c.now) - {k};
      assert k in Purge(lazy, c.now) <==> InForce(lazy, c.now, k);
    case List =>
      assert Purge(Purge(lazy, c.now), c.now) == Purge(lazy, c.now);
  }

  // No late delete hits a mute in force.
  predicate Harmless(rows: Rows, calls: seq<Call>)
    decreases |calls|
  {
    calls == [] || (!Hits(rows, calls[0]) && Harmless(LazyStep(rows, calls[0]).0, calls[1..]))
  }

  lemma {:induction false} RunAgrees(lazy: Rows, eager: Rows, clock: int, calls: seq<Call>)
    requires Agree(lazy, eager, clock) && Timely(clock, calls) && Harmless(lazy, calls)
    ensures Agree(RowsAfter(lazy, calls), EagerRowsAfter(eager, calls), ClockAfter(clock, calls))
    decreases |calls|
  {
    if calls != [] {
      var c := calls[0];
      AgreeLater(lazy, eager, clock, c.now);
      StepAgreesIff(lazy, eager, c);
      RunAgrees(LazyStep(lazy, c).0, EagerStep(eager, c).0, c.now, calls[1..]);
    }
  }

  /** Lazy expiry cannot be observed: however the statements of mutes, unmutes, queries, agent checks and
      listings interleave, under a clock that never goes back, the lazy table answers as the one that drops
      expired rows at every instant, as long as no late delete hits a mute in force. */
  lemma {:induction false} LazyExpiryIsUnobservable(lazy: Rows, eager: Rows, clock: int, calls: seq<Call>)
    requires Agree(lazy, eager, clock) && Timely(clock, calls) && Harmless(lazy, calls)
    ensures LazyAnswers(lazy, calls) == EagerAnswers(eager, calls)
    decreases |calls|
  {
    if calls != [] {
      var c := calls[0];
      AgreeLater(lazy, eager, clock, c.now);
      StepAgreesIff(lazy, eager, c);
      LazyExpiryIsUnobservable(LazyStep(lazy, c).0, EagerStep(eager, c).0, c.now, calls[1..]);
    }
  }

  /* ---------------- when the late delete is harmless ---------------- */

  predicate FoundExpired(rows: Rows, c: Call) {
    c.op.Read? && c.op.k in rows && Expired(rows[c.op.k], c.now)
  }

  // The keys found expired and not muted again since.
  function Doomed(doomed: set<Key>, rows: Rows, c: Call): set<Key> {
    if FoundExpired(rows, c) then doomed + {c.op.k}
    else if c.op.Add? then doomed - {KeyOf(c.op.target, c.op.kind)}
    else doomed
  }

  // A query deletes a row only after it has found it expired; nobody mutes the same target in between.
  predicate Unhurried(doomed: set<Key>, rows: Rows, calls: seq<Call>)
    decreases |calls|
  {
    calls == [] || (
      && (calls[0].op.Drop? ==> calls[0].op.k in doomed)
      && Unhurried(Doomed(doomed, rows, calls[0]), LazyStep(rows, calls[0]).0, calls[1..]))
  }

  /** The late deletes are harmless if nobody mutes the same target between a query's two statements. */
  lemma {:induction false} UnhurriedIsHarmless(doomed: set<Key>, rows: Rows, clock: int, calls: seq<Call>)
    requires Timely(clock, calls) && Unhurried(doomed, rows, calls)
    requires forall k :: k in doomed ==> !InForce(rows, clock, k)
    ensures Harmless(rows, calls)
    decreases |calls|
  {
    if calls != [] {
      var c := calls[0];
      var after := LazyStep(rows, c).0;
      assert forall k :: k in doomed ==> !InForce(rows, c.now, k);
      assert forall k :: k in after && !(c.op.Add? && KeyOf(c.op.target, c.op.kind) == k) ==>
        k in rows && after[k] == rows[k];
      UnhurriedIsHarmless(Doomed(doomed, rows, c), after, c.now, calls[1..]);
    }
  }

  lemma RowsNext(rows: Rows, c: Call, rest: seq<Call>)
    ensures RowsAfter(rows, [c] + rest) == RowsAfter(LazyStep(rows, c).0, rest)
    ensures EagerRowsAfter(rows, [c] + rest) == EagerRowsAfter(EagerStep(rows, c).0, rest)
  {
    assert ([c] + rest)[1..] == rest;
  }

  /** They are not if somebody does: a mute ends at 5, a query at 9 finds it expired, the target is muted anew
      for good, and the query's delete takes that mute away. */
  lemma LateDeleteDropsNewMute(target: string, kind: Kind)
    ensures var k := KeyOf(target, kind);
      var calls := [Call(1, Add(target, kind, 5)), Call(9, Read(k)), Call(9, Add(target, kind, 0)), Call(9, Drop(k))];
      && FoundExpired(RowsAfter(map[], calls[..1]), calls[1])
      && !InForce(RowsAfter(map[], calls), 9, k) && InForce(EagerRowsAfter(map[], calls), 9, k)
  {
    var k := KeyOf(target, kind);
    var c1, c2, c3, c4 := Call(1, Add(target, kind, 5)), Call(9, Read(k)), Call(9, Add(target, kind, 0)), Call(9, Drop(k));
    var r1, e1 := LazyStep(map[], c1).0, EagerStep(map[], c1).0;
    var e2 := EagerStep(e1, c2).0;
    var r3, e3 := LazyStep(r1, c3).0, EagerStep(e2, c3).0;
    RowsNext(map[], c1, []);
    RowsNext(map[], c1, [c2] + ([c3] + [c4]));
    RowsNext(r1, c2, [c3] + [c4]);
    RowsNext(e1, c2, [c3] + [c4]);
    RowsNext(r1, c3, [c4]);
    RowsNext(e2, c3, [c4]);
    RowsNext(r3, c4, []);
    RowsNext(e3, c4, []);
    assert [c1] + ([c2] + ([c3] + [c4])) == [c1, c2, c3, c4] && [c1, c2, c3, c4][..1] == [c1] + [] && [c4] + [] == [c4];
  }

  /* ---------------- queries and checks, with others at work ---------------- */

  // One IsMuted: when it reads, what others do before its delete, and when it deletes.
  datatype Query = Query(now: int, gap: seq<Call>, late: int)

  // What happens from its read to its end.
  function Tail(rows: Rows, k: Key, q: Query): seq<Call> {
    if FoundExpired(rows, Call(q.now, Read(k))) then q.gap + [Call(q.late, Drop(k))] else []
  }

  // The agent's check: global, then group, then sender, stopping at the first mute found. `then1` and `then2`
  // are what others do between the queries.
  function CheckAgent(rows: Rows, from: string, group: string,
      q1: Query, then1: seq<Call>, q2: Query, then2: seq<Call>, q3: Query): (Rows, bool)
  {
    if InForce(rows, q1.now, GLOBAL) then (rows, true)
    else
      var r1 := RowsAfter(rows, Tail(rows, GLOBAL, q1) + then1);
      var k2, k3 := KeyOf(group, Group), KeyOf(from, Agent);
      if group == "" then (RowsAfter(r1, Tail(r1, k3, q3)), InForce(r1, q3.now, k3))
      else if InForce(r1, q2.now, k2) then (r1, true)
      else
        var r2 := RowsAfter(r1, Tail(r1, k2, q2) + then2);
        (RowsAfter(r2, Tail(r2, k3, q3)), InForce(r2, q3.now, k3))
  }

  // The same check on the reference, while the same statements run.
  function EagerCheck(rows: Rows, eager: Rows, from: string, group: string,
      q1: Query, then1: seq<Call>, q2: Query, then2: seq<Call>, q3: Query): bool
  {
    var k2, k3 := KeyOf(group, Group), KeyOf(from, Agent);
    var gap1 := Tail(rows, GLOBAL, q1) + then1;
    var r1, e1 := RowsAfter(rows, gap1), EagerRowsAfter(eager, gap1);
    || InForce(eager, q1.now, GLOBAL)
    || (group != "" && InForce(e1, q2.now, k2))
    || InForce(if group == "" then e1 else EagerRowsAfter(e1, Tail(r1, k2, q2) + then2), q3.now, k3)
  }

  // Between two reads at `clock` and `next` time goes on and no late delete hits.
  predicate GoesWell(rows: Rows, clock: int, calls: seq<Call>, next: int) {
    Timely(clock, calls) && ClockAfter(clock, calls) <= next && Harmless(rows, calls)
  }

  lemma GapAgrees(lazy: Rows, eager: Rows, clock: int, calls: seq<Call>, next: int)
    requires Agree(lazy, eager, clock) && GoesWell(lazy, clock, calls, next)
    ensures Agree(RowsAfter(lazy, calls), EagerRowsAfter(eager, calls), next)
  {
    RunAgrees(lazy, eager, clock, calls);
    AgreeLater(RowsAfter(lazy, calls), EagerRowsAfter(eager, calls), ClockAfter(clock, calls), next);
  }

  lemma AgreeInForce(lazy: Rows, eager: Rows, now: int, k: Key)
    requires Agree(lazy, eager, now)
    ensures InForce(lazy, now, k) == InForce(eager, now, k)
  {
    assert k in Purge(lazy, now) <==> InForce(lazy, now, k);
    assert k in Purge(eager, now) <==> InForce(eager, now, k);
  }

  predicate CheckGoesWell(rows: Rows, group: string, q1: Query, then1: seq<Call>, q2: Query, then2: seq<Call>, q3: Query) {
    var gap1 := Tail(rows, GLOBAL, q1) + then1;
    var r1 := RowsAfter(rows, gap1);
    if group == "" then GoesWell(rows, q1.now, gap1, q3.now)
    else
      && GoesWell(rows, q1.now, gap1, q2.now)
      && GoesWell(r1, q2.now, Tail(r1, KeyOf(group, Group), q2) + then2, q3.now)
  }

  /** The agent's three-part check answers as on the reference, although it stops at the first hit, time
      passes, and others mute, unmute and query between its statements. */
  lemma CheckAgrees(lazy: Rows, eager: Rows, from: string, group: string,
      q1: Query, then1: seq<Call>, q2: Query, then2: seq<Call>, q3: Query)
    requires Agree(lazy, eager, q1.now) && CheckGoesWell(lazy, group, q1, then1, q2, then2, q3)
    ensures CheckAgent(lazy, from, group, q1, then1, q2, then2, q3).1
      == EagerCheck(lazy, eager, from, group, q1, then1, q2, then2, q3)
  {
    var k2, k3 := KeyOf(group, Group), KeyOf(from, Agent);
    var gap1 := Tail(lazy, GLOBAL, q1) + then1;
    var r1, e1 := RowsAfter(lazy, gap1), EagerRowsAfter(eager, gap1);
    AgreeInForce(lazy, eager, q1.now, GLOBAL);
    if group == "" {
      GapAgrees(lazy, eager, q1.now, gap1, q3.now);
      AgreeInForce(r1, e1, q3.now, k3);
    } else {
      var gap2 := Tail(r1, k2, q2) + then2;
      GapAgrees(lazy, eager, q1.now, gap1, q2.now);
      AgreeInForce(r1, e1, q2.now, k2);
      GapAgrees(r1, e1, q2.now, gap2, q3.now);
      AgreeInForce(RowsAfter(r1, gap2), EagerRowsAfter(e1, gap2), q3.now, k3);
    }
  }

  /** What the check asks, when nobody comes in between: is everything muted, or the group, or the sender. */
  lemma CheckMeans(rows: Rows, from: string, group: string, t1: int, t2: int, t3: int)
    requires t1 <= t2 <= t3
    ensures CheckAgent(rows, from, group, Query(t1, [], t1), [], Query(t2, [], t2), [], Query(t3, [], t3)).1 <==>
      || InForce(rows, t1, Key("*", All))
      || (group != "" && InForce(rows, t2, Key(Normalize(group), Group)))
      || InForce(rows, t3, Key(Normalize(from), Agent))
  {
    assert Normalize("*") == "*" by {
      TrimOfTrimmed("*", IsGoSpace);
      LowerIdentifies("*", "*");
    }
    var q1, q2 := Query(t1, [], t1), Query(t2, [], t2);
    TailAlone(rows, GLOBAL, q1);
    var r1 := RowsAfter(rows, Tail(rows, GLOBAL, q1) + []);
    TailAlone(r1, KeyOf(group, Group), q2);
  }

  // A query alone takes away at most its own row, and only if that has expired.
  lemma TailAlone(rows: Rows, k: Key, q: Query)
    requires q.gap == []
    ensures var after := RowsAfter(rows, Tail(rows, k, q) + []);
      after == if FoundExpired(rows, Call(q.now, Read(k))) then rows - {k} else rows
  {
    if FoundExpired(rows, Call(q.now, Read(k))) {
      var c := Call(q.late, Drop(k));
      assert q.gap + [c] + [] == [c] + [];
      RowsNext(rows, c, []);
    } else {
      assert Tail(rows, k, q) + [] == [];
    }
  }

  predicate Resets(c: Call, k: Key) {
    (c.op.Add? || c.op.Remove?) && KeyOf(c.op.target, c.op.kind) == k
  }

  // The row of a mute until then, or none any more once that is over.
  predicate HoldsUntil(rows: Rows, clock: int, k: Key, until: Option<int>) {
    if k in rows then rows[k].until == until else until.Some? && until.value <= clock
  }

  lemma {:induction false} RunHoldsUntil(rows: Rows, clock: int, calls: seq<Call>, k: Key, until: Option<int>)
    requires HoldsUntil(rows, clock, k, until) && Timely(clock, calls) && Harmless(rows, calls)
    requires forall i :: 0 <= i < |calls| ==> !Resets(calls[i], k)
    ensures HoldsUntil(RowsAfter(rows, calls), ClockAfter(clock, calls), k, until)
    decreases |calls|
  {
    if calls != [] {
      var c := calls[0];
      assert !Resets(c, k) && !Hits(rows, c);
      assert HoldsUntil(LazyStep(rows, c).0, c.now, k, until);
      assert forall i :: 0 <= i < |calls[1..]| ==> calls[1..][i] == calls[i + 1];
      RunHoldsUntil(LazyStep(rows, c).0, c.now, calls[1..], k, until);
    }
  }

  /** What a mute is: whatever else is muted, unmuted, asked and listed after it, its target is muted up to the end
      time and not from then on, or for good without one. */
  lemma MuteLastsUntil(rows: Rows, now: int, target: string, kind: Kind, untilMs: int, calls: seq<Call>, t: int)
    requires var after := LazyStep(rows, Call(now, Add(target, kind, untilMs))).0;
      Timely(now, calls) && Harmless(after, calls) && ClockAfter(now, calls) <= t
    requires forall i :: 0 <= i < |calls| ==> !Resets(calls[i], Key(Normalize(target), kind))
    ensures var after := LazyStep(rows, Call(now, Add(target, kind, untilMs))).0;
      LazyStep(RowsAfter(after, calls), Call(t, Read(Key(Normalize(target), kind)))).1
      == Muted(untilMs <= 0 || t < untilMs)
  {
    var k := Key(Normalize(target), kind);
    var after := LazyStep(rows, Call(now, Add(target, kind, untilMs))).0;
    RunHoldsUntil(after, now, calls, k, if untilMs > 0 then Some(untilMs) else None);
  }

  /** The tables do differ: a global mute answers the agent check before the sender's expired row is
      looked at, so that row stays. */
  lemma ShortCircuitLeavesRows(from: string)
    ensures var q, rows := Query(9, [], 9), map[GLOBAL := Row(None, 0), KeyOf(from, Agent) := Row(Some(5), 0)];
      CheckAgent(rows, from, "", q, [], q, [], q).0 == rows != Purge(rows, 9)
  {
    var rows := map[GLOBAL := Row(None, 0), KeyOf(from, Agent) := Row(Some(5), 0)];
    assert KeyOf(from, Agent) in rows && KeyOf(from, Agent) !in Purge(rows, 9);
  }

  // What Unmute sees: whether there is a row, and since when (GetMuteCreatedAt, RemoveMute).
  function Since(rows: Rows, k: Key): Option<int> {
    if k in rows then Some(rows[k].createdAt) else None
  }

  /** `Unmute` does observe it: its answer is the reference's if and only if the row is not one that has
      expired without having been looked at. */
  lemma UnmuteSeesExpiredRows(lazy: Rows, now: int, k: Key)
    ensures Since(lazy, k) == Since(Purge(lazy, now), k) <==> !(k in lazy && Expired(lazy[k], now))
  {
  }

  /** A run to such a row: a mute that ends at 5, nobody asks, and at 9 `Unmute` still finds it. */
  lemma UnmuteFindsExpiredMute(target: string, kind: Kind)
    ensures var k := KeyOf(target, kind);
      var rows := RowsAfter(map[], [Call(1, Add(target, kind, 5))]);
      && k in rows && Expired(rows[k], 9)
      && Since(rows, k) == Some(1) && Since(Purge(rows, 9), k) == None
  {
    var c := Call(1, Add(target, kind, 5));
    assert [c] == [c] + [];
    RowsNext(map[], c, []);
  }

  lemma {:induction false} RowsConcat(rows: Rows, a: seq<Call>, b: seq<Call>)
    ensures RowsAfter(rows, a + b) == RowsAfter(RowsAfter(rows, a), b)
    decreases |a|
  {
    if a == [] {
      assert a + b == b;
    } else {
      assert (a + b)[1..] == a[1..] + b;
      RowsConcat(LazyStep(rows, a[0]).0, a[1..], b);
    }
  }

  class MuteTable {
    var rows: Rows

    constructor ()
      ensures rows == map[]
    {
      rows := map[];
    }

    method AddMute(target: string, kind: Kind, untilMs: int, now: int)
      modifies this
      ensures rows == LazyStep(old(rows), Call(now, Add(target, kind, untilMs))).0
      ensures rows == old(rows)[Key(Normalize(target), kind) := Row(if untilMs > 0 then Some(untilMs) else None, now)]
    {
      var until := None;
      if untilMs > 0 {
        until := Some(untilMs);
      }
      rows := rows[Key(Normalize(target), kind) := Row(until, now)];
    }

    method RemoveMute(target: string, kind: Kind) returns (removed: bool)
      modifies this
      ensures rows == LazyStep(old(rows), Call(0, Remove(target, kind))).0
      ensures rows == old(rows) - {Key(Normalize(target), kind)} && removed == (Key(Normalize(target), kind) in old(rows))
    {
      removed := Key(Normalize(target), kind) in rows;
      rows := rows - {Key(Normalize(target), kind)};
    }

    method DeleteRow(k: Key)
      modifies this
      ensures rows == old(rows) - {k}
    {
      rows := rows - {k};
    }

    method OneTurn(c: Call)
      modifies this
      ensures rows == LazyStep(old(rows), c).0
    {
      match c.op
      case Add(target, kind, untilMs) => AddMute(target, kind, untilMs, c.now);
      case Remove(target, kind) => var removed := RemoveMute(target, kind);
      case Read(_) =>
      case Drop(k) => DeleteRow(k);
      case List => var active := GetMutes(c.now);
    }

    // Other goroutines at work.
    method Others(calls: seq<Call>)
      modifies this
      ensures rows == RowsAfter(old(rows), calls)
    {
      assert calls[..0] == [];
      for i := 0 to |calls|
        invariant rows == RowsAfter(old(rows), calls[..i])
      {
        RowsConcat(old(rows), calls[..i], [calls[i]]);
        assert calls[..i + 1] == calls[..i] + [calls[i]] && [calls[i]] == [calls[i]] + [];
        RowsNext(rows, calls[i], []);
        OneTurn(calls[i]);
      }
      assert calls[..|calls|] == calls;
    }

    method IsMuted(target: string, kind: Kind, q: Query) returns (muted: bool)
      modifies this
      ensures muted == InForce(old(rows), q.now, KeyOf(target, kind))
      ensures rows == RowsAfter(old(rows), Tail(old(rows), KeyOf(target, kind), q))
    {
      var k := Key(Normalize(target), kind);
      if k !in rows {
        return false;
      }
      var until := rows[k].until;
      if until.Some? && until.value <= q.now {
        RowsConcat(rows, q.gap, [Call(q.late, Drop(k))]);
        Others(q.gap);
        RowsNext(rows, Call(q.late, Drop(k)), []);
        assert [Call(q.late, Drop(k))] == [Call(q.late, Drop(k))] + [];
        DeleteRow(k);
        return false;
      }
      muted := true;
    }

    // `muted` of the agent.
    method IsAgentMuted(from: string, group: string,
        q1: Query, then1: seq<Call>, q2: Query, then2: seq<Call>, q3: Query) returns (muted: bool)
      modifies this
      ensures (rows, muted) == CheckAgent(old(rows), from, group, q1, then1, q2, then2, q3)
    {
      RowsConcat(rows, Tail(rows, GLOBAL, q1), then1);
      muted := IsMuted(ALL_TARGET, All, q1);
      if muted {
        return;
      }
      Others(then1);
      if group != "" {
        RowsConcat(rows, Tail(rows, KeyOf(group, Group), q2), then2);
        muted := IsMuted(group, Group, q2);
        if muted {
          return;
        }
        Others(then2);
      }
      muted := IsMuted(from, Agent, q3);
    }

    method GetMutes(now: int) returns (active: Rows)
      modifies this
      ensures (rows, Listed(active)) == LazyStep(old(rows), Call(now, List))
      ensures forall k :: k in active <==> k in old(rows) && (old(rows)[k].until.Some? ==> now < old(rows)[k].until.value)
      ensures forall k :: k in active ==> active[k] == old(rows)[k]
    {
      rows := map k | k in rows && !(rows[k].until.Some? && rows[k].until.value <= now) :: rows[k];
      active := rows;
      assert rows == Purge(old(rows), now);
    }
  }
}
