/**
Reading the history table (`GetHistory`, `CountInboundSince` and `CountAllInboundSince` in
`internal/store/store.go`). The queries compare the timestamp text; `ms` is the time a row's text was
made from, which the code does not keep.
*/
module History {
  import opened Lexicographic
  import opened Tables
  import opened Text
  import opened Timestamps
  import opened Wrappers

  type Id = string

  datatype Row = Row(peer: string, inbound: bool, content: string, ms: nat, ts: string)
  type Item = Entry<Row>

  predicate Stamped(row: Row) {
    row.ts == Iso(row.ms)
  }

  predicate Datable(rows: map<Id, Row>) {
    forall id :: id in rows ==> rows[id].ms < YEAR_10000
  }

  // ORDER BY ts DESC.
  predicate LatestFirst(a: Row, b: Row) {
    Le(b.ts, a.ts)
  }

  lemma LatestFirstIsPreorder()
    ensures TotalPreorder(LatestFirst)
  {
    forall a: Row, b: Row
      ensures LatestFirst(a, b) || LatestFirst(b, a)
    {
      Total(a.ts, b.ts);
    }
    forall a: Row, b: Row, c: Row | LatestFirst(a, b) && LatestFirst(b, c)
      ensures LatestFirst(a, c)
    {
      Transitive(c.ts, b.ts, a.ts);
    }
  }

  function With(messages: map<Id, Row>, peer: string): map<Id, Row> {
    map id | id in messages && messages[id].peer == peer :: messages[id]
  }

  predicate IsShown(shown: seq<Item>, id: Id) {
    exists i :: 0 <= i < |shown| && shown[i].id == id
  }

  // The `limit` last rows of a table in text order, last one last: nothing left out has a greater text.
  ghost predicate IsTextHistory(shown: seq<Item>, rows: map<Id, Row>, limit: nat) {
    && |shown| == (if |rows| < limit then |rows| else limit)
    && (forall i, j :: 0 <= i < j < |shown| ==> shown[i].id != shown[j].id && Le(shown[i].row.ts, shown[j].row.ts))
    && (forall i :: 0 <= i < |shown| ==> shown[i].id in rows && rows[shown[i].id] == shown[i].row)
    && (forall id :: id in rows && !IsShown(shown, id) ==>
      forall i :: 0 <= i < |shown| ==> Le(rows[id].ts, shown[i].row.ts))
  }

  // The `limit` latest rows, oldest first: nothing left out is later than anything shown.
  ghost predicate IsHistory(shown: seq<Item>, rows: map<Id, Row>, limit: nat) {
    && |shown| == (if |rows| < limit then |rows| else limit)
    && (forall i, j :: 0 <= i < j < |shown| ==> shown[i].id != shown[j].id && shown[i].row.ms <= shown[j].row.ms)
    && (forall i :: 0 <= i < |shown| ==> shown[i].id in rows && rows[shown[i].id] == shown[i].row)
    && (forall id :: id in rows && !IsShown(shown, id) ==>
      forall i :: 0 <= i < |shown| ==> rows[id].ms <= shown[i].row.ms)
  }

  // Text order is time order.
  lemma TextOrder(a: Row, b: Row)
    requires Stamped(a) && Stamped(b) && a.ms < YEAR_10000 && b.ms < YEAR_10000
    ensures LatestFirst(a, b) <==> b.ms <= a.ms
  {
    IsoOrder(b.ms, a.ms);
  }

  /** What the query answers in text order is the history in time order, if no row is of the year 10000. */
  lemma TextHistoryIsHistory(shown: seq<Item>, rows: map<Id, Row>, limit: nat)
    requires IsTextHistory(shown, rows, limit) && Datable(rows) && forall id :: id in rows ==> Stamped(rows[id])
    ensures IsHistory(shown, rows, limit)
  {
    forall i, j | 0 <= i < j < |shown|
      ensures shown[i].row.ms <= shown[j].row.ms
    {
      TextOrder(rows[shown[j].id], rows[shown[i].id]);
    }
    forall id, i | id in rows && !IsShown(shown, id) && 0 <= i < |shown|
      ensures rows[id].ms <= shown[i].row.ms
    {
      TextOrder(rows[shown[i].id], rows[id]);
    }
  }

  // With fewer rows than the limit none is left out.
  lemma AllShown(shown: seq<Item>, rows: map<Id, Row>, limit: nat)
    requires IsTextHistory(shown, rows, limit)
    ensures forall id :: id in rows && !IsShown(shown, id) ==> |shown| == limit
  {
    if |rows| < limit {
      var ids := set i | 0 <= i < |shown| :: shown[i].id;
      DistinctIdsCount(shown, ids);
      assert ids <= rows.Keys && |ids| == |rows.Keys|;
      SubsetIsAll(ids, rows.Keys);
    }
  }

  // The answer holds the peer's rows only, as they are, and leaves none out while there is room.
  lemma ShownOfPeer(shown: seq<Item>, messages: map<Id, Row>, peer: string, limit: nat)
    requires IsTextHistory(shown, With(messages, peer), limit)
    ensures forall i :: 0 <= i < |shown| ==> shown[i].id in messages && shown[i].row == messages[shown[i].id]
    ensures forall i :: 0 <= i < |shown| ==> shown[i].row.peer == peer
    ensures |shown| <= limit
    ensures forall id :: id in messages && messages[id].peer == peer && !IsShown(shown, id) ==>
      |shown| == limit && forall i :: 0 <= i < |shown| ==> Le(messages[id].ts, shown[i].row.ts)
  {
    AllShown(shown, With(messages, peer), limit);
    forall id | id in messages && messages[id].peer == peer && !IsShown(shown, id)
      ensures |shown| == limit && forall i :: 0 <= i < |shown| ==> Le(messages[id].ts, shown[i].row.ts)
    {
      assert id in With(messages, peer);
    }
  }

  lemma CountedIs(messages: map<Id, Row>, peer: Option<string>, sinceISO: string)
    ensures CountedSince(messages, NormalPeer(peer), sinceISO) == set id | id in messages && messages[id].inbound
      && (peer.Some? ==> messages[id].peer == Normalize(peer.value)) && Le(sinceISO, messages[id].ts)
  {
  }

  lemma {:induction false} DistinctIdsCount(shown: seq<Item>, ids: set<Id>)
    requires forall i, j :: 0 <= i < j < |shown| ==> shown[i].id != shown[j].id
    requires ids == set i | 0 <= i < |shown| :: shown[i].id
    ensures |ids| == |shown|
    decreases |shown|
  {
    if shown != [] {
      var last := |shown| - 1;
      var fewer := set i | 0 <= i < last :: shown[..last][i].id;
      DistinctIdsCount(shown[..last], fewer);
      assert ids == fewer + {shown[last].id};
    }
  }

  lemma SubsetIsAll(a: set<Id>, b: set<Id>)
    requires a <= b && |a| == |b|
    ensures a == b
  {
    SubsetSize(b - a, b - a);
    assert b == a + (b - a);
  }

  lemma FirstRowsAreShown(items: seq<Item>, n: nat, shown: seq<Item>)
    requires n <= |items| && |shown| == n
    requires forall k :: 0 <= k < n ==> shown[k] == items[n - 1 - k]
    ensures forall m :: 0 <= m < n ==> IsShown(shown, items[m].id)
  {
    forall m | 0 <= m < n
      ensures IsShown(shown, items[m].id)
    {
      var i := n - 1 - m;
      assert m == n - 1 - i && shown[i].id == items[m].id;
    }
  }

  lemma LeftOutIsEarlier(items: seq<Item>, rows: map<Id, Row>, n: nat, shown: seq<Item>, id: Id)
    requires Enumerates(items, rows) && Ordered(items, LatestFirst) && n <= |items| && |shown| == n
    requires forall k :: 0 <= k < n ==> shown[k] == items[n - 1 - k]
    requires id in rows && !IsShown(shown, id)
    ensures forall i :: 0 <= i < n ==> Le(rows[id].ts, shown[i].row.ts)
  {
    FirstRowsAreShown(items, n, shown);
    var k :| 0 <= k < |items| && items[k].id == id;
    assert k >= n && rows[id] == items[k].row;
    forall i | 0 <= i < n
      ensures Le(rows[id].ts, shown[i].row.ts)
    {
      assert shown[i] == items[n - 1 - i] && LatestFirst(items[n - 1 - i].row, items[k].row);
    }
  }

  // The query's first rows, turned around, are the history.
  lemma TopRowsAreHistory(items: seq<Item>, rows: map<Id, Row>, n: nat, limit: nat, shown: seq<Item>)
    requires Enumerates(items, rows) && Ordered(items, LatestFirst)
    requires n == (if |items| < limit then |items| else limit) && |shown| == n
    requires forall k :: 0 <= k < n ==> shown[k] == items[n - 1 - k]
    ensures IsTextHistory(shown, rows, limit)
  {
    EnumerationSize(items, rows);
    forall i, j | 0 <= i < j < n
      ensures shown[i].id != shown[j].id && Le(shown[i].row.ts, shown[j].row.ts)
    {
      assert LatestFirst(items[n - 1 - j].row, items[n - 1 - i].row);
    }
    forall id | id in rows && !IsShown(shown, id)
      ensures forall i :: 0 <= i < n ==> Le(rows[id].ts, shown[i].row.ts)
    {
      LeftOutIsEarlier(items, rows, n, shown, id);
    }
  }

  // The first `n` items, turned around in place.
  method Reversed(items: seq<Item>, n: nat) returns (shown: seq<Item>)
    requires n <= |items|
    ensures |shown| == n && forall k :: 0 <= k < n ==> shown[k] == items[n - 1 - k]
  {
    if n == 0 {
      return [];
    }
    var a := new Item[n](_ => items[0]);
    for i := 0 to n
      invariant forall k :: 0 <= k < i ==> a[k] == items[k]
    {
      a[i] := items[i];
    }
    Reverse(a);
    shown := a[..];
  }

  // The two-index loop at the end of GetHistory.
  method Reverse(a: array<Item>)
    modifies a
    ensures forall k :: 0 <= k < a.Length ==> a[k] == old(a[a.Length - 1 - k])
  {
    var i, j := 0, a.Length - 1;
    while i < j
      invariant 0 <= i <= j + 1 <= a.Length && i + j == a.Length - 1
      invariant forall k :: 0 <= k < i || j < k < a.Length ==> a[k] == old(a[a.Length - 1 - k])
      invariant forall k :: i <= k <= j ==> a[k] == old(a[k])
    {
      a[i], a[j] := a[j], a[i];
      i, j := i + 1, j - 1;
    }
  }

  // CountInboundSince counts one peer's rows, CountAllInboundSince everyone's.
  predicate Counted(row: Row, peer: Option<string>) {
    row.inbound && (peer.None? || row.peer == peer.value)
  }

  ghost function CountedSince(messages: map<Id, Row>, who: Option<string>, sinceISO: string): set<Id> {
    set id | id in messages && Counted(messages[id], who) && Le(sinceISO, messages[id].ts)
  }

  // Looking at one more row.
  lemma OneMoreCounted(messages: map<Id, Row>, who: Option<string>, sinceISO: string, todo: set<Id>, id: Id)
    requires id in todo && todo <= messages.Keys
    ensures var all := CountedSince(messages, who, sinceISO);
      && id !in all - todo
      && all - (todo - {id}) == (all - todo) + (if id in all then {id} else {})
  {
  }

  // SELECT COUNT(*) … AND ts >= ?.
  method CountRows(messages: map<Id, Row>, who: Option<string>, sinceISO: string) returns (n: nat)
    ensures n == |CountedSince(messages, who, sinceISO)|
  {
    n := 0;
    var todo := messages.Keys;
    ghost var all := CountedSince(messages, who, sinceISO);
    assert all - todo == {};
    while todo != {}
      invariant todo <= messages.Keys && n == |all - todo|
      decreases todo
    {
      var id :| id in todo;
      OneMoreCounted(messages, who, sinceISO, todo, id);
      if Counted(messages[id], who) && Le(sinceISO, messages[id].ts) {
        n := n + 1;
      }
      todo := todo - {id};
    }
    assert all - todo == all;
  }

  class Store {
    var messages: map<Id, Row>

    ghost predicate Valid()
      reads this
    {
      forall id :: id in messages ==> Stamped(messages[id])
    }

    constructor ()
      ensures Valid() && messages == map[]
    {
      messages := map[];
    }

    // SaveMessage with the text of tsISO.
    method SaveMessage(id: Id, peer: string, inbound: bool, content: string, ms: int, now: nat)
      requires Valid()
      modifies this
      ensures Valid() && messages == InsertOrIgnore(old(messages), id,
        Row(Normalize(peer), inbound, content, if ms <= 0 then now else ms, TsIso(ms, now)))
    {
      if id !in messages {
        messages := messages[id := Row(Normalize(peer), inbound, content, if ms <= 0 then now else ms, TsIso(ms, now))];
      }
    }

    // The latest rows in text order; in time order, as long as no row with the peer is of the year 10000.
    method GetHistory(peer: string, limit: int) returns (shown: seq<Item>)
      requires Valid()
      ensures var rows, lim := With(messages, Normalize(peer)), if limit <= 0 then 20 else limit;
        IsTextHistory(shown, rows, lim) && (Datable(rows) ==> IsHistory(shown, rows, lim))
      ensures forall i :: 0 <= i < |shown| ==> shown[i].id in messages && shown[i].row == messages[shown[i].id]
      ensures forall i :: 0 <= i < |shown| ==> shown[i].row.peer == Normalize(peer)
      ensures |shown| <= (if limit <= 0 then 20 else limit)
      ensures forall id :: id in messages && messages[id].peer == Normalize(peer) && !IsShown(shown, id) ==>
        && |shown| == (if limit <= 0 then 20 else limit)
        && forall i :: 0 <= i < |shown| ==> Le(messages[id].ts, shown[i].row.ts)
    {
      var lim := if limit <= 0 then 20 else limit;
      var rows := With(messages, Normalize(peer));
      LatestFirstIsPreorder();
      var items := OrderBy(rows, LatestFirst);
      var n := if |items| < lim then |items| else lim;
      shown := Reversed(items, n);
      TopRowsAreHistory(items, rows, n, lim, shown);
      if Datable(rows) {
        TextHistoryIsHistory(shown, rows, lim);
      }
      ShownOfPeer(shown, messages, Normalize(peer), lim);
    }

    // The number of inbound rows at or after a time, although the query compares text.
    method CountInboundSince(peer: Option<string>, sinceMs: nat) returns (n: nat)
      requires Valid()
      ensures n == |CountedSince(messages, NormalPeer(peer), Iso(sinceMs))|
      ensures n == |set id | id in messages && messages[id].inbound
        && (peer.Some? ==> messages[id].peer == Normalize(peer.value)) && Le(Iso(sinceMs), messages[id].ts)|
      ensures Datable(messages) && sinceMs < YEAR_10000 ==> n == |SinceTime(messages, NormalPeer(peer), sinceMs)|
    {
      n := CountRows(messages, NormalPeer(peer), Iso(sinceMs));
      CountedIs(messages, peer, Iso(sinceMs));
      if Datable(messages) && sinceMs < YEAR_10000 {
        CountIsByTime(messages, NormalPeer(peer), sinceMs);
      }
    }
  }

  ghost function SinceTime(messages: map<Id, Row>, who: Option<string>, sinceMs: nat): set<Id> {
    set id | id in messages && Counted(messages[id], who) && sinceMs <= messages[id].ms
  }

  lemma CountIsByTime(messages: map<Id, Row>, who: Option<string>, sinceMs: nat)
    requires Datable(messages) && sinceMs < YEAR_10000 && forall id :: id in messages ==> Stamped(messages[id])
    ensures CountedSince(messages, who, Iso(sinceMs)) == SinceTime(messages, who, sinceMs)
  {
    forall id | id in messages
      ensures Le(Iso(sinceMs), messages[id].ts) <==> sinceMs <= messages[id].ms
    {
      IsoOrder(sinceMs, messages[id].ms);
    }
  }

  function NormalPeer(peer: Option<string>): Option<string> {
    if peer.Some? then Some(Normalize(peer.value)) else None
  }
}
