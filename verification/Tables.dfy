/**
SQL tables as maps from primary key to row, and what `SELECT … ORDER BY` returns from one:
every selected row once, in order. Ties keep no particular order.
*/
module Tables {
  datatype Entry<R> = Entry(id: string, row: R)

  // `INSERT OR IGNORE`: the first row stored under a key stays.
  function InsertOrIgnore<R>(table: map<string, R>, id: string, row: R): map<string, R> {
    if id in table then table else table[id := row]
  }

  ghost predicate TotalPreorder<R(!new)>(le: (R, R) -> bool) {
    && (forall a, b :: le(a, b) || le(b, a))
    && (forall a, b, c :: le(a, b) && le(b, c) ==> le(a, c))
  }

  // The items are the rows of the table, each exactly once.
  predicate Enumerates<R(==)>(items: seq<Entry<R>>, table: map<string, R>) {
    && (forall i, j :: 0 <= i < j < |items| ==> items[i].id != items[j].id)
    && (forall i :: 0 <= i < |items| ==> items[i].id in table && table[items[i].id] == items[i].row)
    && (forall id :: id in table ==> exists i :: 0 <= i < |items| && items[i].id == id)
  }

  predicate Ordered<R>(items: seq<Entry<R>>, le: (R, R) -> bool) {
    forall i, j :: 0 <= i < j < |items| ==> le(items[i].row, items[j].row)
  }

  // A least row of a nonempty table.
  method Least<R(!new)>(table: map<string, R>, le: (R, R) -> bool) returns (id: string)
    requires table != map[] && TotalPreorder(le)
    ensures id in table && forall k :: k in table ==> le(table[id], table[k])
  {
    id :| id in table;
    var todo := table.Keys - {id};
    while todo != {}
      invariant id in table && todo <= table.Keys
      invariant forall k :: k in table && k !in todo ==> le(table[id], table[k])
      decreases todo
    {
      var k :| k in todo;
      if !le(table[id], table[k]) {
        id := k;
      }
      todo := todo - {k};
    }
  }

  lemma EnumeratesMore<R>(items: seq<Entry<R>>, table: map<string, R>, e: Entry<R>)
    requires Enumerates(items, table) && e.id !in table
    ensures Enumerates(items + [e], table[e.id := e.row])
  {
    var more := items + [e];
    forall id | id in table || id == e.id
      ensures exists i :: 0 <= i < |more| && more[i].id == id
    {
      if id == e.id {
        assert more[|items|].id == id;
      } else {
        var i :| 0 <= i < |items| && items[i].id == id;
        assert more[i].id == id;
      }
    }
  }

  lemma {:induction false} SubsetSize<T>(a: set<T>, b: set<T>)
    requires a <= b
    ensures |a| <= |b|
  {
    if a != {} {
      var x :| x in a;
      SubsetSize(a - {x}, b - {x});
    }
  }

  lemma EnumeratesFewer<R>(items: seq<Entry<R>>, table: map<string, R>)
    requires Enumerates(items, table) && items != []
    ensures Enumerates(items[..|items| - 1], table - {items[|items| - 1].id})
  {
    var last := |items| - 1;
    var e, rest := items[last], items[..last];
    forall id | id in table && id != e.id
      ensures exists i :: 0 <= i < |rest| && rest[i].id == id
    {
      var i :| 0 <= i < |items| && items[i].id == id;
      assert rest[i].id == id;
    }
  }

  lemma {:induction false} EnumerationSize<R>(items: seq<Entry<R>>, table: map<string, R>)
    requires Enumerates(items, table)
    ensures |items| == |table|
    decreases |items|
  {
    if items == [] {
      assert table == map[];
    } else {
      var id := items[|items| - 1].id;
      EnumeratesFewer(items, table);
      EnumerationSize(items[..|items| - 1], table - {id});
      assert table.Keys == (table - {id}).Keys + {id};
    }
  }

  lemma OrderedMore<R>(items: seq<Entry<R>>, le: (R, R) -> bool, e: Entry<R>)
    requires Ordered(items, le) && forall i :: 0 <= i < |items| ==> le(items[i].row, e.row)
    ensures Ordered(items + [e], le)
  {
  }

  method OrderBy<R(!new, ==)>(table: map<string, R>, le: (R, R) -> bool) returns (items: seq<Entry<R>>)
    requires TotalPreorder(le)
    ensures Enumerates(items, table) && Ordered(items, le)
  {
    items := [];
    var rest := table;
    ghost var done: map<string, R> := map[];
    while rest != map[]
      invariant done.Keys + rest.Keys == table.Keys && done.Keys !! rest.Keys
      invariant forall k :: k in table ==> table[k] == if k in rest then rest[k] else done[k]
      invariant Enumerates(items, done) && Ordered(items, le)
      invariant forall i, k :: 0 <= i < |items| && k in rest ==> le(items[i].row, rest[k])
      decreases rest.Keys
    {
      var id := Least(rest, le);
      EnumeratesMore(items, done, Entry(id, rest[id]));
      OrderedMore(items, le, Entry(id, rest[id]));
      items := items + [Entry(id, rest[id])];
      done := done[id := rest[id]];
      rest := rest - {id};
    }
    assert done == table;
  }
}
