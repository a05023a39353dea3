/**
The registry of local sessions (`internal/mesh/registry.go`): last registration wins, a release
undoes only its own registration, and routing delivers outside the lock, so the registry may change
between the lookup or snapshot and each delivery.
*/
module Mesh {
  import opened Wrappers
  import opened Text
  import Lexicographic

  // A registration; two registrations under one name are different objects.
  class Entry {
    const name: string
    const harness: string

    constructor (name: string, harness: string)
      ensures this.name == name && this.harness == harness
    {
      this.name := name;
      this.harness := harness;
    }
  }

  type Table = map<string, Entry>

  datatype Event =
    | Registered(entry: Entry)     // Register
    | Released(entry: Entry)       // the closure Register returned for this entry
    | Deregistered(name: string)   // DeregisterByName

  function Apply(t: Table, e: Event): Table {
    match e
    case Registered(entry) => if entry.name == "" then t else t[entry.name := entry]
    case Released(entry) => if entry.name in t && t[entry.name] == entry then t - {entry.name} else t
    case Deregistered(name) => t - {name}
  }

  function After(t: Table, log: seq<Event>): Table
    decreases |log|
  {
    if log == [] then t else Apply(After(t, log[..|log| - 1]), log[|log| - 1])
  }

  /* ---------------- the event log as the specification ---------------- */

  // Event `e` ends or replaces the registration of `entry`.
  predicate Supersedes(e: Event, entry: Entry) {
    match e
    case Registered(other) => other.name == entry.name
    case Released(other) => other == entry
    case Deregistered(name) => name == entry.name
  }

  // Event `i` of the log is a registration that nothing later released, replaced or deregistered.
  predicate Stands(log: seq<Event>, i: nat) {
    && i < |log| && log[i].Registered? && log[i].entry.name != ""
    && forall j :: i < j < |log| ==> !Supersedes(log[j], log[i].entry)
  }

  // Every Register call gets a new entry.
  predicate NewEntries(log: seq<Event>) {
    forall i, j :: 0 <= i < j < |log| && log[i].Registered? && log[j].Registered? ==> log[i].entry != log[j].entry
  }

  /** The table is the log: a name maps to its newest registration, unless that one was released or the
      name deregistered since. This holds whether or not entries are new. */
  lemma {:induction false} TableIsStanding(log: seq<Event>, name: string)
    ensures name in After(map[], log) ==>
      exists i: nat :: Stands(log, i) && log[i].entry == After(map[], log)[name] && log[i].entry.name == name
    ensures forall i: nat :: Stands(log, i) && log[i].entry.name == name ==>
      name in After(map[], log) && After(map[], log)[name] == log[i].entry
    decreases |log|
  {
    if log != [] {
      var last := |log| - 1;
      var front := log[..last];
      TableIsStanding(front, name);
      var t := After(map[], log);
      forall i: nat | Stands(log, i) && log[i].entry.name == name
        ensures name in t && t[name] == log[i].entry
      {
        if i < last {
          assert Stands(front, i) && !Supersedes(log[last], log[i].entry);
        }
      }
      if name in t {
        if log[last].Registered? && log[last].entry.name == name {
          assert Stands(log, last);
        } else {
          var i: nat :| Stands(front, i) && front[i].entry == After(map[], front)[name] && front[i].entry.name == name;
          assert !Supersedes(log[last], log[i].entry);
          assert Stands(log, i);
        }
      }
    }
  }

  /** A release takes effect exactly if a registration of its entry object stands, whatever the log. */
  lemma ReleaseIffStanding(log: seq<Event>, e: Entry)
    ensures Apply(After(map[], log), Released(e)) != After(map[], log) <==>
      exists k: nat :: Stands(log, k) && log[k].entry == e
  {
    var t := After(map[], log);
    TableIsStanding(log, e.name);
    if e.name in t && t[e.name] == e {
      var k: nat :| Stands(log, k) && log[k].entry == t[e.name] && log[k].entry.name == e.name;
      assert e.name !in Apply(t, Released(e));
    }
  }

  /** A stale release, of a registration that no longer stands, is a no-op unless the same entry object
      was registered again and that registration stands. */
  lemma StaleReleaseIffShared(log: seq<Event>, i: nat)
    requires i < |log| && log[i].Registered? && !Stands(log, i)
    ensures Apply(After(map[], log), Released(log[i].entry)) != After(map[], log) <==>
      exists k: nat :: i < k && Stands(log, k) && log[k].entry == log[i].entry
  {
    var e := log[i].entry;
    ReleaseIffStanding(log, e);
    forall k: nat | Stands(log, k) && log[k].entry == e
      ensures i < k
    {
      assert Supersedes(log[i], e);
    }
  }

  /** With a new entry for each registration, a release takes effect exactly if its own registration
      stands. */
  lemma OwnReleaseIffStanding(log: seq<Event>, i: nat)
    requires NewEntries(log) && i < |log| && log[i].Registered?
    ensures Apply(After(map[], log), Released(log[i].entry)) != After(map[], log) <==> Stands(log, i)
  {
    ReleaseIffStanding(log, log[i].entry);
    assert forall k: nat :: Stands(log, k) && log[k].entry == log[i].entry ==> k == i;
  }

  /** No registration comes back: one that no longer stands never stands again, so no old entry
      reappears under its name. */
  lemma OldNeverReappears(log: seq<Event>, more: seq<Event>, i: nat)
    requires NewEntries(log + more) && i < |log| && log[i].Registered? && !Stands(log, i)
    ensures !Stands(log + more, i)
    ensures var t := After(map[], log + more);
      log[i].entry.name in t ==> t[log[i].entry.name] != log[i].entry
  {
    var all, entry := log + more, log[i].entry;
    assert all[i] == log[i];
    if entry.name != "" {
      var j :| i < j < |log| && Supersedes(log[j], entry);
      assert all[j] == log[j];
    }
    TableIsStanding(all, entry.name);
    assert forall k: nat :: Stands(all, k) && all[k].entry == entry ==> k == i;
  }

  /** Registering one entry object twice defeats the identity check: the first closure evicts the
      second registration. */
  lemma SharedEntryEvicts(entry: Entry)
    requires entry.name != ""
    ensures After(map[], [Registered(entry), Registered(entry), Released(entry)]) == map[]
    ensures Stands([Registered(entry), Registered(entry)], 1)
  {
    var log := [Registered(entry), Registered(entry), Released(entry)];
    assert log[..2][..1] == [Registered(entry)] && log[..2][..1][..0] == [];
    assert After(map[], log[..2][..1]) == map[entry.name := entry];
  }

  /* ---------------- the registry object ---------------- */

  datatype Frame = Frame(id: string, from: string, text: string, broadcast: bool)
  datatype Delivery = Delivery(to: Entry, frame: Frame)

  ghost predicate Keyed(t: Table) {
    forall n :: n in t ==> t[n].name == n
  }

  // The targets of a broadcast: every entry of the snapshot but the excluded name, each once.
  ghost predicate Targets(targets: seq<Entry>, t: Table, exclude: string) {
    && (forall i, j :: 0 <= i < j < |targets| ==> targets[i] != targets[j])
    && (forall i :: 0 <= i < |targets| ==>
      targets[i].name != exclude && targets[i].name in t && t[targets[i].name] == targets[i])
    && (forall n :: n in t && n != exclude ==> t[n] in targets)
  }

  function Sends(targets: seq<Entry>, f: Frame): seq<Delivery> {
    seq(|targets|, i requires 0 <= i < |targets| => Delivery(targets[i], f))
  }

  class Registry {
    var entries: Table
    ghost var log: seq<Event>          // what was done to the table
    ghost var delivered: seq<Delivery> // what was handed to the deliverers

    ghost predicate Valid()
      reads this
    {
      entries == After(map[], log) && Keyed(entries)
    }

    constructor ()
      ensures Valid() && log == [] && delivered == []
    {
      entries, log, delivered := map[], [], [];
    }

    method Register(e: Entry)
      requires Valid()
      modifies this`entries, this`log
      ensures Valid() && log == old(log) + [Registered(e)]
    {
      log := log + [Registered(e)];
      assert log[..|log| - 1] == old(log);
      if e.name != "" {
        entries := entries[e.name := e];
      }
    }

    // The closure Register returned.
    method Release(e: Entry)
      requires Valid()
      modifies this`entries, this`log
      ensures Valid() && log == old(log) + [Released(e)]
    {
      log := log + [Released(e)];
      assert log[..|log| - 1] == old(log);
      if e.name in entries && entries[e.name] == e {
        entries := entries - {e.name};
      }
    }

    method DeregisterByName(name: string) returns (removed: bool)
      requires Valid()
      modifies this`entries, this`log
      ensures Valid() && log == old(log) + [Deregistered(name)]
      ensures removed == (name in old(entries))
    {
      log := log + [Deregistered(name)];
      assert log[..|log| - 1] == old(log);
      removed := name in entries;
      if removed {
        entries := entries - {name};
      }
    }

    method Churn(e: Event)
      requires Valid()
      modifies this`entries, this`log
      ensures Valid() && log == old(log) + [e]
    {
      match e
      case Registered(entry) => Register(entry);
      case Released(entry) => Release(entry);
      case Deregistered(name) => var removed := DeregisterByName(name);
    }

    method Deliver(e: Entry, f: Frame, accepts: Entry -> bool) returns (ok: bool)
      modifies this`delivered
      ensures delivered == old(delivered) + [Delivery(e, f)] && ok == accepts(e)
    {
      delivered := delivered + [Delivery(e, f)];
      ok := accepts(e);
    }

    // Whatever other callers do to the registry.
    method ChurnAll(es: seq<Event>)
      requires Valid()
      modifies this`entries, this`log
      ensures Valid() && log == old(log) + es
    {
      for i := 0 to |es|
        invariant Valid() && log == old(log) + es[..i]
      {
        Churn(es[i]);
        assert es[..i + 1] == es[..i] + [es[i]];
      }
      assert es[..|es|] == es;
    }

    // Route: look up under the lock; `churn` happens to the registry; then deliver.
    method Route(to: string, f: Frame, accepts: Entry -> bool, churn: seq<Event>)
      returns (to': Option<Entry>, ok: bool)
      requires Valid()
      modifies this
      ensures Valid() && log == old(log) + churn
      ensures var name := Trim(to, IsGoSpace);
        if name in old(entries) then
          to' == Some(old(entries)[name]) && to'.value.name == name && ok == accepts(to'.value)
          && delivered == old(delivered) + [Delivery(to'.value, f)]
        else to' == None && !ok && delivered == old(delivered)
    {
      var name := Trim(to, IsGoSpace);
      to', ok := None, false;
      if name in entries {
        to' := Some(entries[name]);
      }
      ChurnAll(churn);
      if to'.Some? {
        ok := Deliver(to'.value, f, accepts);
      }
    }

    // The loop over the entries that Broadcast runs under the lock.
    method Snapshot(exclude: string) returns (targets: seq<Entry>)
      requires Valid()
      ensures Targets(targets, entries, exclude)
    {
      targets := [];
      var todo := entries.Keys;
      while todo != {}
        invariant todo <= entries.Keys && Targets(targets, entries - todo, exclude)
        decreases todo
      {
        var n :| n in todo;
        ghost var before := targets;
        if entries[n].name != exclude {
          targets := targets + [entries[n]];
          assert targets[|before|] == entries[n];
        }
        assert forall e :: e in before ==> e in targets;
        forall k | k in entries - (todo - {n}) && k != exclude
          ensures entries[k] in targets
        {
          if k != n {
            assert k in entries - todo && (entries - todo)[k] in before;
          }
        }
        todo := todo - {n};
      }
      assert entries - todo == entries;
    }

    // Broadcast: snapshot under the lock, then deliver with `churn[i]` happening to the registry
    // right before delivery `i`.
    method Broadcast(f: Frame, exclude: string, accepts: Entry -> bool, churn: nat -> seq<Event>)
      returns (sent: seq<string>, ghost targets: seq<Entry>)
      requires Valid()
      modifies this
      ensures Valid() && Targets(targets, old(entries), exclude)
      ensures delivered == old(delivered) + Sends(targets, f)
      ensures Lexicographic.Sorted(sent) && forall i, j :: 0 <= i < j < |sent| ==> sent[i] != sent[j]
      ensures forall n :: n in sent <==> n in old(entries) && n != exclude && accepts(old(entries)[n])
    {
      var to := Snapshot(exclude);
      targets := to;
      var names: seq<string> := [];
      ghost var table := entries;
      for i := 0 to |to|
        invariant Valid() && delivered == old(delivered) + Sends(to[..i], f)
        invariant forall k, l :: 0 <= k < l < |names| ==> names[k] != names[l]
        invariant forall n :: n in names <==> exists k :: 0 <= k < i && to[k].name == n && accepts(to[k])
      {
        ChurnAll(churn(i));
        var ok := Deliver(to[i], f, accepts);
        assert to[i].name !in names by {
          assert forall k :: 0 <= k < i ==> table[to[k].name] == to[k] && to[k] != to[i];
        }
        if ok {
          names := names + [to[i].name];
        }
        assert Sends(to[..i + 1], f) == Sends(to[..i], f) + [Delivery(to[i], f)];
      }
      assert to[..|to|] == to;
      sent := Lexicographic.Sort(names);
      SameMembers(names, sent);
    }

    method Names() returns (names: seq<string>)
      requires Valid()
      ensures Lexicographic.Sorted(names) && multiset(names) == multiset(entries.Keys)
    {
      names := [];
      var todo := entries.Keys;
      while todo != {}
        invariant todo <= entries.Keys && multiset(names) == multiset(entries.Keys - todo)
        decreases todo
      {
        var n :| n in todo;
        names := names + [n];
        todo := todo - {n};
      }
      assert entries.Keys - todo == entries.Keys;
      names := Lexicographic.Sort(names);
    }
  }

  // Sorting keeps the members, and distinct members distinct.
  lemma SameMembers(a: seq<string>, b: seq<string>)
    requires multiset(a) == multiset(b)
    requires forall i, j :: 0 <= i < j < |a| ==> a[i] != a[j]
    ensures forall n :: n in a <==> n in b
    ensures forall i, j :: 0 <= i < j < |b| ==> b[i] != b[j]
  {
    assert forall n :: n in a <==> n in multiset(a);
    assert forall n :: n in b <==> n in multiset(b);
    forall i, j | 0 <= i < j < |b| && b[i] == b[j]
      ensures false
    {
      OccursTwice(b, i, j);
      OccursOnce(a, b[i]);
    }
  }

  lemma OccursTwice(b: seq<string>, i: nat, j: nat)
    requires i < j < |b| && b[i] == b[j]
    ensures multiset(b)[b[i]] >= 2
  {
    var front, back := b[..j], b[j..];
    assert b == front + back;
    assert front[i] in multiset(front) && back[0] in multiset(back);
  }

  lemma {:induction false} OccursOnce(a: seq<string>, n: string)
    requires forall i, j :: 0 <= i < j < |a| ==> a[i] != a[j]
    ensures multiset(a)[n] <= 1
    decreases |a|
  {
    if a != [] {
      assert a == [a[0]] + a[1..];
      OccursOnce(a[1..], n);
      if a[0] == n {
        assert n !in a[1..];
      }
    }
  }
}
