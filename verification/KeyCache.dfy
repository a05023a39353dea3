/**
The two levels of the public-key cache: the session's memory map (`cacheKey`, `CachedKey`, `PrimeKey`
in `internal/relay/session.go`) over the key_cache table (`internal/store/store.go`), read through
`cachedKey` (`internal/agent/agent.go`). "" stands for "no key" on both levels.
*/
module KeyCache {
  import opened Text

  type Keys = map<string, string>

  datatype State = State(memory: Keys, table: Keys)

  datatype Op =
    | KeyResponse(address: string, key: string)      // an empty key is not cached
    | ResolveResponse(address: string, key: string)  // an empty key is
    | Lookup(address: string)
    | Restart

  function Get(keys: Keys, a: string): string {
    if a in keys then keys[a] else ""
  }

  function Learn(s: State, a: string, key: string): State {
    State(s.memory[a := key], s.table[a := key])
  }

  // PrimeKey never stores an empty key.
  function Prime(s: State, a: string, key: string): State {
    if key == "" then s else s.(memory := s.memory[a := key])
  }

  function Step(s: State, op: Op): (State, string) {
    match op
    case KeyResponse(address, key) => (if key == "" then s else Learn(s, Normalize(address), key), "")
    case ResolveResponse(address, key) => (Learn(s, Normalize(address), key), "")
    case Lookup(address) =>
      var a := Normalize(address);
      if Get(s.memory, a) != "" then (s, Get(s.memory, a))
      else (Prime(s, a, Get(s.table, a)), Get(s.table, a))
    case Restart => (s.(memory := map[]), "")
  }

  function Answers(s: State, ops: seq<Op>): seq<string>
    decreases |ops|
  {
    if ops == [] then []
    else
      var (t, answer) := Step(s, ops[0]);
      [answer] + Answers(t, ops[1..])
  }

  // The reference: the table alone, which restarts do not touch.
  function TableStep(table: Keys, op: Op): Keys {
    match op
    case KeyResponse(address, key) => if key == "" then table else table[Normalize(address) := key]
    case ResolveResponse(address, key) => table[Normalize(address) := key]
    case _ => table
  }

  function TableAnswers(table: Keys, ops: seq<Op>): seq<string>
    decreases |ops|
  {
    if ops == [] then []
    else
      [if ops[0].Lookup? then Get(table, Normalize(ops[0].address)) else ""]
      + TableAnswers(TableStep(table, ops[0]), ops[1..])
  }

  predicate Agree(s: State) {
    forall a :: a in s.memory ==> a in s.table && s.memory[a] == s.table[a]
  }

  /** With each response and each lookup atomic, the two levels answer every lookup as the table alone
      would, whatever is learned and wherever a restart empties the memory. */
  lemma {:induction false} TwoLevelsAnswerAsTable(s: State, ops: seq<Op>)
    requires Agree(s)
    ensures Answers(s, ops) == TableAnswers(s.table, ops)
    decreases |ops|
  {
    if ops != [] {
      var t := Step(s, ops[0]).0;
      assert t.table == TableStep(s.table, ops[0]);
      TwoLevelsAnswerAsTable(t, ops[1..]);
    }
  }

  // The response is for this address and brings a key to cache.
  predicate Teaches(op: Op, a: string) {
    || (op.KeyResponse? && Normalize(op.address) == a && op.key != "")
    || (op.ResolveResponse? && Normalize(op.address) == a)
  }

  function After(s: State, ops: seq<Op>): State
    decreases |ops|
  {
    if ops == [] then s else After(Step(s, ops[0]).0, ops[1..])
  }

  lemma StepKeepsAgree(s: State, op: Op, a: string)
    requires Agree(s)
    ensures Agree(Step(s, op).0)
    ensures Get(Step(s, op).0.table, a) == if Teaches(op, a) then op.key else Get(s.table, a)
  {
  }

  /** A lookup finds the key of the last response for the address, in any spelling, through any restarts; and with no
      response the key the table had. */
  lemma LookupFindsLast(s: State, ops: seq<Op>, i: nat, address: string)
    requires Agree(s) && i <= |ops| && forall j :: i <= j < |ops| ==> !Teaches(ops[j], Normalize(address))
    requires i > 0 ==> Teaches(ops[i - 1], Normalize(address))
    ensures Step(After(s, ops), Lookup(address)).1 ==
      if i > 0 then ops[i - 1].key else Get(s.table, Normalize(address))
  {
    TableAfter(s, ops, i, Normalize(address));
  }

  lemma {:induction false} TableAfter(s: State, ops: seq<Op>, i: nat, a: string)
    requires Agree(s) && i <= |ops| && forall j :: i <= j < |ops| ==> !Teaches(ops[j], a)
    requires i > 0 ==> Teaches(ops[i - 1], a)
    ensures Agree(After(s, ops))
    ensures Get(After(s, ops).table, a) == if i > 0 then ops[i - 1].key else Get(s.table, a)
    decreases |ops|
  {
    if ops != [] {
      StepKeepsAgree(s, ops[0], a);
      assert forall j :: 0 <= j < |ops[1..]| ==> ops[1..][j] == ops[j + 1];
      TableAfter(Step(s, ops[0]).0, ops[1..], if i <= 1 then 0 else i - 1, a);
    }
  }

  /** A lookup that read the table earlier keeps the levels in agreement if and only if the key it
      carries is still the stored one. */
  lemma PrimeIffCurrent(s: State, a: string, key: string)
    requires Agree(s) && key != ""
    ensures Agree(Prime(s, a, key)) <==> Get(s.table, a) == key
  {
    assert Prime(s, a, key).memory[a] == key;
  }

  /** So agreement needs the atomicity: between a lookup's read of the table and its prime a response
      may store a new key, and the old one then shadows it until a restart or another response. */
  lemma StalePrimeShadows(address: string, oldKey: string, newKey: string)
    requires oldKey != "" && newKey != "" && oldKey != newKey
    ensures var a := Normalize(address);
      var read := State(map[], map[a := oldKey]);                  // the lookup missed and read oldKey
      var learned := Step(read, KeyResponse(address, newKey)).0;   // a response arrives
      var primed := Prime(learned, a, Get(read.table, a));       // the lookup goes on
      && Agree(read) && Agree(learned) && !Agree(primed)
      && Step(primed, Lookup(address)).1 == oldKey
      && Step(Step(primed, Restart).0, Lookup(address)).1 == newKey
      && Agree(Step(primed, KeyResponse(address, newKey)).0)
  {
    var a := Normalize(address);
    var learned := Step(State(map[], map[a := oldKey]), KeyResponse(address, newKey)).0;
    var primed := Prime(learned, a, oldKey);
    assert a in primed.memory && primed.memory[a] == oldKey && primed.table[a] == newKey;
  }

  // cacheKey before its callback: only the memory has the key.
  function HalfLearn(s: State, a: string, key: string): State {
    s.(memory := s.memory[a := key])
  }

  /** Nor may the process die between the two halves of learning a key: the levels agree then exactly if the
      table has the key already, and otherwise a lookup that answered with the new key answers with the table's
      after the restart. */
  lemma HalfLearned(s: State, address: string, key: string)
    requires Agree(s) && key != ""
    ensures var a := Normalize(address);
      var half := HalfLearn(s, a, key);
      && (Agree(half) <==> Get(s.table, a) == key)
      && Step(half, Lookup(address)).1 == key
      && Step(Step(half, Restart).0, Lookup(address)).1 == Get(s.table, a)
  {
    var a := Normalize(address);
    assert HalfLearn(s, a, key).memory[a] == key;
  }

  class Cache {
    var memory: Keys
    var table: Keys

    ghost function View(): State
      reads this
    {
      State(memory, table)
    }

    constructor (table: Keys)
      ensures View() == State(map[], table)
    {
      memory := map[];
      this.table := table;
    }

    // cacheKey: memory first, then the OnKeyLearned callback stores it.
    method CacheKey(a: string, key: string)
      modifies this
      ensures View() == Learn(old(View()), a, key)
      ensures memory == old(memory)[a := key] && table == old(table)[a := key]
    {
      memory := memory[a := key];
      table := table[a := key];
    }

    // cachedKey of the agent.
    method CachedKey(address: string) returns (key: string)
      modifies this
      ensures (View(), key) == Step(old(View()), Lookup(address))
      ensures var a := Normalize(address);
        && key == (if Get(old(memory), a) != "" then Get(old(memory), a) else Get(old(table), a))
        && table == old(table) && memory == if key == Get(old(memory), a) then old(memory) else old(memory)[a := key]
    {
      var a := Normalize(address);
      key := if a in memory then memory[a] else "";
      if key != "" {
        return;
      }
      key := if a in table then table[a] else "";
      if key != "" {
        memory := memory[a := key];
      }
    }
  }
}
