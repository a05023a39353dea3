/**
What `Reply` and `React` go back to (`setLastInbound`, `getLastInbound`, `internal/agent/agent.go`): the last
message shown, kept in three fields and, for the next start, in three rows of the meta table. The rows are
written one by one after the fields, and the process may die in between.
*/
module ReplyTarget {
  datatype Target = Target(from: string, group: string, id: string)

  // `row` is the next row the read loop writes, 0 when it writes none; `before` is what the rows held when it began.
  datatype State = State(memory: Target, meta: Target, row: nat, before: Target)

  datatype Event =
    | Begin(target: Target)   // the fields are set
    | WriteRow
    | Die                     // and start again

  const NOTHING := Target("", "", "")
  const INIT := State(NOTHING, NOTHING, 0, NOTHING)

  predicate Blank(t: Target) {
    t.from == "" && t.id == ""
  }

  // getLastInbound: the fields, or the rows if there is nothing in the fields.
  function Current(s: State): Target {
    if Blank(s.memory) then s.meta else s.memory
  }

  // The first `k` rows written: from, group, id.
  function Mixed(before: Target, target: Target, k: nat): Target {
    Target(if k > 0 then target.from else before.from, if k > 1 then target.group else before.group,
      if k > 2 then target.id else before.id)
  }

  predicate Enabled(s: State, e: Event) {
    match e
    case Begin(_) => s.row == 0
    case WriteRow => 0 < s.row <= 3
    case Die => true
  }

  function Apply(s: State, e: Event): State
    requires Enabled(s, e)
  {
    match e
    case Begin(target) => State(target, s.meta, 1, s.meta)
    case WriteRow =>
      var meta := if s.row == 1 then s.meta.(from := s.memory.from)
                  else if s.row == 2 then s.meta.(group := s.memory.group)
                  else s.meta.(id := s.memory.id);
      s.(meta := meta, row := if s.row == 3 then 0 else s.row + 1)
    case Die => State(NOTHING, s.meta, 0, s.meta)
  }

  predicate IsRun(s: State, es: seq<Event>)
    decreases |es|
  {
    es == [] || (Enabled(s, es[0]) && IsRun(Apply(s, es[0]), es[1..]))
  }

  function Final(s: State, es: seq<Event>): State
    requires IsRun(s, es)
    decreases |es|
  {
    if es == [] then s else Final(Apply(s, es[0]), es[1..])
  }

  predicate Inv(s: State) {
    && s.row <= 3
    && (s.row == 0 && !Blank(s.memory) ==> s.meta == s.memory)
    && (s.row > 0 ==> s.meta == Mixed(s.before, s.memory, s.row - 1))
  }

  lemma StepKeeps(s: State, e: Event)
    requires Inv(s) && Enabled(s, e)
    ensures Inv(Apply(s, e))
  {
  }

  lemma {:induction false} RunKeeps(s: State, es: seq<Event>)
    requires Inv(s) && IsRun(s, es)
    ensures Inv(Final(s, es))
    decreases |es|
  {
    if es != [] {
      StepKeeps(s, es[0]);
      RunKeeps(Apply(s, es[0]), es[1..]);
    }
  }

  // The two agree in the first `k` rows, or in the others.
  predicate WrittenAgree(a: Target, b: Target, k: nat) {
    (k > 0 ==> a.from == b.from) && (k > 1 ==> a.group == b.group) && (k > 2 ==> a.id == b.id)
  }

  predicate RestAgrees(a: Target, b: Target, k: nat) {
    (k < 1 ==> a.from == b.from) && (k < 2 ==> a.group == b.group) && (k < 3 ==> a.id == b.id)
  }

  // `t` is the new target or the one before, not a mixture.
  predicate Whole(t: Target, before: Target, target: Target) {
    t == before || t == target
  }

  /** After any run a restart keeps what `Reply` and `React` go back to, unless it cuts a write short. It then
      finds the new message or what the rows held before if and only if the two agree in all the rows written,
      or in all the others. */
  lemma RestartKeepsTargetIff(es: seq<Event>)
    requires IsRun(INIT, es)
    ensures var s := Final(INIT, es);
      var found := Current(Apply(s, Die));
      && (s.row == 0 ==> found == Current(s))
      && (s.row > 0 ==> (Whole(found, s.before, s.memory) <==>
        WrittenAgree(s.before, s.memory, s.row - 1) || RestAgrees(s.before, s.memory, s.row - 1)))
  {
    RunKeeps(INIT, es);
  }

  datatype Destination = ToGroup(group: string) | ToSender(from: string)

  // Where a reply goes.
  function Goes(t: Target): Destination {
    if t.group != "" then ToGroup(t.group) else ToSender(t.from)
  }

  /** A reply after such a restart goes where the new target or the one before would have it go, except if the
      death fell between the first two rows of a group message that followed another sender's direct one: then
      it goes to the group message's sender alone. */
  lemma ReplyGoesAstrayIff(es: seq<Event>)
    requires IsRun(INIT, es) && Final(INIT, es).row > 0
    ensures var s := Final(INIT, es);
      var goes := Goes(Current(Apply(s, Die)));
      goes != Goes(s.before) && goes != Goes(s.memory) <==>
        s.row == 2 && s.before.group == "" && s.memory.group != "" && s.before.from != s.memory.from
  {
    RunKeeps(INIT, es);
  }

  lemma RunSnoc(s: State, es: seq<Event>, e: Event)
    requires IsRun(s, es) && Enabled(Final(s, es), e)
    ensures IsRun(s, es + [e]) && Final(s, es + [e]) == Apply(Final(s, es), e)
    decreases |es|
  {
    if es == [] {
      assert [] + [e] == [e] && [e][1..] == [] && IsRun(Apply(s, e), []);
    } else {
      RunSnoc(Apply(s, es[0]), es[1..], e);
      assert (es + [e])[0] == es[0] && (es + [e])[1..] == es[1..] + [e];
    }
  }

  // One message shown, with all its rows.
  lemma ShownWhole(s: State, es: seq<Event>, target: Target) returns (longer: seq<Event>)
    requires IsRun(INIT, es) && Final(INIT, es) == s && s.row == 0
    ensures IsRun(INIT, longer) && Final(INIT, longer) == State(target, target, 0, s.meta)
  {
    RunSnoc(INIT, es, Begin(target));
    RunSnoc(INIT, es + [Begin(target)], WriteRow);
    RunSnoc(INIT, es + [Begin(target)] + [WriteRow], WriteRow);
    RunSnoc(INIT, es + [Begin(target)] + [WriteRow] + [WriteRow], WriteRow);
    longer := es + [Begin(target)] + [WriteRow] + [WriteRow] + [WriteRow];
  }

  /** A run to such a restart: the reply goes to `b` alone, who wrote to a group after `a` wrote directly. */
  lemma ReplyGoesAstray(a: string, b: string, group: string, id1: string, id2: string) returns (es: seq<Event>)
    requires a != b && group != ""
    ensures IsRun(INIT, es) && Current(Final(INIT, es)) == Target(b, "", id1)
  {
    es := ShownWhole(INIT, [], Target(a, "", id1));
    var second := Target(b, group, id2);
    RunSnoc(INIT, es, Begin(second));
    RunSnoc(INIT, es + [Begin(second)], WriteRow);
    RunSnoc(INIT, es + [Begin(second)] + [WriteRow], Die);
    es := es + [Begin(second)] + [WriteRow] + [Die];
  }

  class Agent {
    var lastInboundFrom: string
    var lastInboundGroup: string
    var lastInboundMessageID: string
    var meta: map<string, string>
    ghost var row: nat
    ghost var before: Target

    ghost function View(): State
      reads this
    {
      State(Target(lastInboundFrom, lastInboundGroup, lastInboundMessageID),
        Target(Meta("last_inbound_from"), Meta("last_inbound_group"), Meta("last_inbound_msgid")), row, before)
    }

    // MetaGet.
    function Meta(key: string): string
      reads this
    {
      if key in meta then meta[key] else ""
    }

    // A start of the agent on a table that is already there.
    constructor (table: map<string, string>)
      ensures lastInboundFrom == lastInboundGroup == lastInboundMessageID == "" && meta == table
      ensures row == 0 && before == View().meta
    {
      lastInboundFrom, lastInboundGroup, lastInboundMessageID := "", "", "";
      meta, row := table, 0;
      new;
      before := View().meta;
    }

    method SetFields(from: string, group: string, msgID: string)
      requires row == 0
      modifies this
      ensures View() == Apply(old(View()), Begin(Target(from, group, msgID)))
    {
      before := View().meta;
      lastInboundFrom, lastInboundGroup, lastInboundMessageID := from, group, msgID;
      row := 1;
    }

    // MetaSet of the next row.
    method WriteNext(key: string, value: string)
      requires 0 < row <= 3
      requires row == 1 ==> key == "last_inbound_from" && value == lastInboundFrom
      requires row == 2 ==> key == "last_inbound_group" && value == lastInboundGroup
      requires row == 3 ==> key == "last_inbound_msgid" && value == lastInboundMessageID
      modifies this`meta, this`row
      ensures View() == Apply(old(View()), WriteRow) && meta == old(meta)[key := value]
    {
      assert "last_inbound_from"[13] != "last_inbound_group"[13];
      assert "last_inbound_from"[13] != "last_inbound_msgid"[13];
      assert "last_inbound_group"[13] != "last_inbound_msgid"[13];
      meta := meta[key := value];
      row := if row == 3 then 0 else row + 1;
    }

    // setLastInbound, without a death.
    method SetLastInbound(from: string, group: string, msgID: string)
      requires row == 0
      modifies this
      ensures View() == State(Target(from, group, msgID), Target(from, group, msgID), 0, old(View()).meta)
    {
      SetFields(from, group, msgID);
      WriteNext("last_inbound_from", from);
      WriteNext("last_inbound_group", group);
      WriteNext("last_inbound_msgid", msgID);
    }

    method GetLastInbound() returns (t: Target)
      ensures t == Current(View())
      ensures if lastInboundFrom == "" && lastInboundMessageID == ""
        then t == Target(Meta("last_inbound_from"), Meta("last_inbound_group"), Meta("last_inbound_msgid"))
        else t == Target(lastInboundFrom, lastInboundGroup, lastInboundMessageID)
    {
      t := Target(lastInboundFrom, lastInboundGroup, lastInboundMessageID);
      if lastInboundFrom == "" && lastInboundMessageID == "" {
        t := Target(Meta("last_inbound_from"), Meta("last_inbound_group"), Meta("last_inbound_msgid"));
      }
    }
  }
}
