/**
The command line of the `attn` client (`cmd/attn/main.go`): how `parseInvocation` splits a command line
into flags and words and turns them into the arguments of an operation.
*/
module Cli {
  import opened Wrappers

  datatype Spec = Spec(
    op: string, pos: seq<string>, optPos: bool, rest: Option<string>,
    flags: map<string, string>, bools: map<string, string>)

  // `Raw` stands for a value that only JSON can give.
  datatype Value = Text(text: string) | List(items: seq<string>) | Yes | Raw(json: string)

  // What decoding the text of `--json-args` gives. After `null` the argument map is nil.
  datatype Decoded = Malformed | Null | Object(fields: map<string, Value>)

  datatype Invocation = Invocation(addr: string, jsonOut: bool, statusShow: bool, op: string, args: map<string, Value>)

  datatype ParseError =
    | UnknownCommand
    | UnknownFlag(name: string)
    | NeedArgs(need: nat, got: nat)
    | MessageRequired
    | NameRequired
    | BadJson
    | AssignsToNil   // the run-time panic of writing to a nil map

  datatype Result = Ok(value: Invocation) | Err(error: ParseError)

  // The argument keys of a command are all different, so no argument overwrites another.
  predicate DistinctKeys(sp: Spec) {
    && (forall i, j :: 0 <= i < j < |sp.pos| ==> sp.pos[i] != sp.pos[j])
    && (sp.rest.Some? ==> sp.rest.value !in sp.pos)
    && (forall f :: f in sp.flags ==> sp.flags[f] !in sp.pos && sp.rest != Some(sp.flags[f]))
    && (forall b :: b in sp.bools ==> sp.bools[b] !in sp.pos && sp.rest != Some(sp.bools[b]))
    && (forall f, b :: f in sp.flags && b in sp.bools ==> sp.flags[f] != sp.bools[b])
    && (forall f, g :: f in sp.flags && g in sp.flags && sp.flags[f] == sp.flags[g] ==> f == g)
    && (forall f, g :: f in sp.bools && g in sp.bools && sp.bools[f] == sp.bools[g] ==> f == g)
  }

  // The commands with a trailing argument have no flags.
  predicate TailAlone(sp: Spec) {
    sp.rest.Some? ==>
      sp.flags == map[] && sp.bools == map[] && !sp.optPos && (sp.rest.value == "message" || sp.rest.value == "members")
  }

  function Plain(op: string, pos: seq<string>): (sp: Spec)
    requires |pos| <= 1 || (|pos| == 2 && pos[0] != pos[1])
    ensures DistinctKeys(sp) && sp.rest.None?
  {
    Spec(op, pos, false, None, map[], map[])
  }

  function WithRest(op: string, pos: seq<string>, key: string): (sp: Spec)
    requires |pos| <= 1 && key !in pos && (key == "message" || key == "members")
    ensures DistinctKeys(sp) && TailAlone(sp)
  {
    Spec(op, pos, false, Some(key), map[], map[])
  }

  function WithFlag(op: string, pos: seq<string>, flag: string, key: string): (sp: Spec)
    requires (|pos| <= 1 || (|pos| == 2 && pos[0] != pos[1])) && key !in pos
    ensures DistinctKeys(sp) && sp.rest.None?
  {
    Spec(op, pos, false, None, map[flag := key], map[])
  }

  datatype Command =
    | Send | Reply | SendFile | History | AddContact | RemoveContact | Block | Contacts | CreateGroup
    | SendGroup | AddToGroup | LeaveGroup | AcceptGroup | DeclineGroup | KickFromGroup | TransferGroupAdmin
    | Groups | Peers | React | RegisterName | Lookup | Names | TransferName | SetPrimaryName | Mute | Unmute
    | Mutes | StatusOf

  function CommandOf(name: string): Option<Command> {
    match name
    case "send" => Some(Send)
    case "reply" => Some(Reply)
    case "send-file" => Some(SendFile)
    case "history" => Some(History)
    case "add-contact" => Some(AddContact)
    case "remove-contact" => Some(RemoveContact)
    case "block" => Some(Block)
    case "contacts" => Some(Contacts)
    case "create-group" => Some(CreateGroup)
    case "send-group" => Some(SendGroup)
    case "add-to-group" => Some(AddToGroup)
    case "leave-group" => Some(LeaveGroup)
    case "accept-group" => Some(AcceptGroup)
    case "decline-group" => Some(DeclineGroup)
    case "kick-from-group" => Some(KickFromGroup)
    case "transfer-group-admin" => Some(TransferGroupAdmin)
    case "groups" => Some(Groups)
    case "peers" => Some(Peers)
    case "react" => Some(React)
    case "register-name" => Some(RegisterName)
    case "lookup" => Some(Lookup)
    case "names" => Some(Command.Names)
    case "transfer-name" => Some(TransferName)
    case "set-primary-name" => Some(SetPrimaryName)
    case "mute" => Some(Mute)
    case "unmute" => Some(Unmute)
    case "mutes" => Some(Mutes)
    case "status-of" => Some(StatusOf)
    case _ => None
  }

  function SpecOf(c: Command): (sp: Spec)
    ensures DistinctKeys(sp) && TailAlone(sp)
  {
    match c
    case Send => WithRest("send", ["to"], "message")
    case Reply => WithRest("reply", [], "message")
    case SendFile => Plain("send_file", ["to", "path"])
    case History => WithFlag("history", ["with"], "limit", "limit")
    case AddContact => WithFlag("add_contact", ["address"], "name", "name")
    case RemoveContact => Plain("remove_contact", ["address"])
    case Block => Plain("block", ["address"]).(bools := map["unblock" := "unblock"])
    case Contacts => Plain("contacts", [])
    case CreateGroup => WithRest("create_group", ["name"], "members")
    case SendGroup => WithRest("send_group", ["group_id"], "message")
    case AddToGroup => WithFlag("add_to_group", ["group_id", "address"], "name", "name")
    case LeaveGroup => Plain("leave_group", ["group_id"])
    case AcceptGroup => Plain("accept_group", ["group_id"])
    case DeclineGroup => Plain("decline_group", ["group_id"])
    case KickFromGroup => Plain("kick_from_group", ["group_id", "address"])
    case TransferGroupAdmin => Plain("transfer_group_admin", ["group_id", "address"])
    case Groups => Plain("groups", [])
    case Peers => Plain("peers", [])
    case React => WithFlag("react", ["emoji"], "message-id", "message_id")
    case RegisterName => Plain("register_name", ["label"])
    case Lookup => Plain("lookup", ["query"])
    case Names => Plain("names", ["address"]).(optPos := true)
    case TransferName => Plain("transfer_name", ["label", "to"])
    case SetPrimaryName => Plain("set_primary_name", ["label"])
    case Mute => WithFlag("mute", ["target"], "duration", "duration")
    case Unmute => Plain("unmute", ["target"])
    case Mutes => Plain("mutes", [])
    case StatusOf => Plain("status_of", ["target"])
  }

  // The command table.
  function Specs(command: string): (sp: Option<Spec>)
    ensures sp.Some? ==> DistinctKeys(sp.value) && TailAlone(sp.value)
  {
    var c := CommandOf(command);
    if c.Some? then Some(SpecOf(c.value)) else None
  }

  function NameOf(c: Command): string {
    match c
    case Send => "send"
    case Reply => "reply"
    case SendFile => "send-file"
    case History => "history"
    case AddContact => "add-contact"
    case RemoveContact => "remove-contact"
    case Block => "block"
    case Contacts => "contacts"
    case CreateGroup => "create-group"
    case SendGroup => "send-group"
    case AddToGroup => "add-to-group"
    case LeaveGroup => "leave-group"
    case AcceptGroup => "accept-group"
    case DeclineGroup => "decline-group"
    case KickFromGroup => "kick-from-group"
    case TransferGroupAdmin => "transfer-group-admin"
    case Groups => "groups"
    case Peers => "peers"
    case React => "react"
    case RegisterName => "register-name"
    case Lookup => "lookup"
    case Names => "names"
    case TransferName => "transfer-name"
    case SetPrimaryName => "set-primary-name"
    case Mute => "mute"
    case Unmute => "unmute"
    case Mutes => "mutes"
    case StatusOf => "status-of"
  }

  // A command is read by its own name.
  lemma CommandByName(name: string)
    requires CommandOf(name).Some?
    ensures NameOf(CommandOf(name).value) == name
  {
  }

  // And every command can be.
  lemma EveryNameIsRead(c: Command)
    ensures CommandOf(NameOf(c)) == Some(c)
  {
  }

  // Dispatch, in `internal/agent/ops.go`: the operation each command is for, and the arguments that operation reads,
  // in the order it passes them on.
  function Dispatch(c: Command): (string, seq<string>) {
    match c
    case Send => ("send", ["to", "message"])
    case Reply => ("reply", ["message"])
    case SendFile => ("send_file", ["to", "path"])
    case History => ("history", ["with", "limit"])
    case AddContact => ("add_contact", ["address", "name"])
    case RemoveContact => ("remove_contact", ["address"])
    case Block => ("block", ["address", "unblock"])
    case Contacts => ("contacts", [])
    case CreateGroup => ("create_group", ["name", "members"])
    case SendGroup => ("send_group", ["group_id", "message"])
    case AddToGroup => ("add_to_group", ["group_id", "address", "name"])
    case LeaveGroup => ("leave_group", ["group_id"])
    case AcceptGroup => ("accept_group", ["group_id"])
    case DeclineGroup => ("decline_group", ["group_id"])
    case KickFromGroup => ("kick_from_group", ["group_id", "address"])
    case TransferGroupAdmin => ("transfer_group_admin", ["group_id", "address"])
    case Groups => ("groups", [])
    case Peers => ("peers", [])
    case React => ("react", ["emoji", "message_id"])
    case RegisterName => ("register_name", ["label"])
    case Lookup => ("lookup", ["query"])
    case Names => ("names", ["address"])
    case TransferName => ("transfer_name", ["label", "to"])
    case SetPrimaryName => ("set_primary_name", ["label"])
    case Mute => ("mute", ["target", "duration"])
    case Unmute => ("unmute", ["target"])
    case Mutes => ("mutes", [])
    case StatusOf => ("status_of", ["target"])
  }

  // What a command line of this entry can give, the words first.
  ghost predicate Gives(sp: Spec, keys: seq<string>) {
    var words := sp.pos + (if sp.rest.Some? then [sp.rest.value] else []);
    && words <= keys
    && (forall f :: f in sp.flags ==> sp.flags[f] in keys)
    && (forall b :: b in sp.bools ==> sp.bools[b] in keys)
    && (forall i :: |words| <= i < |keys| ==> keys[i] in sp.flags.Values || keys[i] in sp.bools.Values)
  }

  // No command takes more than two words.
  predicate Same(pos: seq<string>, keys: seq<string>) {
    |keys| == |pos| <= 2 && (|pos| > 0 ==> keys[0] == pos[0]) && (|pos| > 1 ==> keys[1] == pos[1])
  }

  predicate OneMore(pos: seq<string>, key: string, keys: seq<string>) {
    |keys| == |pos| + 1 && keys[|pos|] == key && Same(pos, keys[..|pos|])
  }

  lemma WordsGive(sp: Spec, keys: seq<string>)
    requires sp.rest.None? && sp.flags == map[] && sp.bools == map[] && Same(sp.pos, keys)
    ensures Gives(sp, keys)
  {
    assert sp.pos + [] == sp.pos && keys == sp.pos;
  }

  lemma RestGives(sp: Spec, keys: seq<string>)
    requires sp.rest.Some? && sp.flags == map[] && sp.bools == map[] && OneMore(sp.pos, sp.rest.value, keys)
    ensures Gives(sp, keys)
  {
  }

  lemma FlagGives(sp: Spec, flag: string, key: string, keys: seq<string>)
    requires sp.rest.None? && OneMore(sp.pos, key, keys)
    requires (sp.flags == map[flag := key] && sp.bools == map[]) || (sp.flags == map[] && sp.bools == map[flag := key])
    ensures Gives(sp, keys)
  {
    assert sp.pos + [] == sp.pos && map[flag := key][flag] == key;
  }

  predicate HasRest(c: Command) {
    c.Send? || c.Reply? || c.CreateGroup? || c.SendGroup?
  }

  predicate HasFlag(c: Command) {
    c.History? || c.AddContact? || c.AddToGroup? || c.React? || c.Mute?
  }

  // The name a flag is given by.
  lemma FlagNames(c: Command, flag: string)
    requires HasFlag(c) && flag in SpecOf(c).flags
    ensures flag ==
      if c.History? then "limit" else if c.React? then "message-id" else if c.Mute? then "duration" else "name"
  {
  }

  lemma RestServed(c: Command)
    requires HasRest(c)
    ensures SpecOf(c).op == Dispatch(c).0 && Gives(SpecOf(c), Dispatch(c).1)
  {
    RestGives(SpecOf(c), Dispatch(c).1);
  }

  lemma FlagServed(c: Command)
    requires HasFlag(c)
    ensures SpecOf(c).op == Dispatch(c).0 && Gives(SpecOf(c), Dispatch(c).1)
  {
    var flag := if c.History? then "limit" else if c.React? then "message-id" else if c.Mute? then "duration" else "name";
    FlagGives(SpecOf(c), flag, SpecOf(c).flags[flag], Dispatch(c).1);
  }

  lemma WordsServed(c: Command)
    requires !HasRest(c) && !HasFlag(c) && !c.Block?
    ensures SpecOf(c).op == Dispatch(c).0 && Gives(SpecOf(c), Dispatch(c).1)
  {
    WordsGive(SpecOf(c), Dispatch(c).1);
  }

  /** Every command calls the operation it is for, with exactly the arguments that operation reads, and the words of
      the line in the order it takes them. */
  lemma CommandIsServed(c: Command)
    ensures SpecOf(c).op == Dispatch(c).0 && Gives(SpecOf(c), Dispatch(c).1)
  {
    if HasRest(c) {
      RestServed(c);
    } else if HasFlag(c) {
      FlagServed(c);
    } else if c.Block? {
      FlagGives(SpecOf(c), "unblock", "unblock", Dispatch(c).1);
    } else {
      WordsServed(c);
    }
  }

  // ---- Splitting the line into pieces ----

  datatype Piece =
    | Word(text: string)
    | EndOfFlags
    | Json
    | Addr(addr: string)
    | AddrIs(addr: string)
    | FlagIs(name: string, value: string)
    | FlagThen(name: string, value: string)
    | Bare(name: string)

  predicate Dashed(a: string) {
    "--" <= a
  }

  // Where the first `=` is, or the length when there is none.
  function Equals(s: string): (k: nat)
    ensures k <= |s| && '=' !in s[..k] && (k < |s| ==> s[k] == '=')
  {
    if s == [] || s[0] == '=' then 0
    else
      var k := Equals(s[1..]);
      assert s[..k + 1] == [s[0]] + s[1..][..k];
      k + 1
  }

  function Tokens(p: Piece): seq<string> {
    match p
    case Word(a) => [a]
    case EndOfFlags => ["--"]
    case Json => ["--json"]
    case Addr(v) => ["--addr", v]
    case AddrIs(v) => ["--addr=" + v]
    case FlagIs(name, v) => ["--" + name + "=" + v]
    case FlagThen(name, v) => ["--" + name, v]
    case Bare(name) => ["--" + name]
  }

  // The first piece of a nonempty rest of the line.
  function First(argv: seq<string>, endFlags: bool): (p: Piece)
    requires argv != []
    ensures 0 < |Tokens(p)| <= |argv|
  {
    var a := argv[0];
    if endFlags then Word(a)
    else if a == "--" then EndOfFlags
    else if a == "--json" then Json
    else if a == "--addr" && |argv| > 1 then Addr(argv[1])
    else if "--addr=" <= a then AddrIs(a[7..])
    else if Dashed(a) then
      var name := a[2..];
      var eq := Equals(name);
      if eq < |name| then FlagIs(name[..eq], name[eq + 1..])
      else if |argv| > 1 && !Dashed(argv[1]) then FlagThen(name, argv[1])
      else Bare(name)
    else Word(a)
  }

  function Lex(argv: seq<string>, endFlags: bool): seq<Piece>
    decreases |argv|
  {
    if argv == [] then []
    else
      var p := First(argv, endFlags);
      [p] + Lex(argv[|Tokens(p)|..], endFlags || p.EndOfFlags?)
  }

  function Unlex(pieces: seq<Piece>): seq<string> {
    if pieces == [] then [] else Tokens(pieces[0]) + Unlex(pieces[1..])
  }

  lemma FlagText(a: string)
    requires Dashed(a)
    ensures a == "--" + a[2..]
    ensures var name := a[2..];
      var eq := Equals(name);
      eq < |name| ==> a == "--" + name[..eq] + "=" + name[eq + 1..]
  {
  }

  // A piece is the tokens it was read from.
  lemma FirstIsPrefix(argv: seq<string>, endFlags: bool)
    requires argv != []
    ensures Tokens(First(argv, endFlags)) <= argv
  {
    var a := argv[0];
    if !endFlags && Dashed(a) {
      FlagText(a);
      assert "--addr=" <= a ==> a == "--addr=" + a[7..];
    }
  }

  // How a line may be read: a flag's name has no `=`, its value is the next token unless that starts with dashes,
  // and the client's own settings are no flags. After the end of flags everything is a word.
  predicate IsRead(p: Piece, argv: seq<string>, endFlags: bool) {
    Tokens(p) <= argv && if endFlags then p.Word? else
      match p
      case Word(a) => !Dashed(a)
      case FlagIs(name, _) => '=' !in name && name != "addr"
      case FlagThen(name, v) => '=' !in name && name !in {"", "json", "addr"} && !Dashed(v)
      case Bare(name) =>
        '=' !in name && name !in {"", "json"} && (|argv| == 1 || (Dashed(argv[1]) && name != "addr"))
      case _ => true
  }

  lemma {:induction false} EqualsAt(name: string, v: string)
    requires '=' !in name
    ensures Equals(name + "=" + v) == |name|
    decreases |name|
  {
    var s := name + "=" + v;
    if name != [] {
      assert s[0] == name[0] && name[0] in name && s[1..] == name[1..] + "=" + v;
      EqualsAt(name[1..], v);
    }
  }

  lemma {:induction false} NoEquals(name: string)
    requires '=' !in name
    ensures Equals(name) == |name|
    decreases |name|
  {
    if name != [] {
      assert name[0] in name;
      NoEquals(name[1..]);
    }
  }

  lemma FirstIsRead(argv: seq<string>, endFlags: bool)
    requires argv != []
    ensures IsRead(First(argv, endFlags), argv, endFlags)
  {
    FirstIsPrefix(argv, endFlags);
    assert "--" + "addr" + "=" == "--addr=";
    if !endFlags && Dashed(argv[0]) {
      FlagText(argv[0]);
    }
  }

  lemma AddrPrefix(a: string)
    ensures "--addr=" <= a ==> |a| >= 7 && Equals(a[2..]) == 4 < |a[2..]| && a[2..][..4] == "addr"
  {
    if "--addr=" <= a {
      EqualsAt("addr", a[7..]);
      assert a[2..] == "addr" + "=" + a[7..];
    }
  }

  // A flag with its value in the same token.
  lemma FlagIsFirst(name: string, v: string, argv: seq<string>)
    requires argv != [] && argv[0] == "--" + name + "=" + v && '=' !in name && name != "addr"
    ensures First(argv, false) == FlagIs(name, v)
  {
    var a := argv[0];
    assert a[2..] == name + "=" + v;
    EqualsAt(name, v);
    assert a != "--" && a != "--json" && a != "--addr" by {
      assert a[2 + |name|] == '=';
    }
    AddrPrefix(a);
    assert a[2..][..|name|] == name;
  }

  // A flag that is a token of its own.
  lemma FlagTokenFirst(name: string, argv: seq<string>)
    requires argv != [] && argv[0] == "--" + name && '=' !in name && name !in {"", "json"}
    requires name == "addr" ==> |argv| == 1
    ensures First(argv, false) ==
      if |argv| > 1 && !Dashed(argv[1]) then FlagThen(name, argv[1]) else Bare(name)
  {
    var a := argv[0];
    assert a[2..] == name;
    NoEquals(name);
    assert a != "--" && a != "--json" && (|argv| > 1 ==> a != "--addr");
    AddrPrefix(a);
  }

  /** There is exactly one way to read a line, and `First` finds it. */
  lemma OnlyReading(p: Piece, argv: seq<string>, endFlags: bool)
    requires argv != []
    ensures IsRead(p, argv, endFlags) <==> p == First(argv, endFlags)
  {
    FirstIsRead(argv, endFlags);
    if IsRead(p, argv, endFlags) && !endFlags {
      assert Tokens(p)[0] == argv[0];
      match p
      case FlagIs(name, v) => FlagIsFirst(name, v, argv);
      case FlagThen(name, v) =>
        assert Tokens(p)[1] == argv[1];
        FlagTokenFirst(name, argv);
      case Bare(name) => FlagTokenFirst(name, argv);
      case Addr(v) => assert Tokens(p)[1] == argv[1];
      case AddrIs(v) => assert argv[0][7..] == v;
      case _ =>
    }
  }

  // The pieces are the line: no token is lost, invented or moved.
  lemma {:induction false} LexLosesNothing(argv: seq<string>, endFlags: bool)
    ensures Unlex(Lex(argv, endFlags)) == argv
    decreases |argv|
  {
    if argv != [] {
      var p := First(argv, endFlags);
      FirstIsPrefix(argv, endFlags);
      LexLosesNothing(argv[|Tokens(p)|..], endFlags || p.EndOfFlags?);
    }
  }

  datatype Parts = Parts(addr: string, jsonOut: bool, rest: seq<string>, flags: map<string, string>, bools: set<string>)

  // What a piece adds: later addresses and flag values replace earlier ones.
  function Add(t: Parts, p: Piece): Parts {
    match p
    case Word(a) => t.(rest := t.rest + [a])
    case EndOfFlags => t
    case Json => t.(jsonOut := true)
    case Addr(v) => t.(addr := v)
    case AddrIs(v) => t.(addr := v)
    case FlagIs(name, v) => t.(flags := t.flags[name := v])
    case FlagThen(name, v) => t.(flags := t.flags[name := v])
    case Bare(name) => t.(bools := t.bools + {name})
  }

  function Collect(start: Parts, pieces: seq<Piece>): Parts
    decreases |pieces|
  {
    if pieces == [] then start else Collect(Add(start, pieces[0]), pieces[1..])
  }

  function Start(daemonAddr: string): Parts {
    Parts(daemonAddr, false, [], map[], {})
  }

  function PartsOf(daemonAddr: string, argv: seq<string>): Parts {
    Collect(Start(daemonAddr), Lex(argv, false))
  }

  lemma CollectNext(t: Parts, argv: seq<string>, i: nat, endFlags: bool, next: nat, ended: bool, after: Parts)
    requires i < |argv|
    requires var p := First(argv[i..], endFlags);
      next == i + |Tokens(p)| && ended == (endFlags || p.EndOfFlags?) && after == Add(t, p)
    ensures i < next <= |argv|
    ensures Collect(after, Lex(argv[next..], ended)) == Collect(t, Lex(argv[i..], endFlags))
  {
    var p := First(argv[i..], endFlags);
    assert argv[i..][|Tokens(p)|..] == argv[next..];
    assert Lex(argv[i..], endFlags) == [p] + Lex(argv[next..], ended);
  }

  // One turn of the loop in parseInvocation, at the piece that starts at `i`.
  method Take(argv: seq<string>, i: nat, endFlags: bool, t: Parts) returns (next: nat, ended: bool, after: Parts)
    requires i < |argv|
    ensures var p := First(argv[i..], endFlags);
      next == i + |Tokens(p)| && ended == (endFlags || p.EndOfFlags?) && after == Add(t, p)
  {
    var a := argv[i];
    next, ended, after := i + 1, endFlags, t;
    if endFlags {
      after := t.(rest := t.rest + [a]);
    } else if a == "--" {
      ended := true;
    } else if a == "--json" {
      after := t.(jsonOut := true);
    } else if a == "--addr" && i + 1 < |argv| {
      after := t.(addr := argv[i + 1]);
      next := i + 2;
    } else if "--addr=" <= a {
      after := t.(addr := a[7..]);
    } else if Dashed(a) {
      var name := a[2..];
      var eq := Equals(name);
      if eq < |name| {
        after := t.(flags := t.flags[name[..eq] := name[eq + 1..]]);
      } else if i + 1 < |argv| && !Dashed(argv[i + 1]) {
        after := t.(flags := t.flags[name := argv[i + 1]]);
        next := i + 2;
      } else {
        after := t.(bools := t.bools + {name});
      }
    } else {
      after := t.(rest := t.rest + [a]);
    }
  }

  method TakeOne(argv: seq<string>, i: nat, endFlags: bool, t: Parts) returns (next: nat, ended: bool, after: Parts)
    requires i < |argv|
    ensures i < next <= |argv|
    ensures Collect(after, Lex(argv[next..], ended)) == Collect(t, Lex(argv[i..], endFlags))
  {
    next, ended, after := Take(argv, i, endFlags, t);
    CollectNext(t, argv, i, endFlags, next, ended, after);
  }

  // The index loop of parseInvocation.
  method Split(daemonAddr: string, argv: seq<string>) returns (t: Parts)
    ensures t == PartsOf(daemonAddr, argv)
  {
    t := Start(daemonAddr);
    var i, endFlags := 0, false;
    while i < |argv|
      invariant 0 <= i <= |argv|
      invariant Collect(t, Lex(argv[i..], endFlags)) == PartsOf(daemonAddr, argv)
    {
      i, endFlags, t := TakeOne(argv, i, endFlags, t);
    }
  }

  // ---- What the parts mean ----

  function Words(pieces: seq<Piece>): seq<string> {
    if pieces == [] then []
    else (if pieces[0].Word? then [pieces[0].text] else []) + Words(pieces[1..])
  }

  predicate Names(p: Piece, name: string) {
    (p.FlagIs? || p.FlagThen?) && p.name == name
  }

  predicate Addresses(p: Piece) {
    p.Addr? || p.AddrIs?
  }

  predicate NoneNames(pieces: seq<Piece>, name: string) {
    forall i :: 0 <= i < |pieces| ==> !Names(pieces[i], name)
  }

  predicate NoneAddresses(pieces: seq<Piece>) {
    forall i :: 0 <= i < |pieces| ==> !Addresses(pieces[i])
  }

  // Every word in order, and exactly the switches given.
  lemma {:induction false} WordsAndSwitches(start: Parts, pieces: seq<Piece>)
    ensures var t := Collect(start, pieces);
      && t.rest == start.rest + Words(pieces)
      && (t.jsonOut <==> start.jsonOut || Json in pieces)
      && (forall name :: name in t.bools <==> name in start.bools || Bare(name) in pieces)
    decreases |pieces|
  {
    if pieces != [] {
      WordsAndSwitches(Add(start, pieces[0]), pieces[1..]);
    }
  }

  lemma {:induction false} FlagUntouched(start: Parts, pieces: seq<Piece>, name: string)
    requires NoneNames(pieces, name)
    ensures var t := Collect(start, pieces);
      (name in t.flags <==> name in start.flags) && (name in t.flags ==> t.flags[name] == start.flags[name])
    decreases |pieces|
  {
    if pieces != [] {
      assert !Names(pieces[0], name);
      FlagUntouched(Add(start, pieces[0]), pieces[1..], name);
    }
  }

  // A flag has its last value.
  lemma {:induction false} LastValueWins(start: Parts, pieces: seq<Piece>, i: nat, name: string)
    requires i < |pieces| && Names(pieces[i], name) && NoneNames(pieces[i + 1..], name)
    ensures name in Collect(start, pieces).flags && Collect(start, pieces).flags[name] == pieces[i].value
    decreases i
  {
    if i == 0 {
      FlagUntouched(Add(start, pieces[0]), pieces[1..], name);
    } else {
      assert pieces[1..][i..] == pieces[i + 1..];
      LastValueWins(Add(start, pieces[0]), pieces[1..], i - 1, name);
    }
  }

  lemma {:induction false} AddressUntouched(start: Parts, pieces: seq<Piece>)
    requires NoneAddresses(pieces)
    ensures Collect(start, pieces).addr == start.addr
    decreases |pieces|
  {
    if pieces != [] {
      assert !Addresses(pieces[0]);
      AddressUntouched(Add(start, pieces[0]), pieces[1..]);
    }
  }

  lemma {:induction false} LastAddressWins(start: Parts, pieces: seq<Piece>, i: nat)
    requires i < |pieces| && Addresses(pieces[i]) && NoneAddresses(pieces[i + 1..])
    ensures Collect(start, pieces).addr == pieces[i].addr
    decreases i
  {
    if i == 0 {
      AddressUntouched(Add(start, pieces[0]), pieces[1..]);
    } else {
      assert pieces[1..][i..] == pieces[i + 1..];
      LastAddressWins(Add(start, pieces[0]), pieces[1..], i - 1);
    }
  }

  // ---- Arguments ----

  function Need(sp: Spec): nat {
    if sp.optPos then 0 else |sp.pos|
  }

  function Join(words: seq<string>): string {
    if words == [] then "" else if |words| == 1 then words[0] else words[0] + " " + Join(words[1..])
  }

  function RestValue(key: string, tail: seq<string>): Value {
    if key == "members" then List(tail) else Text(Join(tail))
  }

  function Consumed(sp: Spec, words: seq<string>): nat {
    if |sp.pos| <= |words| then |sp.pos| else |words|
  }

  // The arguments hold exactly the positionals, the trailing words, and the flags and switches of the command.
  ghost predicate IsArgs(args: map<string, Value>, sp: Spec, t: Parts) {
    var n := Consumed(sp, t.rest);
    && (forall i :: 0 <= i < n ==> sp.pos[i] in args && args[sp.pos[i]] == Text(t.rest[i]))
    && (sp.rest.Some? ==> sp.rest.value in args && args[sp.rest.value] == RestValue(sp.rest.value, t.rest[n..]))
    && (forall f :: f in sp.flags && f in t.flags ==> sp.flags[f] in args && args[sp.flags[f]] == Text(t.flags[f]))
    && (forall b :: b in sp.bools && b in t.bools ==> sp.bools[b] in args && args[sp.bools[b]] == Yes)
    && (forall key :: key in args ==>
      || key in sp.pos[..n] || sp.rest == Some(key)
      || (exists f :: f in sp.flags && f in t.flags && sp.flags[f] == key)
      || (exists b :: b in sp.bools && b in t.bools && sp.bools[b] == key))
  }

  ghost predicate IsParse(command: string, daemonAddr: string, argv: seq<string>, r: Result)
    requires command != "op"
  {
    var t := PartsOf(daemonAddr, argv);
    if command == "status" then IsStatus(t, r)
    else if Specs(command).None? then r == Err(UnknownCommand)
    else
      IsParseWith(Specs(command).value, t, r)
  }

  // Without words `status` shows the daemon's status, whatever flags are given.
  predicate IsStatus(t: Parts, r: Result) {
    if t.rest == [] then r == Ok(Invocation(t.addr, t.jsonOut, true, "", map[]))
    else if Unknown(t, {"message"}) != {} then r.Err? && r.error.UnknownFlag? && r.error.name in Unknown(t, {"message"})
    else r == Ok(Invocation(t.addr, t.jsonOut, false, "status", StatusArgs(t)))
  }

  ghost predicate IsParseWith(sp: Spec, t: Parts, r: Result) {
    var unknown := Unknown(t, sp.flags.Keys + sp.bools.Keys);
    if unknown != {} then r.Err? && r.error.UnknownFlag? && r.error.name in unknown
    else if |t.rest| < Need(sp) then r == Err(NeedArgs(Need(sp), |t.rest|))
    else if sp.rest == Some("message") && |t.rest| <= |sp.pos| then r == Err(MessageRequired)
    else
      && r.Ok? && r.value == Invocation(t.addr, t.jsonOut, false, sp.op, r.value.args)
      && IsArgs(r.value.args, sp, t)
  }

  function Unknown(t: Parts, allowed: set<string>): set<string> {
    t.flags.Keys + t.bools - allowed
  }

  function StatusArgs(t: Parts): map<string, Value>
    requires t.rest != []
  {
    var args := map["state" := Text(t.rest[0])];
    if "message" in t.flags then args["message" := Text(t.flags["message"])] else args
  }

  // Which of several unknown flags is reported depends on Go's map order.
  method RejectUnknownFlags(flags: map<string, string>, bools: set<string>, allowed: set<string>)
    returns (bad: Option<string>)
    ensures bad.None? ==> flags.Keys + bools <= allowed
    ensures bad.Some? ==> bad.value in flags.Keys + bools - allowed
  {
    var todo := flags.Keys;
    while todo != {}
      invariant todo <= flags.Keys && flags.Keys - todo <= allowed
      decreases todo
    {
      var fn :| fn in todo;
      if fn !in allowed {
        return Some(fn);
      }
      todo := todo - {fn};
    }
    todo := bools;
    while todo != {}
      invariant todo <= bools && bools - todo <= allowed
      decreases todo
    {
      var fn :| fn in todo;
      if fn !in allowed {
        return Some(fn);
      }
      todo := todo - {fn};
    }
    bad := None;
  }

  // The positional arguments.
  method Positionals(sp: Spec, words: seq<string>) returns (args: map<string, Value>, consumed: nat)
    requires DistinctKeys(sp)
    ensures consumed == Consumed(sp, words)
    ensures forall key :: key in args ==> key in sp.pos[..consumed]
    ensures forall i :: 0 <= i < consumed ==> sp.pos[i] in args && args[sp.pos[i]] == Text(words[i])
  {
    args, consumed := map[], 0;
    for i := 0 to |sp.pos|
      invariant consumed == if i <= |words| then i else |words|
      invariant forall key :: key in args ==> key in sp.pos[..consumed]
      invariant forall j :: 0 <= j < consumed ==> sp.pos[j] in args && args[sp.pos[j]] == Text(words[j])
    {
      if i < |words| {
        args := args[sp.pos[i] := Text(words[i])];
        consumed := i + 1;
        assert sp.pos[..consumed] == sp.pos[..i] + [sp.pos[i]];
      }
    }
  }

  // The flags of the command that were given.
  method Flags(sp: Spec, t: Parts, start: map<string, Value>) returns (args: map<string, Value>)
    requires DistinctKeys(sp)
    ensures forall f :: f in sp.flags && f in t.flags ==> sp.flags[f] in args && args[sp.flags[f]] == Text(t.flags[f])
    ensures forall key :: key in start && key !in sp.flags.Values ==> key in args && args[key] == start[key]
    ensures forall key :: key in args ==>
        key in start || (exists f :: f in sp.flags && f in t.flags && sp.flags[f] == key)
  {
    args := start;
    var todo := sp.flags.Keys;
    while todo != {}
      invariant todo <= sp.flags.Keys
      invariant forall f :: f in sp.flags && f in t.flags && f !in todo ==>
        sp.flags[f] in args && args[sp.flags[f]] == Text(t.flags[f])
      invariant forall key :: key in start && key !in sp.flags.Values ==> key in args && args[key] == start[key]
      invariant forall key :: key in args ==>
        key in start || (exists f :: f in sp.flags && f in t.flags && sp.flags[f] == key)
      decreases todo
    {
      var fn :| fn in todo;
      if fn in t.flags {
        args := args[sp.flags[fn] := Text(t.flags[fn])];
      }
      todo := todo - {fn};
    }
  }

  // The switches of the command that were given.
  method Switches(sp: Spec, t: Parts, start: map<string, Value>) returns (args: map<string, Value>)
    ensures forall b :: b in sp.bools && b in t.bools ==> sp.bools[b] in args && args[sp.bools[b]] == Yes
    ensures forall key :: key in start && key !in sp.bools.Values ==> key in args && args[key] == start[key]
    ensures forall key :: key in args ==>
        key in start || (exists b :: b in sp.bools && b in t.bools && sp.bools[b] == key)
  {
    args := start;
    var todo := sp.bools.Keys;
    while todo != {}
      invariant todo <= sp.bools.Keys
      invariant forall b :: b in sp.bools && b in t.bools && b !in todo ==> sp.bools[b] in args && args[sp.bools[b]] == Yes
      invariant forall key :: key in start && key !in sp.bools.Values ==> key in args && args[key] == start[key]
      invariant forall key :: key in args ==>
        key in start || (exists b :: b in sp.bools && b in t.bools && sp.bools[b] == key)
      decreases todo
    {
      var fn :| fn in todo;
      if fn in t.bools {
        args := args[sp.bools[fn] := Yes];
      }
      todo := todo - {fn};
    }
  }

  // ---- The `op` command ----

  // The `key=value` words; a later one replaces an earlier one, and other words do not count.
  function KeyValues(fields: map<string, Value>, words: seq<string>): map<string, Value> {
    if words == [] then fields
    else
      var before, w := KeyValues(fields, words[..|words| - 1]), words[|words| - 1];
      if Equals(w) < |w| then before[w[..Equals(w)] := Text(w[Equals(w) + 1..])] else before
  }

  // Flags replace words, and words replace JSON fields.
  function OpArgs(fields: map<string, Value>, words: seq<string>, flags: map<string, string>): map<string, Value> {
    var args := KeyValues(fields, words);
    map k | k in args.Keys + (flags.Keys - {"json-args"}) ::
      if k in flags && k != "json-args" then Text(flags[k]) else args[k]
  }

  predicate AnyAssignment(words: seq<string>, flags: map<string, string>) {
    || (exists i :: 0 <= i < |words| && Equals(words[i]) < |words[i]|)
    || flags.Keys - {"json-args"} != {}
  }

  predicate IsOp(decode: string -> Decoded, t: Parts, r: Result) {
    if t.rest == [] then r == Err(NameRequired)
    else
      var decoded := if "json-args" in t.flags then decode(t.flags["json-args"]) else Object(map[]);
      if decoded.Malformed? then r == Err(BadJson)
      else if decoded.Null? && AnyAssignment(t.rest[1..], t.flags) then r == Err(AssignsToNil)
      else
        var fields := if decoded.Null? then map[] else decoded.fields;
        r == Ok(Invocation(t.addr, t.jsonOut, false, t.rest[0], OpArgs(fields, t.rest[1..], t.flags)))
  }

  predicate Assigns(w: string, key: string) {
    Equals(w) < |w| && w[..Equals(w)] == key
  }

  /** The last word that gives a key decides its value, and without one the JSON field stays. */
  lemma {:induction false} LastPairWins(fields: map<string, Value>, words: seq<string>, i: nat, key: string)
    requires i <= |words| && forall j :: i <= j < |words| ==> !Assigns(words[j], key)
    ensures i > 0 && Assigns(words[i - 1], key) ==>
      key in KeyValues(fields, words) && KeyValues(fields, words)[key] == Text(words[i - 1][|key| + 1..])
    ensures i == 0 ==> (key in KeyValues(fields, words) <==> key in fields)
    ensures i == 0 && key in fields ==> KeyValues(fields, words)[key] == fields[key]
    decreases |words|
  {
    if i < |words| {
      assert !Assigns(words[|words| - 1], key);
      assert forall j :: i <= j < |words| - 1 ==> words[..|words| - 1][j] == words[j];
      LastPairWins(fields, words[..|words| - 1], i, key);
    }
  }

  /** For `op` a flag decides its key, else the words and the JSON do, and `--json-args` is no argument. */
  lemma OpArgsSources(fields: map<string, Value>, words: seq<string>, flags: map<string, string>, key: string)
    ensures var args := OpArgs(fields, words, flags);
      if key in flags && key != "json-args" then key in args && args[key] == Text(flags[key])
      else
        && (key in args <==> key in KeyValues(fields, words))
        && (key in args ==> args[key] == KeyValues(fields, words)[key])
  {
  }

  method WordArguments(fields: map<string, Value>, words: seq<string>) returns (args: map<string, Value>, any: bool)
    ensures args == KeyValues(fields, words)
    ensures any <==> exists i :: 0 <= i < |words| && Equals(words[i]) < |words[i]|
  {
    args, any := fields, false;
    for i := 0 to |words|
      invariant args == KeyValues(fields, words[..i])
      invariant any <==> exists j :: 0 <= j < i && Equals(words[j]) < |words[j]|
    {
      var kv := words[i];
      var eq := Equals(kv);
      if eq < |kv| {
        args := args[kv[..eq] := Text(kv[eq + 1..])];
        any := true;
      }
      assert words[..i + 1][..i] == words[..i];
    }
    assert words[..|words|] == words;
  }

  method FlagArguments(start: map<string, Value>, flags: map<string, string>) returns (args: map<string, Value>)
    ensures args == map k | k in start.Keys + (flags.Keys - {"json-args"}) ::
      if k in flags && k != "json-args" then Text(flags[k]) else start[k]
  {
    args := start;
    var todo := flags.Keys;
    while todo != {}
      invariant todo <= flags.Keys
      invariant args.Keys == start.Keys + (flags.Keys - todo - {"json-args"})
      invariant forall k :: k in args ==>
        args[k] == if k in flags && k !in todo && k != "json-args" then Text(flags[k]) else start[k]
      decreases todo
    {
      var k :| k in todo;
      if k != "json-args" {
        args := args[k := Text(flags[k])];
      }
      todo := todo - {k};
    }
  }

  method ParseOp(decode: string -> Decoded, t: Parts) returns (r: Result)
    ensures IsOp(decode, t, r)
  {
    if |t.rest| == 0 {
      return Err(NameRequired);
    }
    var decoded := Object(map[]);
    if "json-args" in t.flags {
      decoded := decode(t.flags["json-args"]);
      if decoded.Malformed? {
        return Err(BadJson);
      }
    }
    var args, any := WordArguments(if decoded.Null? then map[] else decoded.fields, t.rest[1..]);
    if decoded.Null? && (any || t.flags.Keys - {"json-args"} != {}) {
      return Err(AssignsToNil);
    }
    args := FlagArguments(args, t.flags);
    r := Ok(Invocation(t.addr, t.jsonOut, false, t.rest[0], args));
  }

  // parseInvocation; `decode` is the JSON decoder.
  method ParseInvocation(command: string, daemonAddr: string, argv: seq<string>, decode: string -> Decoded)
    returns (r: Result)
    ensures if command == "op" then IsOp(decode, PartsOf(daemonAddr, argv), r) else IsParse(command, daemonAddr, argv, r)
  {
    var t := Split(daemonAddr, argv);
    if command == "status" {
      if |t.rest| == 0 {
        return Ok(Invocation(t.addr, t.jsonOut, true, "", map[]));
      }
      var bad := RejectUnknownFlags(t.flags, t.bools, {"message"});
      if bad.Some? {
        return Err(UnknownFlag(bad.value));
      }
      var args := map["state" := Text(t.rest[0])];
      if "message" in t.flags {
        args := args["message" := Text(t.flags["message"])];
      }
      return Ok(Invocation(t.addr, t.jsonOut, false, "status", args));
    }
    if command == "op" {
      r := ParseOp(decode, t);
      return;
    }
    var found := Specs(command);
    if found.None? {
      return Err(UnknownCommand);
    }
    r := ParseWith(found.value, t);
  }

  // The part of parseInvocation that follows the command's table entry.
  method ParseWith(sp: Spec, t: Parts) returns (r: Result)
    requires DistinctKeys(sp)
    ensures IsParseWith(sp, t, r)
  {
    var bad := RejectUnknownFlags(t.flags, t.bools, sp.flags.Keys + sp.bools.Keys);
    if bad.Some? {
      return Err(UnknownFlag(bad.value));
    }
    var need := if sp.optPos then 0 else |sp.pos|;
    if |t.rest| < need {
      return Err(NeedArgs(need, |t.rest|));
    }
    if sp.rest == Some("message") && |t.rest[Consumed(sp, t.rest)..]| == 0 {
      return Err(MessageRequired);
    }
    var args := Arguments(sp, t);
    r := Ok(Invocation(t.addr, t.jsonOut, false, sp.op, args));
  }

  method Arguments(sp: Spec, t: Parts) returns (args: map<string, Value>)
    requires DistinctKeys(sp)
    ensures IsArgs(args, sp, t)
  {
    var consumed;
    args, consumed := Positionals(sp, t.rest);
    if sp.rest.Some? {
      args := args[sp.rest.value := RestValue(sp.rest.value, t.rest[consumed..])];
    }
    args := Flags(sp, t, args);
    args := Switches(sp, t, args);
  }

  // `names` alone has optional words.
  lemma OnlyNamesIsOptional(c: Command)
    ensures SpecOf(c).optPos <==> c == Command.Names
  {
  }

  /** Every command but `names` insists on its words: with known flags it reports how many it needs and how many there
      are exactly if there are too few, and `names` never does. */
  lemma NeedsItsWords(c: Command, t: Parts, r: Result)
    requires IsParseWith(SpecOf(c), t, r) && IsParseable(SpecOf(c), t)
    ensures c != Command.Names && |t.rest| < |SpecOf(c).pos| <==> r == Err(NeedArgs(|SpecOf(c).pos|, |t.rest|))
    ensures c == Command.Names ==> r.Ok?
    ensures c == Command.Names && t.rest == [] ==> r.value.args == map[]
    ensures c == Command.Names && t.rest != [] ==> r.value.args == map["address" := Text(t.rest[0])]
  {
    OnlyNamesIsOptional(c);
    if c == Command.Names {
      NamesArgs(t, r);
    }
  }

  lemma NamesArgs(t: Parts, r: Result)
    requires IsParseWith(SpecOf(Command.Names), t, r) && IsParseable(SpecOf(Command.Names), t)
    ensures r.Ok? && r.value.args == if t.rest == [] then map[] else map["address" := Text(t.rest[0])]
  {
    NamesSpec();
    OptionalWord(SpecOf(Command.Names), "address", t, r);
  }

  lemma NamesSpec()
    ensures SpecOf(Command.Names) == Spec("names", ["address"], true, None, map[], map[])
  {
  }

  lemma OptionalWord(sp: Spec, key: string, t: Parts, r: Result)
    requires sp == Spec(sp.op, [key], true, None, map[], map[]) && IsParseWith(sp, t, r) && IsParseable(sp, t)
    ensures r.Ok? && r.value.args == if t.rest == [] then map[] else map[key := Text(t.rest[0])]
  {
    assert sp.pos[0] == key && sp.pos[..0] == [] && sp.pos[..1] == [key];
    if t.rest == [] {
      assert r.value.args.Keys == {};
    } else {
      assert r.value.args.Keys == {key};
    }
  }

  // ---- No silent truncation ----

  // The line without `--json`, `--addr` and its value, `--addr=…` and the first free `--`.
  function Stripped(argv: seq<string>): seq<string>
    decreases |argv|
  {
    if argv == [] then []
    else if argv[0] == "--" then argv[1..]
    else if argv[0] == "--json" || "--addr=" <= argv[0] then Stripped(argv[1..])
    else if argv[0] == "--addr" && |argv| > 1 then Stripped(argv[2..])
    else [argv[0]] + Stripped(argv[1..])
  }

  // Apart from those, nothing before the first free `--` starts with two dashes.
  predicate Clean(argv: seq<string>)
    decreases |argv|
  {
    if argv == [] || argv[0] == "--" then true
    else if argv[0] == "--json" || "--addr=" <= argv[0] then Clean(argv[1..])
    else if argv[0] == "--addr" && |argv| > 1 then Clean(argv[2..])
    else !Dashed(argv[0]) && Clean(argv[1..])
  }

  predicate IsFlag(p: Piece) {
    p.FlagIs? || p.FlagThen? || p.Bare?
  }

  lemma FirstPiece(argv: seq<string>)
    requires argv != [] && !First(argv, false).EndOfFlags?
    ensures var p := First(argv, false);
      var rest := argv[|Tokens(p)|..];
      && (Clean(argv) <==> !IsFlag(p) && Clean(rest))
      && (IsFlag(p) || Stripped(argv) == Words([p]) + Stripped(rest))
  {
  }

  predicate NoFlags(pieces: seq<Piece>) {
    forall i :: 0 <= i < |pieces| ==> !IsFlag(pieces[i])
  }

  lemma {:induction false} NoFlagsNoNames(start: Parts, pieces: seq<Piece>)
    requires NoFlags(pieces)
    ensures Collect(start, pieces).flags == start.flags && Collect(start, pieces).bools == start.bools
    decreases |pieces|
  {
    if pieces != [] {
      assert !IsFlag(pieces[0]);
      NoFlagsNoNames(Add(start, pieces[0]), pieces[1..]);
    }
  }

  lemma {:induction false} EndedPieces(argv: seq<string>)
    ensures Words(Lex(argv, true)) == argv && NoFlags(Lex(argv, true))
    decreases |argv|
  {
    if argv != [] {
      EndedPieces(argv[1..]);
      assert Lex(argv, true) == [Word(argv[0])] + Lex(argv[1..], true);
      assert [argv[0]] + argv[1..] == argv;
    }
  }

  lemma {:induction false} CleanPieces(argv: seq<string>)
    requires Clean(argv)
    ensures Words(Lex(argv, false)) == Stripped(argv) && NoFlags(Lex(argv, false))
    decreases |argv|
  {
    if argv != [] {
      var p := First(argv, false);
      var rest := argv[|Tokens(p)|..];
      if p.EndOfFlags? {
        EndedPieces(rest);
      } else {
        FirstPiece(argv);
        CleanPieces(rest);
      }
    }
  }

  lemma CleanLine(start: Parts, argv: seq<string>)
    requires Clean(argv)
    ensures var t := Collect(start, Lex(argv, false));
      t.rest == start.rest + Stripped(argv) && t.flags == start.flags && t.bools == start.bools
  {
    CleanPieces(argv);
    WordsAndSwitches(start, Lex(argv, false));
    NoFlagsNoNames(start, Lex(argv, false));
  }

  lemma {:induction false} FlagsStay(start: Parts, pieces: seq<Piece>)
    ensures var t := Collect(start, pieces); start.flags.Keys + start.bools <= t.flags.Keys + t.bools
    decreases |pieces|
  {
    if pieces != [] {
      FlagsStay(Add(start, pieces[0]), pieces[1..]);
    }
  }

  lemma {:induction false} UncleanLine(start: Parts, argv: seq<string>)
    requires !Clean(argv)
    ensures var t := Collect(start, Lex(argv, false)); t.flags.Keys + t.bools != {}
    decreases |argv|
  {
    var p := First(argv, false);
    var rest := argv[|Tokens(p)|..];
    if IsFlag(p) {
      var t := Add(start, p);
      assert p.name in t.flags.Keys + t.bools;
      FlagsStay(t, Lex(rest, false));
    } else {
      FirstPiece(argv);
      UncleanLine(Add(start, p), rest);
    }
  }

  function MessageCommand(op: string, pos: seq<string>): Spec {
    Spec(op, pos, false, Some("message"), map[], map[])
  }

  // The first words are the positionals and the others are the message.
  lemma MessageArgs(sp: Spec, t: Parts, args: map<string, Value>)
    requires sp == MessageCommand(sp.op, sp.pos) && |sp.pos| <= 1 && "message" !in sp.pos
    requires |t.rest| > |sp.pos| && IsArgs(args, sp, t)
    ensures |sp.pos| == 0 ==> args == map["message" := Text(Join(t.rest))]
    ensures |sp.pos| == 1 ==> args == map[sp.pos[0] := Text(t.rest[0]), "message" := Text(Join(t.rest[1..]))]
  {
    if |sp.pos| == 0 {
      assert t.rest[0..] == t.rest;
      assert args.Keys == {"message"};
    } else {
      assert args.Keys == {sp.pos[0], "message"};
    }
  }

  lemma MessageParse(sp: Spec, daemonAddr: string, argv: seq<string>, r: Result)
    requires sp == MessageCommand(sp.op, sp.pos) && IsParseWith(sp, PartsOf(daemonAddr, argv), r)
    ensures r.Ok? <==> Clean(argv) && |Stripped(argv)| > |sp.pos|
    ensures r.Ok? ==> IsArgs(r.value.args, sp, PartsOf(daemonAddr, argv))
    ensures r.Ok? ==> PartsOf(daemonAddr, argv).rest == Stripped(argv)
  {
    var t := PartsOf(daemonAddr, argv);
    assert Unknown(t, sp.flags.Keys + sp.bools.Keys) == t.flags.Keys + t.bools;
    if Clean(argv) {
      CleanLine(Start(daemonAddr), argv);
    } else {
      FirstPiece(argv);
      UncleanLine(Start(daemonAddr), argv);
    }
  }

  lemma MessageCommands()
    ensures Specs("send") == Some(MessageCommand("send", ["to"]))
    ensures Specs("send-group") == Some(MessageCommand("send_group", ["group_id"]))
    ensures Specs("reply") == Some(MessageCommand("reply", []))
  {
  }

  // `send`, `send-group` and `reply` accept exactly the clean lines with enough words, and then every word of
  // the line is the recipient or part of the message, in order.
  lemma NoSilentTruncation(command: string, daemonAddr: string, argv: seq<string>, r: Result)
    requires command == "send" || command == "send-group"
    requires IsParse(command, daemonAddr, argv, r)
    ensures r.Ok? <==> Clean(argv) && |Stripped(argv)| >= 2
    ensures r.Ok? ==> r.value.args == AddressedArgs(if command == "send" then "to" else "group_id", Stripped(argv))
  {
    MessageCommands();
    if command == "send" {
      AddressedMessage("send", "to", daemonAddr, argv, r);
    } else {
      AddressedMessage("send_group", "group_id", daemonAddr, argv, r);
    }
  }

  function AddressedArgs(key: string, words: seq<string>): map<string, Value>
    requires |words| >= 2
  {
    map[key := Text(words[0]), "message" := Text(Join(words[1..]))]
  }

  lemma AddressedMessage(op: string, key: string, daemonAddr: string, argv: seq<string>, r: Result)
    requires key != "message" && IsParseWith(MessageCommand(op, [key]), PartsOf(daemonAddr, argv), r)
    ensures r.Ok? <==> Clean(argv) && |Stripped(argv)| >= 2
    ensures r.Ok? ==> r.value.args == AddressedArgs(key, Stripped(argv))
  {
    var sp := MessageCommand(op, [key]);
    MessageParse(sp, daemonAddr, argv, r);
    if r.Ok? {
      MessageArgs(sp, PartsOf(daemonAddr, argv), r.value.args);
    }
  }

  lemma NoSilentTruncationOfReplies(daemonAddr: string, argv: seq<string>, r: Result)
    requires IsParse("reply", daemonAddr, argv, r)
    ensures r.Ok? <==> Clean(argv) && Stripped(argv) != []
    ensures r.Ok? ==> r.value.args == map["message" := Text(Join(Stripped(argv)))]
  {
    var sp := MessageCommand("reply", []);
    MessageCommands();
    MessageParse(sp, daemonAddr, argv, r);
    if r.Ok? {
      MessageArgs(sp, PartsOf(daemonAddr, argv), r.value.args);
    }
  }

  // What `--` is for: after it a message may hold anything.
  lemma SendRoundTrip(daemonAddr: string, to: string, words: seq<string>, r: Result)
    requires words != [] && IsParse("send", daemonAddr, ["--", to] + words, r)
    ensures r.Ok? && r.value.args == map["to" := Text(to), "message" := Text(Join(words))]
  {
    var argv := ["--", to] + words;
    assert argv[1..] == [to] + words && ([to] + words)[1..] == words;
    NoSilentTruncation("send", daemonAddr, argv, r);
  }

  /** What joining is: nothing for no words, the word for one, and otherwise the parts in their order with one
      space between them. */
  lemma {:induction false} JoinConcat(a: seq<string>, b: seq<string>)
    requires a != [] && b != []
    ensures Join(a + b) == Join(a) + " " + Join(b)
    ensures Join([]) == "" && forall w :: Join([w]) == w
    decreases |a|
  {
    if |a| == 1 {
      assert (a + b)[0] == a[0] && (a + b)[1..] == b;
    } else {
      JoinConcat(a[1..], b);
      assert (a + b)[0] == a[0] && (a + b)[1..] == a[1..] + b;
    }
  }

  // The parts of a text between its spaces.
  function SplitAtSpaces(s: string): (parts: seq<string>)
    ensures parts != []
  {
    if s == [] then [""]
    else
      var parts := SplitAtSpaces(s[1..]);
      if s[0] == ' ' then [""] + parts else [[s[0]] + parts[0]] + parts[1..]
  }

  lemma {:induction false} SplitAfterWord(w: string, rest: string)
    requires ' ' !in w
    ensures SplitAtSpaces(w) == [w] && SplitAtSpaces(w + " " + rest) == [w] + SplitAtSpaces(rest)
    decreases |w|
  {
    var s := w + " " + rest;
    if w == [] {
      assert s == " " + rest && s[1..] == rest;
    } else {
      SplitAfterWord(w[1..], rest);
      assert s[1..] == w[1..] + " " + rest && s[0] == w[0] && w == [w[0]] + w[1..];
      assert w[0] in w && forall c :: c in w[1..] ==> c in w;
    }
  }

  /** The words of a message can be read back from it, each in its place, if none has a space of its own. */
  lemma {:induction false} JoinSplits(words: seq<string>)
    requires words != [] && forall i :: 0 <= i < |words| ==> ' ' !in words[i]
    ensures SplitAtSpaces(Join(words)) == words
    decreases |words|
  {
    if |words| == 1 {
      SplitAfterWord(words[0], "");
    } else {
      JoinSplits(words[1..]);
      SplitAfterWord(words[0], Join(words[1..]));
      assert words == [words[0]] + words[1..];
    }
  }

  /** `attn send -- to first second` sends the two words with a space between them. */
  lemma SendTwoWords(daemonAddr: string, to: string, first: string, second: string, r: Result)
    requires IsParse("send", daemonAddr, ["--", to, first, second], r)
    ensures r.Ok? && r.value.args == map["to" := Text(to), "message" := Text(first + " " + second)]
  {
    assert ["--", to, first, second] == ["--", to] + [first, second] && [first] + [second] == [first, second];
    SendRoundTrip(daemonAddr, to, [first, second], r);
    JoinConcat([first], [second]);
  }

  /** What any sent message says: it splits at its spaces into the words of the line, in order. */
  lemma SentWordsReadBack(daemonAddr: string, to: string, words: seq<string>, r: Result)
    requires words != [] && IsParse("send", daemonAddr, ["--", to] + words, r)
    requires forall i :: 0 <= i < |words| ==> ' ' !in words[i]
    ensures r.Ok? && "message" in r.value.args && r.value.args["message"].Text?
    ensures SplitAtSpaces(r.value.args["message"].text) == words
  {
    SendRoundTrip(daemonAddr, to, words, r);
    JoinSplits(words);
  }

  lemma CreateGroupSpec()
    ensures Specs("create-group") == Some(Spec("create_group", ["name"], false, Some("members"), map[], map[]))
  {
  }

  /** The members of a new group come back as the list of words. */
  lemma CreateGroupRoundTrip(daemonAddr: string, name: string, members: seq<string>, r: Result)
    requires IsParse("create-group", daemonAddr, ["--", name] + members, r)
    ensures r.Ok? && r.value.op == "create_group"
    ensures r.value.args == map["name" := Text(name), "members" := List(members)]
  {
    var argv, sp := ["--", name] + members, Specs("create-group").value;
    CreateGroupSpec();
    assert argv[1..] == [name] + members && ([name] + members)[1..] == members;
    CleanLine(Start(daemonAddr), argv);
    var t := PartsOf(daemonAddr, argv);
    assert t.rest == [name] + members && t.flags == map[] && t.bools == {};
    ListArgs(sp, t, r);
  }

  lemma ListArgs(sp: Spec, t: Parts, r: Result)
    requires sp == Spec("create_group", ["name"], false, Some("members"), map[], map[])
    requires t.rest != [] && t.flags == map[] && t.bools == {} && IsParseWith(sp, t, r)
    ensures r.Ok? && r.value.op == "create_group"
    ensures r.value.args == map["name" := Text(t.rest[0]), "members" := List(t.rest[1..])]
  {
    assert Unknown(t, sp.flags.Keys + sp.bools.Keys) == {};
    assert sp.pos[0] == "name" && sp.pos[..1] == ["name"] && "members" != "name";
    assert r.value.args.Keys == {"name", "members"};
  }

  // ---- Ignored tokens of the other commands ----

  // Without a trailing argument, extra words, switches given a value and flags given none do not affect
  // the arguments.
  lemma IgnoredTokens(args: map<string, Value>, sp: Spec, t: Parts)
    requires sp.rest.None?
    ensures IsArgs(args, sp, t) <==>
      IsArgs(args, sp, t.(
        rest := t.rest[..Consumed(sp, t.rest)],
        flags := map f | f in t.flags && f in sp.flags :: t.flags[f],
        bools := set b | b in t.bools && b in sp.bools))
  {
  }

  // A piece that is neither a setting of the client nor the end-of-flags mark.
  predicate IsContent(p: Piece) {
    p.Word? || IsFlag(p)
  }

  function Drop(pieces: seq<Piece>, i: nat): seq<Piece>
    requires i < |pieces|
  {
    pieces[..i] + pieces[i + 1..]
  }

  // The line parses to the same without piece `i`.
  ghost predicate Ignored(sp: Spec, daemonAddr: string, pieces: seq<Piece>, i: nat, r: Result) {
    i < |pieces| && IsContent(pieces[i]) && IsParseWith(sp, Collect(Start(daemonAddr), Drop(pieces, i)), r)
  }

  // A flag the command does not read as given: a switch with a value, or a flag without one.
  predicate Misread(sp: Spec, p: Piece) {
    if p.Bare? then p.name !in sp.bools else IsFlag(p) && p.name !in sp.flags
  }

  predicate SameFlag(p: Piece, q: Piece) {
    IsFlag(p) && IsFlag(q) && p.name == q.name && (p.Bare? <==> q.Bare?)
  }

  // Too many words, a misread flag, or a flag given twice.
  predicate Overfull(sp: Spec, pieces: seq<Piece>) {
    || |Words(pieces)| > |sp.pos|
    || (exists i :: 0 <= i < |pieces| && Misread(sp, pieces[i]))
    || (exists i, j :: 0 <= i < j < |pieces| && SameFlag(pieces[i], pieces[j]))
  }

  predicate FlagsAgree(u: Parts, v: Parts, name: string) {
    (name in u.flags <==> name in v.flags) && (name in u.flags ==> u.flags[name] == v.flags[name])
  }

  lemma {:induction false} CollectConcat(start: Parts, a: seq<Piece>, b: seq<Piece>)
    ensures Collect(start, a + b) == Collect(Collect(start, a), b)
    decreases |a|
  {
    if a == [] {
      assert a + b == b;
    } else {
      assert (a + b)[1..] == a[1..] + b;
      CollectConcat(Add(start, a[0]), a[1..], b);
    }
  }

  lemma {:induction false} WordsConcat(a: seq<Piece>, b: seq<Piece>)
    ensures Words(a + b) == Words(a) + Words(b)
    decreases |a|
  {
    if a == [] {
      assert a + b == b;
    } else {
      assert (a + b)[0] == a[0] && (a + b)[1..] == a[1..] + b;
      WordsConcat(a[1..], b);
      var w := if a[0].Word? then [a[0].text] else [];
      assert Words(a + b) == w + (Words(a[1..]) + Words(b));
    }
  }

  lemma {:induction false} CollectAgrees(u: Parts, v: Parts, b: seq<Piece>, name: string)
    requires u.addr == v.addr && u.jsonOut == v.jsonOut
    ensures Collect(u, b).addr == Collect(v, b).addr && Collect(u, b).jsonOut == Collect(v, b).jsonOut
    ensures FlagsAgree(u, v, name) || !NoneNames(b, name) ==> FlagsAgree(Collect(u, b), Collect(v, b), name)
    decreases |b|
  {
    if b != [] {
      CollectAgrees(Add(u, b[0]), Add(v, b[0]), b[1..], name);
      if !NoneNames(b, name) && !Names(b[0], name) {
        var i :| 0 <= i < |b| && Names(b[i], name);
        assert Names(b[1..][i - 1], name);
      }
    }
  }

  // What dropping a piece changes.
  lemma DropChanges(start: Parts, pieces: seq<Piece>, i: nat, name: string)
    requires i < |pieces| && IsContent(pieces[i])
    ensures var t, u, p := Collect(start, pieces), Collect(start, Drop(pieces, i)), pieces[i];
      && u.addr == t.addr && u.jsonOut == t.jsonOut
      && Words(pieces) == Words(pieces[..i]) + (if p.Word? then [p.text] else []) + Words(pieces[i + 1..])
      && Words(Drop(pieces, i)) == Words(pieces[..i]) + Words(pieces[i + 1..])
      && ((Names(p, name) && NoneNames(pieces[i + 1..], name)) || FlagsAgree(u, t, name))
  {
    var a, p, b := pieces[..i], pieces[i], pieces[i + 1..];
    assert pieces == a + ([p] + b) && ([p] + b)[1..] == b;
    CollectConcat(start, a, [p] + b);
    CollectConcat(start, a, b);
    WordsConcat(a, [p] + b);
    WordsConcat(a, b);
    CollectAgrees(Collect(start, a), Add(Collect(start, a), p), b, name);
  }

  lemma SameResult(sp: Spec, t: Parts, u: Parts, r: Result)
    requires sp.rest.None? && IsParseWith(sp, t, r) && r.Ok? && IsParseable(sp, u)
    requires u.addr == t.addr && u.jsonOut == t.jsonOut
    requires u.rest == t.rest || (|u.rest| >= |sp.pos| && u.rest < t.rest)
    requires forall f :: f in sp.flags ==> FlagsAgree(u, t, f)
    requires forall b :: b in sp.bools ==> (b in u.bools <==> b in t.bools)
    ensures IsParseWith(sp, u, r)
  {
    assert Consumed(sp, u.rest) == Consumed(sp, t.rest);
  }

  // No unknown flag.
  predicate IsParseable(sp: Spec, t: Parts) {
    Unknown(t, sp.flags.Keys + sp.bools.Keys) == {}
  }

  lemma NamedFlags(start: Parts, pieces: seq<Piece>, name: string)
    requires start.flags == map[] && start.bools == {}
    ensures name in Collect(start, pieces).flags <==> !NoneNames(pieces, name)
    ensures name in Collect(start, pieces).bools <==> Bare(name) in pieces
  {
    WordsAndSwitches(start, pieces);
    if NoneNames(pieces, name) {
      FlagUntouched(start, pieces, name);
    } else {
      var i := LastNaming(pieces, name);
      LastValueWins(start, pieces, i, name);
    }
  }

  lemma {:induction false} LastNaming(pieces: seq<Piece>, name: string) returns (i: nat)
    requires !NoneNames(pieces, name)
    ensures i < |pieces| && Names(pieces[i], name) && NoneNames(pieces[i + 1..], name)
    decreases |pieces|
  {
    var last := |pieces| - 1;
    if Names(pieces[last], name) {
      i := last;
    } else {
      var k :| 0 <= k < |pieces| && Names(pieces[k], name);
      assert pieces[..last][k] == pieces[k];
      i := LastNaming(pieces[..last], name);
      assert forall j :: i < j < last ==> pieces[j] == pieces[..last][i + 1..][j - i - 1];
    }
  }

  lemma {:induction false} LastWord(pieces: seq<Piece>) returns (i: nat)
    requires Words(pieces) != []
    ensures i < |pieces| && pieces[i].Word? && Words(pieces[i + 1..]) == []
    decreases |pieces|
  {
    if Words(pieces[1..]) == [] {
      i := 0;
    } else {
      var j := LastWord(pieces[1..]);
      i := j + 1;
      assert pieces[1..][j + 1..] == pieces[i + 1..];
    }
  }

  // The piece that says the same as piece `i`, before or after it.
  lemma OtherPiece(pieces: seq<Piece>, i: nat, j: nat) returns (k: nat)
    requires i < |pieces| && j < |Drop(pieces, i)|
    ensures k < |pieces| && k != i && pieces[k] == Drop(pieces, i)[j]
  {
    k := if j < i then j else j + 1;
  }

  // Where a key of the arguments comes from is settled by the key.
  lemma KeyOfPositional(args: map<string, Value>, sp: Spec, u: Parts, i: nat)
    requires sp.rest.None? && DistinctKeys(sp) && IsArgs(args, sp, u) && i < |sp.pos| && sp.pos[i] in args
    ensures i < |u.rest|
  {
    var n, key := Consumed(sp, u.rest), sp.pos[i];
    assert key in sp.pos;
    assert forall f :: f in sp.flags ==> sp.flags[f] != key;
    assert forall b :: b in sp.bools ==> sp.bools[b] != key;
    var j :| 0 <= j < n && sp.pos[..n][j] == key;
    assert sp.pos[j] == key;
  }

  lemma KeyOfFlag(args: map<string, Value>, sp: Spec, u: Parts, f: string)
    requires sp.rest.None? && DistinctKeys(sp) && IsArgs(args, sp, u) && f in sp.flags && sp.flags[f] in args
    ensures f in u.flags
  {
    var n := Consumed(sp, u.rest);
    assert forall j :: 0 <= j < n ==> sp.pos[..n][j] == sp.pos[j] && sp.pos[j] in sp.pos;
  }

  lemma KeyOfSwitch(args: map<string, Value>, sp: Spec, u: Parts, b: string)
    requires sp.rest.None? && DistinctKeys(sp) && IsArgs(args, sp, u) && b in sp.bools && sp.bools[b] in args
    ensures b in u.bools
  {
    var n := Consumed(sp, u.rest);
    assert forall j :: 0 <= j < n ==> sp.pos[..n][j] == sp.pos[j] && sp.pos[j] in sp.pos;
  }

  lemma IgnoredIsOverfull(sp: Spec, daemonAddr: string, pieces: seq<Piece>, i: nat, r: Result)
    requires sp.rest.None? && DistinctKeys(sp) && IsParseWith(sp, Collect(Start(daemonAddr), pieces), r) && r.Ok?
    requires Ignored(sp, daemonAddr, pieces, i, r)
    ensures Overfull(sp, pieces)
  {
    var start, p := Start(daemonAddr), pieces[i];
    var t, u := Collect(start, pieces), Collect(start, Drop(pieces, i));
    var args := r.value.args;
    WordsAndSwitches(start, pieces);
    WordsAndSwitches(start, Drop(pieces, i));
    if p.Word? {
      DropChanges(start, pieces, i, "");
      if |t.rest| <= |sp.pos| {
        KeyOfPositional(args, sp, u, |t.rest| - 1);
        assert false;
      }
    } else if !Misread(sp, p) {
      NamedFlags(start, pieces, p.name);
      NamedFlags(start, Drop(pieces, i), p.name);
      var j: nat;
      if p.Bare? {
        KeyOfSwitch(args, sp, u, p.name);
        j :| j < |Drop(pieces, i)| && Drop(pieces, i)[j] == p;
      } else {
        assert Names(p, p.name);
        KeyOfFlag(args, sp, u, p.name);
        j :| j < |Drop(pieces, i)| && Names(Drop(pieces, i)[j], p.name);
      }
      var k := OtherPiece(pieces, i, j);
      assert SameFlag(pieces[i], pieces[k]) && SameFlag(pieces[k], pieces[i]);
    }
  }

  // Dropping the last word, when there are too many.
  lemma ExtraWordIsIgnored(sp: Spec, daemonAddr: string, pieces: seq<Piece>, r: Result) returns (i: nat)
    requires sp.rest.None? && IsParseWith(sp, Collect(Start(daemonAddr), pieces), r) && r.Ok?
    requires |Words(pieces)| > |sp.pos|
    ensures Ignored(sp, daemonAddr, pieces, i, r)
  {
    i := LastWord(pieces);
    var start := Start(daemonAddr);
    var t, u := Collect(start, pieces), Collect(start, Drop(pieces, i));
    WordsAndSwitches(start, pieces);
    WordsAndSwitches(start, Drop(pieces, i));
    DropChanges(start, pieces, i, "");
    assert t.rest == u.rest + [pieces[i].text];
    forall name
      ensures FlagsAgree(u, t, name) && (name in u.flags <==> name in t.flags)
    {
      DropChanges(start, pieces, i, name);
    }
    DroppedSwitches(start, pieces, i);
    SameResult(sp, t, u, r);
  }

  // Dropping a piece loses no switch but its own.
  lemma DroppedSwitches(start: Parts, pieces: seq<Piece>, i: nat)
    requires i < |pieces| && start.bools == {}
    ensures var t, u := Collect(start, pieces), Collect(start, Drop(pieces, i));
      forall name :: name in u.bools <==> name in t.bools && (pieces[i] != Bare(name) || Bare(name) in Drop(pieces, i))
  {
    WordsAndSwitches(start, pieces);
    WordsAndSwitches(start, Drop(pieces, i));
    assert pieces == pieces[..i] + [pieces[i]] + pieces[i + 1..];
  }

  predicate Spare(sp: Spec, pieces: seq<Piece>, i: nat) {
    && i < |pieces| && IsFlag(pieces[i])
    && (Misread(sp, pieces[i]) || exists j :: i < j < |pieces| && SameFlag(pieces[i], pieces[j]))
  }

  lemma GivenAgain(pieces: seq<Piece>, i: nat, j: nat)
    requires i < j < |pieces| && SameFlag(pieces[i], pieces[j])
    ensures pieces[i].Bare? ==> pieces[i] in Drop(pieces, i)
    ensures !pieces[i].Bare? ==> !NoneNames(pieces[i + 1..], pieces[i].name)
  {
    assert pieces[i + 1..][j - i - 1] == pieces[j] && Drop(pieces, i)[j - 1] == pieces[j];
  }

  lemma SpareKeepsFlag(sp: Spec, start: Parts, pieces: seq<Piece>, i: nat, f: string)
    requires Spare(sp, pieces, i) && (f in sp.flags || f != pieces[i].name)
    ensures FlagsAgree(Collect(start, Drop(pieces, i)), Collect(start, pieces), f)
  {
    DropChanges(start, pieces, i, f);
    if !Misread(sp, pieces[i]) {
      var j :| i < j < |pieces| && SameFlag(pieces[i], pieces[j]);
      GivenAgain(pieces, i, j);
    }
  }

  lemma SpareKeepsSwitch(sp: Spec, start: Parts, pieces: seq<Piece>, i: nat, b: string)
    requires Spare(sp, pieces, i) && b in sp.bools && start.bools == {}
    ensures b in Collect(start, Drop(pieces, i)).bools <==> b in Collect(start, pieces).bools
  {
    DroppedSwitches(start, pieces, i);
    if !Misread(sp, pieces[i]) {
      var j :| i < j < |pieces| && SameFlag(pieces[i], pieces[j]);
      GivenAgain(pieces, i, j);
    }
  }

  lemma SpareKeepsNames(sp: Spec, start: Parts, pieces: seq<Piece>, i: nat, name: string)
    requires Spare(sp, pieces, i) && start.flags == map[] && start.bools == {}
    ensures var t, u := Collect(start, pieces), Collect(start, Drop(pieces, i));
      (name in u.flags ==> name in t.flags) && (name in u.bools ==> name in t.bools)
  {
    DroppedSwitches(start, pieces, i);
    if name == pieces[i].name && !pieces[i].Bare? {
      assert Names(pieces[i], name);
      NamedFlags(start, pieces, name);
    } else {
      DropChanges(start, pieces, i, name);
    }
  }

  lemma SpareKeepsSettings(sp: Spec, start: Parts, pieces: seq<Piece>, i: nat)
    requires Spare(sp, pieces, i)
    ensures var t, u := Collect(start, pieces), Collect(start, Drop(pieces, i));
      u.addr == t.addr && u.jsonOut == t.jsonOut && u.rest == t.rest
  {
    WordsAndSwitches(start, pieces);
    WordsAndSwitches(start, Drop(pieces, i));
    DropChanges(start, pieces, i, "");
  }

  lemma SpareKeepsParseable(sp: Spec, start: Parts, pieces: seq<Piece>, i: nat)
    requires Spare(sp, pieces, i) && start.flags == map[] && start.bools == {}
    requires IsParseable(sp, Collect(start, pieces))
    ensures IsParseable(sp, Collect(start, Drop(pieces, i)))
  {
    var t, u := Collect(start, pieces), Collect(start, Drop(pieces, i));
    var allowed := sp.flags.Keys + sp.bools.Keys;
    forall name | name in u.flags.Keys + u.bools
      ensures name in allowed
    {
      SpareKeepsNames(sp, start, pieces, i, name);
      assert name in t.flags.Keys + t.bools && name !in Unknown(t, allowed);
    }
  }

  // Dropping a flag that is misread, or given again later.
  lemma SpareFlagIsIgnored(sp: Spec, daemonAddr: string, pieces: seq<Piece>, i: nat, r: Result)
    requires sp.rest.None? && IsParseWith(sp, Collect(Start(daemonAddr), pieces), r) && r.Ok?
    requires Spare(sp, pieces, i)
    ensures Ignored(sp, daemonAddr, pieces, i, r)
  {
    var start := Start(daemonAddr);
    var t, u := Collect(start, pieces), Collect(start, Drop(pieces, i));
    SpareKeepsSettings(sp, start, pieces, i);
    SpareKeepsParseable(sp, start, pieces, i);
    forall f | f in sp.flags
      ensures FlagsAgree(u, t, f)
    {
      SpareKeepsFlag(sp, start, pieces, i, f);
    }
    forall b | b in sp.bools
      ensures b in u.bools <==> b in t.bools
    {
      SpareKeepsSwitch(sp, start, pieces, i, b);
    }
    SameResult(sp, t, u, r);
  }

  /** An accepted line of a command without a trailing argument has a token that makes no difference
      exactly if it has more words than the command takes, a switch with a value or a flag without one, or
      a flag given twice. */
  lemma TokenIgnoredIff(command: string, daemonAddr: string, argv: seq<string>, r: Result)
    requires command != "op" && command != "status" && Specs(command).Some? && Specs(command).value.rest.None?
    requires IsParse(command, daemonAddr, argv, r) && r.Ok?
    ensures var sp, pieces := Specs(command).value, Lex(argv, false);
      (exists i :: Ignored(sp, daemonAddr, pieces, i, r)) <==> Overfull(sp, pieces)
  {
    var sp := Specs(command).value;
    IgnoredIffOverfull(sp, daemonAddr, Lex(argv, false), r);
  }

  lemma IgnoredIffOverfull(sp: Spec, daemonAddr: string, pieces: seq<Piece>, r: Result)
    requires sp.rest.None? && DistinctKeys(sp) && IsParseWith(sp, Collect(Start(daemonAddr), pieces), r) && r.Ok?
    ensures (exists i :: Ignored(sp, daemonAddr, pieces, i, r)) <==> Overfull(sp, pieces)
  {
    if i :| Ignored(sp, daemonAddr, pieces, i, r) {
      IgnoredIsOverfull(sp, daemonAddr, pieces, i, r);
    }
    if Overfull(sp, pieces) {
      if |Words(pieces)| > |sp.pos| {
        var i := ExtraWordIsIgnored(sp, daemonAddr, pieces, r);
      } else if i: nat :| i < |pieces| && Misread(sp, pieces[i]) {
        SpareFlagIsIgnored(sp, daemonAddr, pieces, i, r);
      } else {
        var i: nat, j: nat :| i < j < |pieces| && SameFlag(pieces[i], pieces[j]);
        SpareFlagIsIgnored(sp, daemonAddr, pieces, i, r);
      }
    }
  }

  // ---- Ignored tokens of `status`, and of the commands with a trailing argument ----

  // With words, `status` parses as a command with one positional and one flag.
  const STATUS := Spec("status", ["state"], false, None, map["message" := "message"], map[])

  lemma StatusIsSpec(t: Parts, r: Result)
    requires t.rest != []
    ensures IsStatus(t, r) <==> IsParseWith(STATUS, t, r)
  {
    assert STATUS.flags.Keys + STATUS.bools.Keys == {"message"};
    assert STATUS.pos[..1] == ["state"] && STATUS.pos[0] == "state";
    if r.Ok? && IsParseWith(STATUS, t, r) {
      assert r.value.args.Keys == StatusArgs(t).Keys;
    }
  }

  predicate StatusIgnored(daemonAddr: string, pieces: seq<Piece>, i: nat, r: Result) {
    i < |pieces| && IsContent(pieces[i]) && IsStatus(Collect(Start(daemonAddr), Drop(pieces, i)), r)
  }

  lemma StatusIgnoredIsIgnored(daemonAddr: string, pieces: seq<Piece>, i: nat, r: Result)
    requires Words(pieces) != [] && IsStatus(Collect(Start(daemonAddr), pieces), r) && r.Ok?
    ensures StatusIgnored(daemonAddr, pieces, i, r) <==> Ignored(STATUS, daemonAddr, pieces, i, r)
  {
    WordsAndSwitches(Start(daemonAddr), pieces);
    if i < |pieces| {
      var u := Collect(Start(daemonAddr), Drop(pieces, i));
      if u.rest != [] {
        StatusIsSpec(u, r);
      }
    }
  }

  // Without words no flag makes a difference.
  lemma ShowIgnoresFlags(daemonAddr: string, pieces: seq<Piece>, i: nat, r: Result)
    requires i < |pieces| && IsFlag(pieces[i]) && Words(pieces) == []
    requires IsStatus(Collect(Start(daemonAddr), pieces), r)
    ensures StatusIgnored(daemonAddr, pieces, i, r)
  {
    var start := Start(daemonAddr);
    WordsAndSwitches(start, pieces);
    WordsAndSwitches(start, Drop(pieces, i));
    DropChanges(start, pieces, i, "");
  }

  lemma {:induction false} NoWords(pieces: seq<Piece>)
    ensures Words(pieces) == [] <==> forall i :: 0 <= i < |pieces| ==> !pieces[i].Word?
    decreases |pieces|
  {
    if pieces != [] {
      NoWords(pieces[1..]);
      assert forall i :: 0 < i < |pieces| ==> pieces[i] == pieces[1..][i - 1];
    }
  }

  /** `status` without words accepts any flag and ignores every one. With words an accepted line has a token
      that makes no difference exactly if it has a second word, a `--message` without a value, or one given
      twice. */
  lemma StatusTokenIgnoredIff(daemonAddr: string, argv: seq<string>, r: Result)
    requires IsParse("status", daemonAddr, argv, r)
    ensures var pieces := Lex(argv, false);
      && (Words(pieces) == [] ==> r.Ok? && r.value.statusShow)
      && (r.Ok? ==> ((exists i :: StatusIgnored(daemonAddr, pieces, i, r)) <==>
        if Words(pieces) == [] then !NoFlags(pieces) else Overfull(STATUS, pieces)))
  {
    var pieces := Lex(argv, false);
    WordsAndSwitches(Start(daemonAddr), pieces);
    if Words(pieces) == [] {
      NoWords(pieces);
      if i: nat :| i < |pieces| && IsFlag(pieces[i]) {
        ShowIgnoresFlags(daemonAddr, pieces, i, r);
      }
    } else if r.Ok? {
      StatusIsSpec(PartsOf(daemonAddr, argv), r);
      IgnoredIffOverfull(STATUS, daemonAddr, pieces, r);
      forall i: nat
        ensures StatusIgnored(daemonAddr, pieces, i, r) <==> Ignored(STATUS, daemonAddr, pieces, i, r)
      {
        StatusIgnoredIsIgnored(daemonAddr, pieces, i, r);
      }
    }
  }

  lemma {:induction false} JoinWithout(a: seq<string>, x: string, b: seq<string>)
    requires a + b != []
    ensures |Join(a + [x] + b)| == |Join(a + b)| + |x| + 1
    decreases |a|
  {
    if a == [] {
      assert [] + [x] + b == [x] + b && [] + b == b && ([x] + b)[1..] == b;
    } else if a[1..] + b == [] {
      assert a + [x] + b == [a[0], x] && a + b == [a[0]] && [a[0], x][1..] == [x];
    } else {
      JoinWithout(a[1..], x, b);
      assert (a + [x] + b)[1..] == a[1..] + [x] + b && (a + b)[1..] == a[1..] + b;
    }
  }

  // The trailing argument has a word less.
  lemma TailWithout(key: string, words: seq<string>, k: nat, n: nat)
    requires k < |words| && n <= |words| - 1 && (key != "members" ==> n < |words| - 1)
    ensures RestValue(key, (words[..k] + words[k + 1..])[n..]) != RestValue(key, words[n..])
  {
    var fewer := words[..k] + words[k + 1..];
    var m := if k < n then n else k;
    var a, x, b := words[n..m], words[m], words[m + 1..];
    assert words[n..] == a + [x] + b && fewer[n..] == a + b;
    if key != "members" {
      JoinWithout(a, x, b);
    }
  }

  lemma WordCounts(sp: Spec, t: Parts, u: Parts, k: nat, r: Result)
    requires sp.rest.Some? && TailAlone(sp)
    requires IsParseWith(sp, t, r) && r.Ok? && k < |t.rest| && u.rest == t.rest[..k] + t.rest[k + 1..]
    ensures !IsParseWith(sp, u, r)
  {
    if IsParseWith(sp, u, r) {
      TailWithout(sp.rest.value, t.rest, k, |sp.pos|);
    }
  }

  /** In an accepted line of a command with a trailing argument every token that is not a setting of the
      client makes a difference. */
  lemma EveryTokenCounts(command: string, daemonAddr: string, argv: seq<string>, r: Result, i: nat)
    requires command != "op" && command != "status" && Specs(command).Some? && Specs(command).value.rest.Some?
    requires IsParse(command, daemonAddr, argv, r) && r.Ok?
    ensures !Ignored(Specs(command).value, daemonAddr, Lex(argv, false), i, r)
  {
    var sp, pieces := Specs(command).value, Lex(argv, false);
    if i < |pieces| && IsContent(pieces[i]) {
      OnlyWords(sp, Start(daemonAddr), pieces, i);
      DroppedWordCounts(sp, daemonAddr, pieces, i, r);
    }
  }

  // The words of a line without one of them.
  lemma DroppedWord(start: Parts, pieces: seq<Piece>, i: nat)
    requires i < |pieces| && pieces[i].Word? && start.rest == []
    ensures var t, u, k := Collect(start, pieces), Collect(start, Drop(pieces, i)), |Words(pieces[..i])|;
      k < |t.rest| && u.rest == t.rest[..k] + t.rest[k + 1..]
  {
    var a, x, b := Words(pieces[..i]), pieces[i].text, Words(pieces[i + 1..]);
    WordsAround(start, pieces, i);
    OneLess(a, x, b);
    CollectedWords(start, pieces, a + [x] + b);
    CollectedWords(start, Drop(pieces, i), a + b);
  }

  lemma WordsAround(start: Parts, pieces: seq<Piece>, i: nat)
    requires i < |pieces| && pieces[i].Word?
    ensures Words(pieces) == Words(pieces[..i]) + [pieces[i].text] + Words(pieces[i + 1..])
    ensures Words(Drop(pieces, i)) == Words(pieces[..i]) + Words(pieces[i + 1..])
  {
    DropChanges(start, pieces, i, "");
  }

  lemma CollectedWords(start: Parts, pieces: seq<Piece>, words: seq<string>)
    requires start.rest == [] && Words(pieces) == words
    ensures Collect(start, pieces).rest == words
  {
    WordsAndSwitches(start, pieces);
  }

  lemma OneLess(a: seq<string>, x: string, b: seq<string>)
    ensures var all := a + [x] + b;
      |a| < |all| && a + b == all[..|a|] + all[|a| + 1..]
  {
  }

  lemma DroppedWordCounts(sp: Spec, daemonAddr: string, pieces: seq<Piece>, i: nat, r: Result)
    requires sp.rest.Some? && TailAlone(sp) && i < |pieces| && pieces[i].Word?
    requires IsParseWith(sp, Collect(Start(daemonAddr), pieces), r) && r.Ok?
    ensures !IsParseWith(sp, Collect(Start(daemonAddr), Drop(pieces, i)), r)
  {
    var start := Start(daemonAddr);
    DroppedWord(start, pieces, i);
    WordCounts(sp, Collect(start, pieces), Collect(start, Drop(pieces, i)), |Words(pieces[..i])|, r);
  }

  lemma FlagIsNamed(start: Parts, pieces: seq<Piece>, i: nat)
    requires start.flags == map[] && start.bools == {} && i < |pieces|
    ensures IsFlag(pieces[i]) ==> pieces[i].name in Collect(start, pieces).flags.Keys + Collect(start, pieces).bools
  {
    if IsFlag(pieces[i]) {
      NamedFlags(start, pieces, pieces[i].name);
      assert !pieces[i].Bare? ==> Names(pieces[i], pieces[i].name);
    }
  }

  // A command without flags accepts none.
  lemma OnlyWords(sp: Spec, start: Parts, pieces: seq<Piece>, i: nat)
    requires sp.flags == map[] && sp.bools == map[] && IsParseable(sp, Collect(start, pieces))
    requires start.flags == map[] && start.bools == {} && i < |pieces| && IsContent(pieces[i])
    ensures pieces[i].Word?
  {
    var t := Collect(start, pieces);
    assert sp.flags.Keys + sp.bools.Keys == {};
    assert t.flags.Keys + t.bools == Unknown(t, {});
    FlagIsNamed(start, pieces, i);
  }

  lemma UnblockTakesValue(y: string)
    requires !Dashed(y)
    ensures First(["--unblock", y], false) == FlagThen("unblock", y)
  {
    assert "--unblock"[2] == 'u' && "--addr="[2] == 'a' && "--json"[2] == 'j';
    assert "--unblock"[2..] == "unblock" && '=' !in "unblock";
  }

  lemma LexNext(argv: seq<string>, p: Piece, rest: seq<string>)
    requires argv != [] && First(argv, false) == p && !p.EndOfFlags? && argv == Tokens(p) + rest
    ensures Lex(argv, false) == [p] + Lex(rest, false)
  {
  }

  lemma UnblockPieces(x: string, y: string)
    requires !Dashed(x) && !Dashed(y)
    ensures Lex([x, "--unblock", y], false) == [Word(x), FlagThen("unblock", y)]
  {
    LexNext([x, "--unblock", y], Word(x), ["--unblock", y]);
    UnblockTakesValue(y);
    assert "--" + "unblock" == "--unblock";
    LexNext(["--unblock", y], FlagThen("unblock", y), []);
  }

  /** `attn block x --unblock y` is accepted, and blocks x: the value makes the switch a flag. */
  lemma UnblockWithValueBlocks(daemonAddr: string, x: string, y: string, r: Result)
    requires !Dashed(x) && !Dashed(y) && IsParse("block", daemonAddr, [x, "--unblock", y], r)
    ensures r.Ok? && r.value.op == "block" && r.value.args == map["address" := Text(x)]
  {
    UnblockPieces(x, y);
    UnblockParts(daemonAddr, x, y);
    BlockSpec();
    UnblockAsFlag(PartsOf(daemonAddr, [x, "--unblock", y]), x, y, r);
  }

  lemma UnblockParts(daemonAddr: string, x: string, y: string)
    ensures Collect(Start(daemonAddr), [Word(x), FlagThen("unblock", y)]) ==
      Parts(daemonAddr, false, [x], map["unblock" := y], {})
  {
    var one := Add(Start(daemonAddr), Word(x));
    var pieces, rest := [Word(x), FlagThen("unblock", y)], [FlagThen("unblock", y)];
    assert pieces[1..] == rest && rest[1..] == [];
    assert Collect(one, rest) == Collect(Add(one, rest[0]), []);
  }

  lemma BlockSpec()
    ensures Specs("block") == Some(Plain("block", ["address"]).(bools := map["unblock" := "unblock"]))
  {
  }

  lemma UnblockAsFlag(t: Parts, x: string, y: string, r: Result)
    requires t.rest == [x] && t.flags == map["unblock" := y] && t.bools == {}
    requires IsParseWith(Plain("block", ["address"]).(bools := map["unblock" := "unblock"]), t, r)
    ensures r.Ok? && r.value.op == "block" && r.value.args == map["address" := Text(x)]
  {
    var sp := Plain("block", ["address"]).(bools := map["unblock" := "unblock"]);
    assert sp.pos[..1] == ["address"] && sp.pos[0] == "address";
    assert Unknown(t, {"unblock"}) == {};
  }
}
