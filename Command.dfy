/**
 * The command tree and the meaning of `Command.parse`, `Command.invoke` and
 * `Command.reset`, as functions over an arena: every parameter and every
 * command of one application is stored once and referred to by its index.
 * The methods of class Clip.App are proved to compute exactly these functions.
 */
module Command {
  import opened Py
  import opened Values
  import opened Parameter

  /** A command: its name, its parameters (indexes into the parameter arena,
      in declaration order, help flag first) and its subcommands by name
      (indexes into the command arena), with the order they were registered in. */
  datatype Cmd = Cmd(name: string, params: seq<nat>, subIds: map<string, nat>, subNames: seq<string>)

  /** Every parameter and every command of one application. */
  datatype Tree = Tree(params: seq<Param>, cmds: seq<Cmd>)

  /** Calls the parser makes into host code, in the order it makes them. */
  datatype Event =
    | ParamCallback(param: nat, value: Value)     // a parameter's callback, from post_consume
    | Called(command: nat, args: map<string, Value>)  // a command's function, from invoke

  datatype Found = NotFound | Found(index: nat)

  /** A parse: its result or error, and the satisfied flags and event log it leaves behind. */
  datatype Outcome = Outcome(result: Result<map<string, Value>>, sat: seq<bool>, log: seq<Event>)

  /** An invocation: completed, or stopped by an error, and the event log it leaves behind. */
  datatype Invoked = Done(log: seq<Event>) | Aborted(error: Error, log: seq<Event>)

  ghost predicate Indexes(ids: seq<nat>, n: nat)
  {
    forall i :: 0 <= i < |ids| ==> ids[i] < n
  }

  /** Command `c` refers only to existing parameters and to subcommands created
      after it, and its subcommand map and registration order agree. */
  ghost predicate CmdValid(t: Tree, c: nat)
    requires c < |t.cmds|
  {
    var cmd := t.cmds[c];
    Indexes(cmd.params, |t.params|) &&
    (forall k :: k in cmd.subIds ==> c < cmd.subIds[k] < |t.cmds|) &&
    (forall k :: k in cmd.subIds <==> k in cmd.subNames) &&
    (forall i, j :: 0 <= i < j < |cmd.subNames| ==> cmd.subNames[i] != cmd.subNames[j])
  }

  /** The arena is a forest, and every parameter belongs to one command, once. */
  ghost predicate Valid(t: Tree)
  {
    (forall c :: 0 <= c < |t.cmds| ==> CmdValid(t, c)) &&
    (forall c1, c2, i, j ::
       (0 <= c1 < |t.cmds| && 0 <= c2 < |t.cmds| &&
        0 <= i < |t.cmds[c1].params| && 0 <= j < |t.cmds[c2].params| &&
        t.cmds[c1].params[i] == t.cmds[c2].params[j]) ==> c1 == c2 && i == j)
  }

  /** The dash-token loop of `Command.parse`: the first parameter, in
      declaration order, that lists `token` among its declarations. */
  function FirstDeclaring(ps: seq<Param>, ids: seq<nat>, token: string): (f: Found)
    requires Indexes(ids, |ps|)
    ensures f.Found? ==> f.index < |ids| && token in ps[ids[f.index]].decls &&
                         forall j :: 0 <= j < f.index ==> token !in ps[ids[j]].decls
    ensures f.NotFound? ==> forall j :: 0 <= j < |ids| ==> token !in ps[ids[j]].decls
  {
    if ids == [] then NotFound
    else if token in ps[ids[0]].decls then Found(0)
    else match FirstDeclaring(ps, ids[1..], token)
      case NotFound => NotFound
      case Found(i) => Found(i + 1)
  }

  ghost predicate OpenArgument(ps: seq<Param>, sat: seq<bool>, id: nat)
    requires id < |ps| && id < |sat|
  {
    ps[id].kind == Argument && !sat[id]
  }

  /** The positional loop of `Command.parse`: the first Argument, in declaration
      order, that has not been satisfied yet. */
  function FirstOpenArgument(ps: seq<Param>, sat: seq<bool>, ids: seq<nat>): (f: Found)
    requires Indexes(ids, |ps|) && |sat| == |ps|
    ensures f.Found? ==> f.index < |ids| && OpenArgument(ps, sat, ids[f.index]) &&
                         forall j :: 0 <= j < f.index ==> !OpenArgument(ps, sat, ids[j])
    ensures f.NotFound? ==> forall j :: 0 <= j < |ids| ==> !OpenArgument(ps, sat, ids[j])
  {
    if ids == [] then NotFound
    else if ps[ids[0]].kind == Argument && !sat[ids[0]] then Found(0)
    else match FirstOpenArgument(ps, sat, ids[1..])
      case NotFound => NotFound
      case Found(i) => Found(i + 1)
  }

  /** A parameter that pass 2 fills with its default: unsatisfied and not hidden. */
  ghost predicate Unfilled(ps: seq<Param>, sat: seq<bool>, id: nat)
    requires id < |ps| && id < |sat|
  {
    !sat[id] && !ps[id].hidden
  }

  /** Pass 2 of `Command.parse`: each unsatisfied, non-hidden parameter's name
      mapped to its default; of several with one name, the last one wins. */
  function Defaults(ps: seq<Param>, sat: seq<bool>, ids: seq<nat>): map<string, Value>
    requires Indexes(ids, |ps|) && |sat| == |ps|
  {
    if ids == [] then map[]
    else
      var last := ids[|ids| - 1];
      var d := Defaults(ps, sat, ids[..|ids| - 1]);
      if !sat[last] && !ps[last].hidden then d[ps[last].name := ps[last].default] else d
  }

  /** Storing a consumed value: hidden parameters never appear in the result. */
  function Store(p: Param, v: Value, parsed: map<string, Value>): map<string, Value>
  {
    if p.hidden then parsed else parsed[p.name := v]
  }

  /** The callback part of `post_consume`. */
  function Notify(p: Param, id: nat, v: Value, log: seq<Event>): seq<Event>
  {
    if p.callback then log + [ParamCallback(id, v)] else log
  }

  /** The end of `Command.parse`: the defaults of pass 2 are laid over what was parsed. */
  function Finish(t: Tree, c: nat, parsed: map<string, Value>, sat: seq<bool>, log: seq<Event>): Outcome
    requires Valid(t) && c < |t.cmds| && |sat| == |t.params|
  {
    assert CmdValid(t, c);
    Outcome(Success(parsed + Defaults(t.params, sat, t.cmds[c].params)), sat, log)
  }

  /** `Command.parse` from the point where `tokens` are left to read, `parsed`
      holds what was stored so far and `sat`, `log` are the state of the whole
      application. One token is popped per step: a subcommand name hands the
      rest to that subcommand; a dash token goes to the first parameter that
      declares it, or is dropped; any other token fills the first free Argument,
      or the parse fails naming it. */
  function Scan(t: Tree, c: nat, tokens: seq<string>, sat: seq<bool>,
                parsed: map<string, Value>, log: seq<Event>): (o: Outcome)
    requires Valid(t) && c < |t.cmds| && |sat| == |t.params|
    ensures |o.sat| == |sat|
    decreases |tokens|
  {
    assert CmdValid(t, c);
    var cmd := t.cmds[c];
    if tokens == [] then Finish(t, c, parsed, sat, log)
    else
      var token, rest := tokens[0], tokens[1..];
      if token in cmd.subIds then
        var sub := Scan(t, cmd.subIds[token], rest, sat, map[], log);
        if sub.result.Failure? then sub
        else Finish(t, c, parsed[token := Nested(sub.result.value)], sub.sat, sub.log)
      else if StartsWith(token, "-") then
        match FirstDeclaring(t.params, cmd.params, token)
        case NotFound => Scan(t, c, rest, sat, parsed, log)
        case Found(i) =>
          var id := cmd.params[i];
          var p := t.params[id];
          match Slice(p, rest)
          case Failure(e) => Outcome(Failure(e), sat, log)
          case Success(r) => Scan(t, c, r.rest, sat[id := true], Store(p, r.value, parsed), Notify(p, id, r.value, log))
      else
        match FirstOpenArgument(t.params, sat, cmd.params)
        case NotFound => Outcome(Failure(WeirdToken(token)), sat, log)
        case Found(i) =>
          var id := cmd.params[i];
          var p := t.params[id];
          match Slice(p, [token] + rest)
          case Failure(e) => Outcome(Failure(e), sat, log)
          case Success(r) => Scan(t, c, r.rest, sat[id := true], Store(p, r.value, parsed), Notify(p, id, r.value, log))
  }

  /** `Command.parse(tokens)` of command `c`. */
  function Parse(t: Tree, c: nat, tokens: seq<string>, sat: seq<bool>, log: seq<Event>): Outcome
    requires Valid(t) && c < |t.cmds| && |sat| == |t.params|
  {
    Scan(t, c, tokens, sat, map[], log)
  }

  /** The keyword arguments `Command.invoke` passes to the command's function:
      the entries whose keys are not subcommand names. */
  function OwnArgs(cmd: Cmd, parsed: map<string, Value>): (own: map<string, Value>)
    ensures forall k :: k in own <==> k in parsed && k !in cmd.subIds
    ensures forall k :: k in own ==> own[k] == parsed[k]
  {
    map k | k in parsed && k !in cmd.subIds :: parsed[k]
  }

  /** `Command.invoke(parsed)`: this command's function first, then each
      subcommand whose name is a key, with its nested mapping. */
  function Invoke(t: Tree, c: nat, parsed: map<string, Value>, log: seq<Event>): (o: Invoked)
    requires Valid(t) && c < |t.cmds|
    ensures |o.log| > |log| && o.log[..|log| + 1] == log + [Called(c, OwnArgs(t.cmds[c], parsed))]
    decreases |t.cmds| - c, 1
  {
    assert CmdValid(t, c);
    var called := log + [Called(c, OwnArgs(t.cmds[c], parsed))];
    var o := InvokeSubs(t, c, parsed, t.cmds[c].subNames, called);
    assert o.log[..|log| + 1] == o.log[..|called|][..|log| + 1];
    o
  }

  /** The loop of `Command.invoke` over the subcommand names still to visit. */
  function InvokeSubs(t: Tree, c: nat, parsed: map<string, Value>, names: seq<string>, log: seq<Event>): (o: Invoked)
    requires Valid(t) && c < |t.cmds|
    requires forall i :: 0 <= i < |names| ==> names[i] in t.cmds[c].subIds
    ensures |log| <= |o.log| && o.log[..|log|] == log
    decreases |t.cmds| - c, 0, |names|
  {
    assert CmdValid(t, c);
    if names == [] then Done(log)
    else if names[0] !in parsed then InvokeSubs(t, c, parsed, names[1..], log)
    else match parsed[names[0]]
      case Nested(m) =>
        var r := Invoke(t, t.cmds[c].subIds[names[0]], m, log);
        if r.Aborted? then r
        else
          var o := InvokeSubs(t, c, parsed, names[1..], r.log);
          assert o.log[..|log|] == o.log[..|r.log|][..|log|];
          o
      case _ => Aborted(NotAMapping(names[0]), log)
  }

  /** The parameters that `Command.reset` on `c` clears: its own and, recursively,
      those of every registered subcommand, taken or not. */
  function ReachableParams(t: Tree, c: nat): set<nat>
    requires Valid(t) && c < |t.cmds|
    decreases |t.cmds| - c, 1
  {
    assert CmdValid(t, c);
    (set id | id in t.cmds[c].params) + SubtreeParams(t, c, t.cmds[c].subNames)
  }

  function SubtreeParams(t: Tree, c: nat, names: seq<string>): set<nat>
    requires Valid(t) && c < |t.cmds|
    requires forall i :: 0 <= i < |names| ==> names[i] in t.cmds[c].subIds
    decreases |t.cmds| - c, 0, |names|
  {
    assert CmdValid(t, c);
    if names == [] then {}
    else SubtreeParams(t, c, names[..|names| - 1]) + ReachableParams(t, t.cmds[c].subIds[names[|names| - 1]])
  }
}
