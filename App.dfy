/**
 * The application object and the state the parser keeps in place: the
 * parameter and command arena, each parameter's `satisfied` flag, the main
 * command, and the log of calls made into host code. Every method that
 * walks the tree is proved to compute the functions of module Command.
 */
module Clip {
  import opened Py
  import opened Glob
  import opened Values
  import opened Parameter
  import opened Command

  datatype Root = NoRoot | Root(id: nat)

  /** `name or f.__name__.lower()` */
  function CommandName(name: string, funcName: string): string
  {
    if name != "" then name else Lower(funcName)
  }

  /** The parameter list `_make_command` and `Command.__init__` give a command:
      the hidden help flag, then the decorators' parameters reversed, which is
      their top-to-bottom order in the source since decorators apply bottom-up. */
  function CommandParams(applied: seq<Param>): (ps: seq<Param>)
    ensures |ps| == |applied| + 1 && ps[0] == HelpFlag()
    ensures forall i :: 1 <= i < |ps| ==> ps[i] == applied[|applied| - i]
  {
    [HelpFlag()] + Reverse(applied)
  }

  /** The command `Command.__init__` builds: `width` parameters stored from
      arena index `first` on, and no subcommands yet. */
  function NewCommand(name: string, funcName: string, width: nat, first: nat): (c: Cmd)
    ensures c.name == CommandName(name, funcName)
    ensures |c.params| == width && forall i :: 0 <= i < width ==> c.params[i] == first + i
    ensures c.subIds == map[] && c.subNames == []
  {
    Cmd(CommandName(name, funcName), seq(width, i => first + i), map[], [])
  }

  /** `self._subcommands[key] = id`: a new name is appended to the registration
      order, a known one keeps its place and now refers to the new command. */
  function Register(cmd: Cmd, key: string, id: nat): (r: Cmd)
    ensures r.name == cmd.name && r.params == cmd.params && r.subIds == cmd.subIds[key := id]
    ensures (forall k :: k in cmd.subIds <==> k in cmd.subNames) ==>
              (forall k :: k in r.subIds <==> k in r.subNames)
    ensures |cmd.subNames| <= |r.subNames| && r.subNames[..|cmd.subNames|] == cmd.subNames
  {
    Cmd(cmd.name, cmd.params, cmd.subIds[key := id],
        if key in cmd.subIds then cmd.subNames else cmd.subNames + [key])
  }

  /** Appending a fresh command whose parameters take the next arena slots
      keeps the arena a forest in which every parameter has one owner. */
  lemma AppendValid(t0: Tree, ps: seq<Param>, cmd: Cmd)
    requires Command.Valid(t0)
    requires |cmd.params| == |ps| && forall i :: 0 <= i < |ps| ==> cmd.params[i] == |t0.params| + i
    requires cmd.subIds == map[] && cmd.subNames == []
    ensures Command.Valid(Tree(t0.params + ps, t0.cmds + [cmd]))
  {
    var t := Tree(t0.params + ps, t0.cmds + [cmd]);
    var id := |t0.cmds|;
    forall c | 0 <= c < |t.cmds|
      ensures CmdValid(t, c)
    {
      if c < id { assert CmdValid(t0, c); }
    }
    forall c1, c2, i, j |
      0 <= c1 < |t.cmds| && 0 <= c2 < |t.cmds| &&
      0 <= i < |t.cmds[c1].params| && 0 <= j < |t.cmds[c2].params| &&
      t.cmds[c1].params[i] == t.cmds[c2].params[j]
      ensures c1 == c2 && i == j
    {
      if c1 < id { assert CmdValid(t0, c1); }
      if c2 < id { assert CmdValid(t0, c2); }
    }
  }

  /** An invocation's outcome as the method reports it, next to the log it leaves. */
  function Report(s: Status, log: seq<Event>): Invoked
  {
    if s.Ok? then Done(log) else Aborted(s.error, log)
  }

  /** `for param in self._params: if token in param._decls` */
  method FindDeclaring(ps: seq<Param>, ids: seq<nat>, token: string) returns (f: Found)
    requires Indexes(ids, |ps|)
    ensures f == FirstDeclaring(ps, ids, token)
  {
    var i := 0;
    while i < |ids|
      invariant i <= |ids|
      invariant forall j :: 0 <= j < i ==> token !in ps[ids[j]].decls
    {
      if token in ps[ids[i]].decls {
        return Found(i);
      }
      i := i + 1;
    }
    return NotFound;
  }

  /** `for param in self._params: if isinstance(param, Argument) and not param._satisfied` */
  method FindOpenArgument(ps: seq<Param>, sat: seq<bool>, ids: seq<nat>) returns (f: Found)
    requires Indexes(ids, |ps|) && |sat| == |ps|
    ensures f == FirstOpenArgument(ps, sat, ids)
  {
    var i := 0;
    while i < |ids|
      invariant i <= |ids|
      invariant forall j :: 0 <= j < i ==> !OpenArgument(ps, sat, ids[j])
    {
      if ps[ids[i]].kind == Argument && !sat[ids[i]] {
        return Found(i);
      }
      i := i + 1;
    }
    return NotFound;
  }

  class App {
    var params: seq<Param>
    var satisfied: seq<bool>
    var cmds: seq<Cmd>
    var main: Root
    var log: seq<Event>

    function Def(): Tree
      reads this
    {
      Tree(params, cmds)
    }

    ghost predicate Valid()
      reads this
    {
      Command.Valid(Def()) && |satisfied| == |params| && (main.Root? ==> main.id < |cmds|)
    }

    /** `App.__init__` without its output streams: no main command yet. */
    constructor ()
      ensures Valid()
      ensures params == [] && satisfied == [] && cmds == [] && main == NoRoot && log == []
    {
      params, satisfied, cmds := [], [], [];
      main := NoRoot;
      log := [];
    }

    /** `_make_command` and `Command.__init__`: a new command with no subcommands,
        whose parameters are appended to the arena, unsatisfied. */
    method AddCommand(name: string, funcName: string, applied: seq<Param>) returns (id: nat)
      requires Valid()
      modifies this`params, this`satisfied, this`cmds
      ensures Valid()
      ensures id == old(|cmds|) && id < |cmds|
      ensures params == old(params) + CommandParams(applied)
      ensures satisfied == old(satisfied) + seq(|applied| + 1, _ => false)
      ensures cmds == old(cmds) + [NewCommand(name, funcName, |applied| + 1, old(|params|))]
      ensures cmds[id].name == CommandName(name, funcName)
      ensures forall i :: 0 <= i <= |applied| ==> params[cmds[id].params[i]] == CommandParams(applied)[i]
    {
      var ps := CommandParams(applied);
      var first := |params|;
      var cmd := NewCommand(name, funcName, |ps|, first);
      AppendValid(Def(), ps, cmd);
      params := params + ps;
      satisfied := satisfied + seq(|ps|, _ => false);
      cmds := cmds + [cmd];
      id := |cmds| - 1;
      assert cmds[id] == cmd;
      forall i | 0 <= i <= |applied|
        ensures params[cmds[id].params[i]] == ps[i]
      {
        assert cmd.params[i] == first + i;
      }
    }

    /** `App.main`: the first main command is registered, a second one refused. */
    method RegisterMain(name: string, funcName: string, applied: seq<Param>) returns (r: Result<nat>)
      requires Valid()
      modifies this`params, this`satisfied, this`cmds, this`main
      ensures Valid()
      ensures old(main).Root? ==> r == Failure(MainAlreadyAssigned) && unchanged(this)
      ensures old(main).NoRoot? ==>
                r == Success(old(|cmds|)) && main == Root(old(|cmds|)) &&
                params == old(params) + CommandParams(applied) &&
                satisfied == old(satisfied) + seq(|applied| + 1, _ => false) &&
                cmds == old(cmds) + [NewCommand(name, funcName, |applied| + 1, old(|params|))]
    {
      if main.Root? {
        return Failure(MainAlreadyAssigned);
      }
      var id := AddCommand(name, funcName, applied);
      main := Root(id);
      r := Success(id);
    }

    /** `Command.subcommand`: a new command registered under its name in the
        parent's subcommands, replacing any earlier one of that name. */
    method Subcommand(parent: nat, name: string, funcName: string, applied: seq<Param>) returns (id: nat)
      requires Valid() && parent < |cmds|
      modifies this`params, this`satisfied, this`cmds
      ensures Valid()
      ensures id == old(|cmds|)
      ensures params == old(params) + CommandParams(applied)
      ensures satisfied == old(satisfied) + seq(|applied| + 1, _ => false)
      ensures cmds == old(cmds)[parent := Register(old(cmds[parent]), CommandName(name, funcName), id)] +
                      [NewCommand(name, funcName, |applied| + 1, old(|params|))]
    {
      id := AddCommand(name, funcName, applied);
      ghost var t0 := Def();
      assert CmdValid(t0, parent);
      cmds := cmds[parent := Register(cmds[parent], CommandName(name, funcName), id)];
      ghost var t := Def();
      forall c | 0 <= c < |t.cmds|
        ensures CmdValid(t, c)
      {
        assert CmdValid(t0, c);
      }
      assert forall c :: 0 <= c < |t.cmds| ==> t.cmds[c].params == t0.cmds[c].params;
    }

    /** `Parameter.reset` */
    method ResetParam(id: nat)
      requires Valid() && id < |satisfied|
      modifies this`satisfied
      ensures Valid() && satisfied == old(satisfied)[id := false]
    {
      satisfied := satisfied[id := false];
    }

    /** `Parameter.post_consume`: the parameter is satisfied, and its callback,
        if any, is called with the consumed value. */
    method PostConsume(id: nat, v: Value)
      requires Valid() && id < |params|
      modifies this`satisfied, this`log
      ensures Valid()
      ensures satisfied == old(satisfied)[id := true]
      ensures log == Notify(params[id], id, v, old(log))
    {
      satisfied := satisfied[id := true];
      if params[id].callback {
        log := log + [ParamCallback(id, v)];
      }
    }

    /** `consume` of Argument, Option and Flag: the slice, then `post_consume`
        when the slice did not fail. */
    method ConsumeParam(id: nat, tokens: seq<string>) returns (r: Result<Consumed>)
      requires Valid() && id < |params|
      modifies this`satisfied, this`log
      ensures Valid()
      ensures r == Slice(params[id], tokens)
      ensures r.Failure? ==> satisfied == old(satisfied) && log == old(log)
      ensures r.Success? ==> satisfied == old(satisfied)[id := true] &&
                             log == Notify(params[id], id, r.value.value, old(log))
    {
      r := Slice(params[id], tokens);
      if r.Success? {
        PostConsume(id, r.value.value);
      }
    }

    /** `Command.parse` of command `c`. */
    method ParseCommand(c: nat, tokens0: seq<string>) returns (r: Result<map<string, Value>>)
      requires Valid() && c < |cmds|
      modifies this`satisfied, this`log
      ensures Valid()
      ensures Outcome(r, satisfied, log) == Command.Parse(Def(), c, tokens0, old(satisfied), old(log))
      decreases |tokens0|
    {
      assert CmdValid(Def(), c);
      var cmd := cmds[c];
      ghost var goal := Command.Parse(Def(), c, tokens0, satisfied, log);
      var tokens := tokens0;
      var parsed: map<string, Value> := map[];
      while tokens != []
        invariant Valid() && |tokens| <= |tokens0|
        invariant Scan(Def(), c, tokens, satisfied, parsed, log) == goal
        decreases |tokens|
      {
        var token := tokens[0];
        tokens := tokens[1..];
        if token in cmd.subIds {
          var sub := ParseCommand(cmd.subIds[token], tokens);
          if sub.Failure? {
            return sub;
          }
          parsed := parsed[token := Nested(sub.value)];
          assert goal == Finish(Def(), c, parsed, satisfied, log);
          break;
        } else if StartsWith(token, "-") {
          var f := FindDeclaring(params, cmd.params, token);
          if f.Found? {
            var id := cmd.params[f.index];
            var res := ConsumeParam(id, tokens);
            if res.Failure? {
              return Failure(res.error);
            }
            tokens := res.value.rest;
            parsed := Store(params[id], res.value.value, parsed);
          }
        } else {
          var f := FindOpenArgument(params, satisfied, cmd.params);
          if f.NotFound? {
            return Failure(WeirdToken(token));
          }
          var id := cmd.params[f.index];
          var res := ConsumeParam(id, [token] + tokens);
          if res.Failure? {
            return Failure(res.error);
          }
          tokens := res.value.rest;
          parsed := Store(params[id], res.value.value, parsed);
        }
      }
      assert goal == Finish(Def(), c, parsed, satisfied, log);
      r := Success(parsed + Defaults(params, satisfied, cmd.params));
    }

    /** `Command.invoke`: this command's function with the entries that are not
        subcommands, then each subcommand named in `parsed`. */
    method InvokeCommand(c: nat, parsed: map<string, Value>) returns (s: Status)
      requires Valid() && c < |cmds|
      modifies this`log
      ensures Valid()
      ensures Report(s, log) == Command.Invoke(Def(), c, parsed, old(log))
      decreases |cmds| - c
    {
      assert CmdValid(Def(), c);
      var cmd := cmds[c];
      ghost var goal := Command.Invoke(Def(), c, parsed, log);
      log := log + [Called(c, OwnArgs(cmd, parsed))];
      var i := 0;
      while i < |cmd.subNames|
        invariant i <= |cmd.subNames|
        invariant InvokeSubs(Def(), c, parsed, cmd.subNames[i..], log) == goal
      {
        var k := cmd.subNames[i];
        assert cmd.subNames[i..][1..] == cmd.subNames[i + 1..];
        if k in parsed {
          match parsed[k]
          case Nested(m) =>
            s := InvokeCommand(cmd.subIds[k], m);
            if s.Err? {
              return;
            }
          case _ =>
            return Err(NotAMapping(k));
        }
        i := i + 1;
      }
      return Ok;
    }

    /** `Command.reset`: this command's parameters, then every subcommand's,
        recursively, whether or not the last parse went there. */
    method ResetCommand(c: nat)
      requires Valid() && c < |cmds|
      modifies this`satisfied
      ensures Valid() && |satisfied| == |old(satisfied)|
      ensures forall q :: 0 <= q < |satisfied| ==>
                satisfied[q] == (old(satisfied)[q] && q !in ReachableParams(Def(), c))
      decreases |cmds| - c
    {
      assert CmdValid(Def(), c);
      var cmd := cmds[c];
      var i := 0;
      while i < |cmd.params|
        invariant i <= |cmd.params| && Valid() && |satisfied| == |old(satisfied)|
        invariant forall q :: 0 <= q < |satisfied| ==>
                    satisfied[q] == (old(satisfied)[q] && q !in cmd.params[..i])
      {
        ResetParam(cmd.params[i]);
        assert cmd.params[..i + 1] == cmd.params[..i] + [cmd.params[i]];
        i := i + 1;
      }
      assert cmd.params[..i] == cmd.params;
      var j := 0;
      while j < |cmd.subNames|
        invariant j <= |cmd.subNames| && Valid() && |satisfied| == |old(satisfied)|
        invariant forall q :: 0 <= q < |satisfied| ==>
                    satisfied[q] == (old(satisfied)[q] && q !in cmd.params &&
                                     q !in SubtreeParams(Def(), c, cmd.subNames[..j]))
      {
        ResetCommand(cmd.subIds[cmd.subNames[j]]);
        assert cmd.subNames[..j + 1][..j] == cmd.subNames[..j];
        j := j + 1;
      }
      assert cmd.subNames[..j] == cmd.subNames;
    }

    /** `App.parse`: expand clustered short options, then parse with the main command. */
    method Parse(tokens: seq<string>) returns (r: Result<map<string, Value>>)
      requires Valid()
      modifies this`satisfied, this`log
      ensures Valid()
      ensures main.NoRoot? ==> r == Failure(NoMain) && satisfied == old(satisfied) && log == old(log)
      ensures main.Root? ==>
                Outcome(r, satisfied, log) == Command.Parse(Def(), main.id, Expand(tokens), old(satisfied), old(log))
    {
      var expanded := Expand(tokens);
      if main.NoRoot? {
        return Failure(NoMain);
      }
      r := ParseCommand(main.id, expanded);
    }

    /** `App.invoke` */
    method Invoke(parsed: map<string, Value>) returns (s: Status)
      requires Valid()
      modifies this`log
      ensures Valid()
      ensures main.NoRoot? ==> s == Err(NoMain) && log == old(log)
      ensures main.Root? ==> Report(s, log) == Command.Invoke(Def(), main.id, parsed, old(log))
    {
      if main.NoRoot? {
        return Err(NoMain);
      }
      s := InvokeCommand(main.id, parsed);
    }

    /** `App.reset` */
    method Reset() returns (s: Status)
      requires Valid()
      modifies this`satisfied
      ensures Valid() && |satisfied| == |old(satisfied)|
      ensures main.NoRoot? ==> s == Err(NoMain) && satisfied == old(satisfied)
      ensures main.Root? ==> s == Ok
      ensures main.Root? ==>
                forall q :: 0 <= q < |satisfied| ==>
                  satisfied[q] == (old(satisfied)[q] && q !in ReachableParams(Def(), main.id))
    {
      if main.NoRoot? {
        return Err(NoMain);
      }
      ResetCommand(main.id);
      s := Ok;
    }

    /** `App.run(tokens)`: parse, invoke, and then reset so that the application
        can run again; an error stops it before the reset. */
    method Run(tokens: seq<string>) returns (s: Status)
      requires Valid()
      modifies this`satisfied, this`log
      ensures Valid()
      ensures main.NoRoot? ==> s == Err(NoMain) && satisfied == old(satisfied) && log == old(log)
      ensures main.Root? ==>
                var o := Command.Parse(Def(), main.id, Expand(tokens), old(satisfied), old(log));
                if o.result.Failure? then
                  s == Err(o.result.error) && satisfied == o.sat && log == o.log
                else
                  var v := Command.Invoke(Def(), main.id, o.result.value, o.log);
                  log == v.log &&
                  (v.Aborted? ==> s == Err(v.error) && satisfied == o.sat) &&
                  (v.Done? ==> s == Ok && |satisfied| == |o.sat| &&
                               (forall q :: 0 <= q < |satisfied| ==>
                                  satisfied[q] == (o.sat[q] && q !in ReachableParams(Def(), main.id))))
    {
      var r := Parse(tokens);
      if r.Failure? {
        return Err(r.error);
      }
      s := Invoke(r.value);
      if s.Err? {
        return;
      }
      s := Reset();
    }
  }
}
