/**
 * One token of `Command.parse`, case by case, stated through the properties
 * of the parameters rather than through the search loops: an undeclared dash
 * token is dropped, a re-used option overwrites its value, a word fills the
 * first free Argument or, when there is none, the parse fails naming it.
 */
module StepFacts {
  import opened Py
  import opened Values
  import opened Parameter
  import opened Command

  /** A dash token that no parameter of the command declares is skipped, and
      nothing else changes. */
  lemma UnknownDashDropped(t: Tree, c: nat, tokens: seq<string>, sat: seq<bool>,
                           parsed: map<string, Value>, log: seq<Event>)
    requires Valid(t) && c < |t.cmds| && |sat| == |t.params| && CmdValid(t, c)
    requires tokens != [] && tokens[0] !in t.cmds[c].subIds && StartsWith(tokens[0], "-")
    requires forall i :: 0 <= i < |t.cmds[c].params| ==> tokens[0] !in t.params[t.cmds[c].params[i]].decls
    ensures Scan(t, c, tokens, sat, parsed, log) == Scan(t, c, tokens[1..], sat, parsed, log)
  {
    assert FirstDeclaring(t.params, t.cmds[c].params, tokens[0]).NotFound?;
  }

  /** A dash token goes to the first parameter, in declaration order, that
      declares it, whatever its kind and width: that parameter consumes from
      the tokens after it and becomes satisfied, or, when the slice is empty,
      the parse fails with IndexOutOfRange and no state changes. */
  lemma DeclaredConsumes(t: Tree, c: nat, tokens: seq<string>, sat: seq<bool>,
                         parsed: map<string, Value>, log: seq<Event>, i: nat)
    requires Valid(t) && c < |t.cmds| && |sat| == |t.params| && CmdValid(t, c)
    requires i < |t.cmds[c].params|
    requires tokens != [] && tokens[0] !in t.cmds[c].subIds && StartsWith(tokens[0], "-")
    requires tokens[0] in t.params[t.cmds[c].params[i]].decls
    requires forall j :: 0 <= j < i ==> tokens[0] !in t.params[t.cmds[c].params[j]].decls
    ensures var id := t.cmds[c].params[i];
            var p := t.params[id];
            var r := Slice(p, tokens[1..]);
            (r.Success? ==>
               Scan(t, c, tokens, sat, parsed, log) ==
               Scan(t, c, r.value.rest, sat[id := true], Store(p, r.value.value, parsed),
                    Notify(p, id, r.value.value, log))) &&
            (r.Failure? ==> Scan(t, c, tokens, sat, parsed, log) == Outcome(Failure(IndexOutOfRange), sat, log))
  {
    assert FirstDeclaring(t.params, t.cmds[c].params, tokens[0]) == Found(i);
  }

  /** An option that was already satisfied is matched again by the first
      parameter declaring the token, at any width: it stays satisfied and the
      new value replaces the old one under its name. */
  lemma OptionRematched(t: Tree, c: nat, tokens: seq<string>, sat: seq<bool>,
                        parsed: map<string, Value>, log: seq<Event>, i: nat)
    requires Valid(t) && c < |t.cmds| && |sat| == |t.params| && CmdValid(t, c)
    requires i < |t.cmds[c].params|
    requires var p := t.params[t.cmds[c].params[i]];
             p.kind == Option && !p.hidden
    requires tokens != [] && tokens[0] !in t.cmds[c].subIds && StartsWith(tokens[0], "-")
    requires tokens[0] in t.params[t.cmds[c].params[i]].decls
    requires forall j :: 0 <= j < i ==> tokens[0] !in t.params[t.cmds[c].params[j]].decls
    requires sat[t.cmds[c].params[i]]
    ensures var id := t.cmds[c].params[i];
            var p := t.params[id];
            var r := Slice(p, tokens[1..]);
            (r.Success? ==>
               Scan(t, c, tokens, sat, parsed, log) ==
               Scan(t, c, r.value.rest, sat, parsed[p.name := r.value.value], Notify(p, id, r.value.value, log))) &&
            (r.Failure? ==> Scan(t, c, tokens, sat, parsed, log) == Outcome(Failure(IndexOutOfRange), sat, log))
  {
    var id := t.cmds[c].params[i];
    DeclaredConsumes(t, c, tokens, sat, parsed, log, i);
    assert sat[id := true] == sat;
  }

  /** A word that is neither a subcommand nor a dash token goes to the first
      Argument, in declaration order, that is not yet satisfied, whatever its
      width: the Argument consumes from the word on and becomes satisfied, or,
      when the slice is empty, the parse fails with IndexOutOfRange. */
  lemma PositionalFills(t: Tree, c: nat, tokens: seq<string>, sat: seq<bool>,
                        parsed: map<string, Value>, log: seq<Event>, i: nat)
    requires Valid(t) && c < |t.cmds| && |sat| == |t.params| && CmdValid(t, c)
    requires tokens != [] && tokens[0] !in t.cmds[c].subIds && !StartsWith(tokens[0], "-")
    requires i < |t.cmds[c].params| && OpenArgument(t.params, sat, t.cmds[c].params[i])
    requires forall j :: 0 <= j < i ==> !OpenArgument(t.params, sat, t.cmds[c].params[j])
    ensures var id := t.cmds[c].params[i];
            var p := t.params[id];
            var r := Slice(p, tokens);
            (r.Success? ==>
               Scan(t, c, tokens, sat, parsed, log) ==
               Scan(t, c, r.value.rest, sat[id := true], Store(p, r.value.value, parsed),
                    Notify(p, id, r.value.value, log))) &&
            (r.Failure? ==> Scan(t, c, tokens, sat, parsed, log) == Outcome(Failure(IndexOutOfRange), sat, log))
  {
    assert FirstOpenArgument(t.params, sat, t.cmds[c].params) == Found(i);
    assert [tokens[0]] + tokens[1..] == tokens;
  }

  /** With every Argument satisfied, a word that is neither a subcommand nor a
      dash token ends the parse with an error naming it, state unchanged. */
  lemma NoOpenArgument(t: Tree, c: nat, tokens: seq<string>, sat: seq<bool>,
                       parsed: map<string, Value>, log: seq<Event>)
    requires Valid(t) && c < |t.cmds| && |sat| == |t.params| && CmdValid(t, c)
    requires tokens != [] && tokens[0] !in t.cmds[c].subIds && !StartsWith(tokens[0], "-")
    requires forall j :: 0 <= j < |t.cmds[c].params| ==> !OpenArgument(t.params, sat, t.cmds[c].params[j])
    ensures Scan(t, c, tokens, sat, parsed, log) == Outcome(Failure(WeirdToken(tokens[0])), sat, log)
  {
    assert FirstOpenArgument(t.params, sat, t.cmds[c].params).NotFound?;
  }
}
