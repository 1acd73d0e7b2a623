/**
 * What `Command.invoke` does with a parse result: the command's function is
 * called first, with the entries that are not subcommands, and then the one
 * subcommand named in the result is invoked with its nested mapping.
 */
module InvokeFacts {
  import opened Values
  import opened Command

  /** Subcommand names absent from the result are passed over without a call. */
  lemma {:induction false} InvokeSubsNone(t: Tree, c: nat, parsed: map<string, Value>, names: seq<string>, log: seq<Event>)
    requires Valid(t) && c < |t.cmds|
    requires forall i :: 0 <= i < |names| ==> names[i] in t.cmds[c].subIds && names[i] !in parsed
    ensures InvokeSubs(t, c, parsed, names, log) == Done(log)
  {
    if names != [] {
      InvokeSubsNone(t, c, parsed, names[1..], log);
    }
  }

  lemma {:induction false} InvokeSubsOne(t: Tree, c: nat, parsed: map<string, Value>, names: seq<string>,
                                         log: seq<Event>, k: string)
    requires Valid(t) && c < |t.cmds| && CmdValid(t, c)
    requires forall i :: 0 <= i < |names| ==> names[i] in t.cmds[c].subIds
    requires k in names && k in parsed && parsed[k].Nested?
    requires forall i :: 0 <= i < |names| && names[i] in parsed ==> names[i] == k
    requires forall i, j :: 0 <= i < j < |names| ==> names[i] != names[j]
    ensures InvokeSubs(t, c, parsed, names, log) == Invoke(t, t.cmds[c].subIds[k], parsed[k].fields, log)
    decreases |names|
  {
    if names[0] == k {
      var r := Invoke(t, t.cmds[c].subIds[k], parsed[k].fields, log);
      if r.Done? {
        assert forall i :: 1 <= i < |names| ==> names[i] != names[0];
        InvokeSubsNone(t, c, parsed, names[1..], r.log);
        assert InvokeSubs(t, c, parsed, names, log) == InvokeSubs(t, c, parsed, names[1..], r.log);
      }
    } else {
      InvokeSubsOne(t, c, parsed, names[1..], log, k);
    }
  }

  /** With exactly one subcommand key in the result, invoking the command calls
      its own function with the other entries and then invokes that subcommand
      with the nested mapping: parent first, child after. */
  lemma InvokeParentThenChild(t: Tree, c: nat, parsed: map<string, Value>, log: seq<Event>, k: string)
    requires Valid(t) && c < |t.cmds| && CmdValid(t, c)
    requires k in t.cmds[c].subIds && k in parsed && parsed[k].Nested?
    requires forall k' :: k' in parsed && k' in t.cmds[c].subIds ==> k' == k
    ensures Invoke(t, c, parsed, log) ==
            Invoke(t, t.cmds[c].subIds[k], parsed[k].fields, log + [Called(c, OwnArgs(t.cmds[c], parsed))])
  {
    InvokeSubsOne(t, c, parsed, t.cmds[c].subNames, log + [Called(c, OwnArgs(t.cmds[c], parsed))], k);
  }

  /** With no subcommand key in the result, only the command's own function is called. */
  lemma InvokeLeaf(t: Tree, c: nat, parsed: map<string, Value>, log: seq<Event>)
    requires Valid(t) && c < |t.cmds| && CmdValid(t, c)
    requires forall k :: k in parsed ==> k !in t.cmds[c].subIds
    ensures Invoke(t, c, parsed, log) == Done(log + [Called(c, parsed)])
  {
    InvokeSubsNone(t, c, parsed, t.cmds[c].subNames, log + [Called(c, OwnArgs(t.cmds[c], parsed))]);
    assert OwnArgs(t.cmds[c], parsed) == parsed;
  }
}
