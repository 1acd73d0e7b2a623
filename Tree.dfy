/**
 * Facts about the arena itself: what a command's defaults, its free
 * arguments and its reachable parameters are, independent of any parse.
 */
module TreeFacts {
  import opened Values
  import opened Parameter
  import opened Command

  /** Pass 2 fills exactly the names of the unsatisfied, non-hidden parameters. */
  lemma {:induction false} DefaultsKeys(ps: seq<Param>, sat: seq<bool>, ids: seq<nat>, k: string)
    requires Indexes(ids, |ps|) && |sat| == |ps|
    ensures k in Defaults(ps, sat, ids) <==>
            exists i :: 0 <= i < |ids| && Unfilled(ps, sat, ids[i]) && ps[ids[i]].name == k
  {
    if ids != [] {
      var front := ids[..|ids| - 1];
      DefaultsKeys(ps, sat, front, k);
      assert forall i :: 0 <= i < |front| ==> front[i] == ids[i];
      var last := |ids| - 1;
      if k in Defaults(ps, sat, ids) && !(k in Defaults(ps, sat, front)) {
        assert Unfilled(ps, sat, ids[last]) && ps[ids[last]].name == k;
      }
    }
  }

  /** The value pass 2 gives a name is the default of the last parameter with that name. */
  lemma {:induction false} DefaultsLast(ps: seq<Param>, sat: seq<bool>, ids: seq<nat>, i: nat)
    requires Indexes(ids, |ps|) && |sat| == |ps|
    requires i < |ids| && Unfilled(ps, sat, ids[i])
    requires forall j :: i < j < |ids| && Unfilled(ps, sat, ids[j]) ==> ps[ids[j]].name != ps[ids[i]].name
    ensures ps[ids[i]].name in Defaults(ps, sat, ids)
    ensures Defaults(ps, sat, ids)[ps[ids[i]].name] == ps[ids[i]].default
  {
    var last := |ids| - 1;
    if i < last {
      var front := ids[..last];
      assert forall j :: 0 <= j < |front| ==> front[j] == ids[j];
      DefaultsLast(ps, sat, front, i);
    }
  }

  /** When every listed parameter is satisfied or hidden, pass 2 adds nothing. */
  lemma {:induction false} DefaultsNone(ps: seq<Param>, sat: seq<bool>, ids: seq<nat>)
    requires Indexes(ids, |ps|) && |sat| == |ps|
    requires forall i :: 0 <= i < |ids| ==> !Unfilled(ps, sat, ids[i])
    ensures Defaults(ps, sat, ids) == map[]
  {
    if ids != [] {
      var front := ids[..|ids| - 1];
      assert forall i :: 0 <= i < |front| ==> front[i] == ids[i];
      DefaultsNone(ps, sat, front);
    }
  }

  /** When exactly one listed parameter is unsatisfied and visible, pass 2 adds
      its default under its name and nothing else. */
  lemma {:induction false} DefaultsOnly(ps: seq<Param>, sat: seq<bool>, ids: seq<nat>, i: nat)
    requires Indexes(ids, |ps|) && |sat| == |ps| && i < |ids|
    requires Unfilled(ps, sat, ids[i])
    requires forall j :: 0 <= j < |ids| && j != i ==> !Unfilled(ps, sat, ids[j])
    ensures Defaults(ps, sat, ids) == map[ps[ids[i]].name := ps[ids[i]].default]
  {
    var front := ids[..|ids| - 1];
    assert forall j :: 0 <= j < |front| ==> front[j] == ids[j];
    if i == |ids| - 1 {
      DefaultsNone(ps, sat, front);
    } else {
      DefaultsOnly(ps, sat, front, i);
    }
  }

  /** Pass 2 reads the satisfied flags of the listed parameters only. */
  lemma {:induction false} DefaultsAgree(ps: seq<Param>, sat1: seq<bool>, sat2: seq<bool>, ids: seq<nat>)
    requires Indexes(ids, |ps|) && |sat1| == |ps| && |sat2| == |ps|
    requires forall i :: 0 <= i < |ids| ==> sat1[ids[i]] == sat2[ids[i]]
    ensures Defaults(ps, sat1, ids) == Defaults(ps, sat2, ids)
  {
    if ids != [] {
      var front := ids[..|ids| - 1];
      assert forall i :: 0 <= i < |front| ==> front[i] == ids[i];
      DefaultsAgree(ps, sat1, sat2, front);
    }
  }

  /** The choice of the next free Argument reads the satisfied flags of the listed parameters only. */
  lemma {:induction false} FirstOpenArgumentAgree(ps: seq<Param>, sat1: seq<bool>, sat2: seq<bool>, ids: seq<nat>)
    requires Indexes(ids, |ps|) && |sat1| == |ps| && |sat2| == |ps|
    requires forall i :: 0 <= i < |ids| ==> sat1[ids[i]] == sat2[ids[i]]
    ensures FirstOpenArgument(ps, sat1, ids) == FirstOpenArgument(ps, sat2, ids)
  {
    if ids != [] {
      FirstOpenArgumentAgree(ps, sat1, sat2, ids[1..]);
    }
  }

  /** The first parameter that declares the token is the one the dash-token
      loop stops at: its properties determine the search's answer. */
  lemma {:induction false} FirstDeclaringAt(ps: seq<Param>, ids: seq<nat>, token: string, i: nat)
    requires Indexes(ids, |ps|) && i < |ids|
    requires token in ps[ids[i]].decls
    requires forall j :: 0 <= j < i ==> token !in ps[ids[j]].decls
    ensures FirstDeclaring(ps, ids, token) == Found(i)
  {
    if i > 0 {
      FirstDeclaringAt(ps, ids[1..], token, i - 1);
    }
  }

  /** Likewise the first unsatisfied Argument is the one the positional loop stops at. */
  lemma {:induction false} FirstOpenArgumentAt(ps: seq<Param>, sat: seq<bool>, ids: seq<nat>, i: nat)
    requires Indexes(ids, |ps|) && |sat| == |ps| && i < |ids|
    requires OpenArgument(ps, sat, ids[i])
    requires forall j :: 0 <= j < i ==> !OpenArgument(ps, sat, ids[j])
    ensures FirstOpenArgument(ps, sat, ids) == Found(i)
  {
    if i > 0 {
      FirstOpenArgumentAt(ps, sat, ids[1..], i - 1);
    }
  }

  /** A command's own parameters are among those its reset clears. */
  lemma OwnReachable(t: Tree, c: nat, i: nat)
    requires Valid(t) && c < |t.cmds| && i < |t.cmds[c].params|
    ensures t.cmds[c].params[i] in ReachableParams(t, c)
  {
    assert t.cmds[c].params[i] in (set id | id in t.cmds[c].params);
  }

  /** Resetting a command clears everything resetting one of its subcommands does. */
  lemma SubReachable(t: Tree, c: nat, k: string)
    requires Valid(t) && c < |t.cmds|
    requires k in t.cmds[c].subIds
    ensures t.cmds[c].subIds[k] < |t.cmds|
    ensures ReachableParams(t, t.cmds[c].subIds[k]) <= ReachableParams(t, c)
  {
    assert CmdValid(t, c);
    var names := t.cmds[c].subNames;
    var i :| 0 <= i < |names| && names[i] == k;
    SubtreeHas(t, c, names, i);
  }

  lemma {:induction false} SubtreeHas(t: Tree, c: nat, names: seq<string>, i: nat)
    requires Valid(t) && c < |t.cmds|
    requires forall j :: 0 <= j < |names| ==> names[j] in t.cmds[c].subIds
    requires i < |names|
    ensures t.cmds[c].subIds[names[i]] < |t.cmds|
    ensures ReachableParams(t, t.cmds[c].subIds[names[i]]) <= SubtreeParams(t, c, names)
  {
    assert CmdValid(t, c);
    if i < |names| - 1 {
      var front := names[..|names| - 1];
      assert front[i] == names[i];
      SubtreeHas(t, c, front, i);
    }
  }

  /** Every parameter a reset of `d` clears belongs to `d` or to a command created after it. */
  lemma {:induction false} ReachableOwner(t: Tree, d: nat, p: nat)
    requires Valid(t) && d < |t.cmds|
    requires p in ReachableParams(t, d)
    ensures exists e, i :: d <= e < |t.cmds| && 0 <= i < |t.cmds[e].params| && t.cmds[e].params[i] == p
    decreases |t.cmds| - d, 1
  {
    assert CmdValid(t, d);
    if p !in (set id | id in t.cmds[d].params) {
      SubtreeOwner(t, d, t.cmds[d].subNames, p);
    }
  }

  lemma {:induction false} SubtreeOwner(t: Tree, d: nat, names: seq<string>, p: nat)
    requires Valid(t) && d < |t.cmds|
    requires forall j :: 0 <= j < |names| ==> names[j] in t.cmds[d].subIds
    requires p in SubtreeParams(t, d, names)
    ensures exists e, i :: d < e < |t.cmds| && 0 <= i < |t.cmds[e].params| && t.cmds[e].params[i] == p
    decreases |t.cmds| - d, 0, |names|
  {
    assert CmdValid(t, d);
    var front := names[..|names| - 1];
    if p in SubtreeParams(t, d, front) {
      SubtreeOwner(t, d, front, p);
    } else {
      ReachableOwner(t, t.cmds[d].subIds[names[|names| - 1]], p);
    }
  }

  /** A command's own parameters are out of reach of the reset (and the parse)
      of any command created after it, so of any of its subcommands. */
  lemma ParentOutOfReach(t: Tree, c: nat, d: nat, i: nat)
    requires Valid(t) && c < d < |t.cmds| && i < |t.cmds[c].params|
    ensures t.cmds[c].params[i] !in ReachableParams(t, d)
  {
    if t.cmds[c].params[i] in ReachableParams(t, d) {
      ReachableOwner(t, d, t.cmds[c].params[i]);
    }
  }
}
