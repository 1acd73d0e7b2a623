/**
 * What the mapping returned by `Command.parse` holds: which keys, which
 * default values, what a flag maps to, what a subcommand handoff stores, and
 * which token a "weird token" failure names.
 */
module ResultFacts {
  import opened Py
  import opened Values
  import opened Parameter
  import opened Command
  import opened TreeFacts
  import opened ParseFacts

  /** `k` is the name of a non-hidden parameter among `ids`. */
  ghost predicate NamedBy(ps: seq<Param>, ids: seq<nat>, k: string)
    requires Indexes(ids, |ps|)
  {
    exists i :: 0 <= i < |ids| && !ps[ids[i]].hidden && ps[ids[i]].name == k
  }

  /** Every satisfied, non-hidden parameter among `ids` has stored its value under its name. */
  ghost predicate Covered(ps: seq<Param>, ids: seq<nat>, sat: seq<bool>, parsed: map<string, Value>)
    requires Indexes(ids, |ps|) && |sat| == |ps|
  {
    forall i :: 0 <= i < |ids| && !ps[ids[i]].hidden && sat[ids[i]] ==> ps[ids[i]].name in parsed
  }

  /** The keys of a result: every non-hidden parameter name, and besides those
      at most one more key, which is a subcommand name. */
  ghost predicate ResultShape(ps: seq<Param>, ids: seq<nat>, subs: set<string>, r: map<string, Value>)
    requires Indexes(ids, |ps|)
  {
    (forall i :: 0 <= i < |ids| && !ps[ids[i]].hidden ==> ps[ids[i]].name in r) &&
    (forall k :: k in r ==> NamedBy(ps, ids, k) || k in subs) &&
    (forall k1, k2 :: k1 in r && k2 in r && !NamedBy(ps, ids, k1) && !NamedBy(ps, ids, k2) ==> k1 == k2)
  }

  lemma FinishShape(t: Tree, c: nat, parsed: map<string, Value>, sat: seq<bool>, extra: seq<string>)
    requires Valid(t) && c < |t.cmds| && |sat| == |t.params|
    requires CmdValid(t, c)
    requires Covered(t.params, t.cmds[c].params, sat, parsed)
    requires |extra| <= 1 && forall k :: k in extra ==> k in t.cmds[c].subIds
    requires forall k :: k in parsed ==> NamedBy(t.params, t.cmds[c].params, k) || k in extra
    ensures ResultShape(t.params, t.cmds[c].params, t.cmds[c].subIds.Keys, Finish(t, c, parsed, sat, []).result.value)
  {
    var ps, ids := t.params, t.cmds[c].params;
    var d := Defaults(ps, sat, ids);
    var r := parsed + d;
    assert Finish(t, c, parsed, sat, []).result.value == r;
    forall i | 0 <= i < |ids| && !ps[ids[i]].hidden
      ensures ps[ids[i]].name in r
    {
      if !sat[ids[i]] {
        DefaultsKeys(ps, sat, ids, ps[ids[i]].name);
      }
    }
    forall k | k in r
      ensures NamedBy(ps, ids, k) || k in extra
    {
      if k !in parsed {
        DefaultsKeys(ps, sat, ids, k);
      }
    }
    forall k1, k2 | k1 in r && k2 in r && !NamedBy(ps, ids, k1) && !NamedBy(ps, ids, k2)
      ensures k1 == k2
    {
      assert k1 in extra && k2 in extra;
      assert k1 == extra[0] && k2 == extra[0];
    }
  }

  /** After a parse that starts with this command's parameters unsatisfied, every
      non-hidden parameter name is a key (its consumed value or its default), and
      the only other key is the name of the subcommand that took over, if any. */
  lemma ResultKeys(t: Tree, c: nat, tokens: seq<string>, sat: seq<bool>, log: seq<Event>)
    requires Valid(t) && c < |t.cmds| && |sat| == |t.params| && CmdValid(t, c)
    requires forall i :: 0 <= i < |t.cmds[c].params| ==> !sat[t.cmds[c].params[i]]
    ensures var o := Parse(t, c, tokens, sat, log);
            o.result.Success? ==> ResultShape(t.params, t.cmds[c].params, t.cmds[c].subIds.Keys, o.result.value)
  {
    assert CmdValid(t, c);
    ScanKeys(t, c, tokens, sat, map[], log);
  }

  lemma {:induction false} ScanKeys(t: Tree, c: nat, tokens: seq<string>, sat: seq<bool>,
                                    parsed: map<string, Value>, log: seq<Event>)
    requires Valid(t) && c < |t.cmds| && |sat| == |t.params|
    requires CmdValid(t, c)
    requires Covered(t.params, t.cmds[c].params, sat, parsed)
    requires forall k :: k in parsed ==> NamedBy(t.params, t.cmds[c].params, k)
    ensures KeysResult(t, c, Scan(t, c, tokens, sat, parsed, log))
    decreases |tokens|, 1
  {
    var cmd := t.cmds[c];
    var ids := cmd.params;
    if tokens == [] {
      FinishShape(t, c, parsed, sat, []);
    } else if tokens[0] in cmd.subIds {
      var token, rest := tokens[0], tokens[1..];
      var d := cmd.subIds[token];
      var sub := Scan(t, d, rest, sat, map[], log);
      if sub.result.Success? {
        forall i | 0 <= i < |ids|
          ensures sub.sat[ids[i]] == sat[ids[i]]
        {
          ParentOutOfReach(t, c, d, i);
          ScanFrame(t, d, rest, sat, map[], log, ids[i]);
        }
        FinishShape(t, c, parsed[token := Nested(sub.result.value)], sub.sat, [token]);
      }
    } else if StartsWith(tokens[0], "-") {
      ScanKeysDash(t, c, tokens, sat, parsed, log);
    } else {
      ScanKeysWord(t, c, tokens, sat, parsed, log);
    }
  }

  /** The conclusion of `ResultKeys` for an outcome of command `c`. */
  ghost predicate KeysResult(t: Tree, c: nat, o: Outcome)
    requires Valid(t) && c < |t.cmds| && CmdValid(t, c)
  {
    o.result.Success? ==> ResultShape(t.params, t.cmds[c].params, t.cmds[c].subIds.Keys, o.result.value)
  }

  lemma {:induction false} ScanKeysDash(t: Tree, c: nat, tokens: seq<string>, sat: seq<bool>,
                                        parsed: map<string, Value>, log: seq<Event>)
    requires Valid(t) && c < |t.cmds| && |sat| == |t.params|
    requires CmdValid(t, c)
    requires Covered(t.params, t.cmds[c].params, sat, parsed)
    requires forall k :: k in parsed ==> NamedBy(t.params, t.cmds[c].params, k)
    requires tokens != [] && tokens[0] !in t.cmds[c].subIds && StartsWith(tokens[0], "-")
    ensures KeysResult(t, c, Scan(t, c, tokens, sat, parsed, log))
    decreases |tokens|, 0
  {
    var ps, ids := t.params, t.cmds[c].params;
    var rest := tokens[1..];
    match FirstDeclaring(ps, ids, tokens[0])
    case NotFound => ScanKeys(t, c, rest, sat, parsed, log);
    case Found(i) =>
      var id := ids[i];
      var p := ps[id];
      match Slice(p, rest)
      case Failure(_) =>
      case Success(r) =>
        StepKeys(t, c, i, r.value, sat, parsed);
        ScanKeys(t, c, r.rest, sat[id := true], Store(p, r.value, parsed), Notify(p, id, r.value, log));
  }

  lemma {:induction false} ScanKeysWord(t: Tree, c: nat, tokens: seq<string>, sat: seq<bool>,
                                        parsed: map<string, Value>, log: seq<Event>)
    requires Valid(t) && c < |t.cmds| && |sat| == |t.params|
    requires CmdValid(t, c)
    requires Covered(t.params, t.cmds[c].params, sat, parsed)
    requires forall k :: k in parsed ==> NamedBy(t.params, t.cmds[c].params, k)
    requires tokens != [] && tokens[0] !in t.cmds[c].subIds && !StartsWith(tokens[0], "-")
    ensures KeysResult(t, c, Scan(t, c, tokens, sat, parsed, log))
    decreases |tokens|, 0
  {
    var ps, ids := t.params, t.cmds[c].params;
    assert [tokens[0]] + tokens[1..] == tokens;
    match FirstOpenArgument(ps, sat, ids)
    case NotFound =>
    case Found(i) =>
      var id := ids[i];
      var p := ps[id];
      match Slice(p, tokens)
      case Failure(_) =>
      case Success(r) =>
        StepKeys(t, c, i, r.value, sat, parsed);
        ScanKeys(t, c, r.rest, sat[id := true], Store(p, r.value, parsed), Notify(p, id, r.value, log));
  }

  lemma StepKeys(t: Tree, c: nat, i: nat, v: Value, sat: seq<bool>, parsed: map<string, Value>)
    requires Valid(t) && c < |t.cmds| && |sat| == |t.params|
    requires CmdValid(t, c) && i < |t.cmds[c].params|
    requires Covered(t.params, t.cmds[c].params, sat, parsed)
    requires forall k :: k in parsed ==> NamedBy(t.params, t.cmds[c].params, k)
    ensures var id := t.cmds[c].params[i];
            var parsed' := Store(t.params[id], v, parsed);
            Covered(t.params, t.cmds[c].params, sat[id := true], parsed') &&
            forall k :: k in parsed' ==> NamedBy(t.params, t.cmds[c].params, k)
  {
  }

  /** Parameter `i` of command `c` is a visible flag defaulting to `False` whose
      name no other parameter of `c` and no subcommand of `c` uses. */
  ghost predicate LoneFlag(t: Tree, c: nat, i: nat)
    requires Valid(t) && c < |t.cmds| && CmdValid(t, c) && i < |t.cmds[c].params|
  {
    var p := t.params[t.cmds[c].params[i]];
    p.kind == Flag && p.default == Bool(false) && !p.hidden && p.name !in t.cmds[c].subIds &&
    forall j :: 0 <= j < |t.cmds[c].params| && j != i ==> t.params[t.cmds[c].params[j]].name != p.name
  }

  /** `s` is what is left of `whole` after some prefix of it has been read. */
  ghost predicate IsSuffix(s: seq<string>, whole: seq<string>)
  {
    |s| <= |whole| && whole[|whole| - |s|..] == s
  }

  lemma SuffixTrans(s1: seq<string>, s2: seq<string>, whole: seq<string>)
    requires IsSuffix(s1, s2) && IsSuffix(s2, whole)
    ensures IsSuffix(s1, whole)
  {
    assert whole[|whole| - |s1|..] == whole[|whole| - |s2|..][|s2| - |s1|..];
  }

  /** Parameter `i` of command `c` is visible and its name is used by no other
      parameter of `c` and by no subcommand of `c`. */
  ghost predicate LoneParam(t: Tree, c: nat, i: nat)
    requires Valid(t) && c < |t.cmds| && CmdValid(t, c) && i < |t.cmds[c].params|
  {
    var p := t.params[t.cmds[c].params[i]];
    !p.hidden && p.name !in t.cmds[c].subIds &&
    forall j :: 0 <= j < |t.cmds[c].params| && j != i ==> t.params[t.cmds[c].params[j]].name != p.name
  }

  /** `v` is what the parameter consumes when it is handed some suffix of `whole`. */
  ghost predicate ConsumedFrom(p: Param, whole: seq<string>, v: Value)
  {
    exists s :: IsSuffix(s, whole) && Slice(p, s).Success? && v == Slice(p, s).value.value
  }

  /** While scanning: the parameter's name is stored exactly when it is
      satisfied, and what is stored was consumed from the input. */
  ghost predicate ValueStored(t: Tree, c: nat, i: nat, whole: seq<string>, sat: seq<bool>, parsed: map<string, Value>)
    requires Valid(t) && c < |t.cmds| && CmdValid(t, c) && i < |t.cmds[c].params| && |sat| == |t.params|
  {
    var id := t.cmds[c].params[i];
    var p := t.params[id];
    (p.name in parsed <==> sat[id]) && (p.name in parsed ==> ConsumedFrom(p, whole, parsed[p.name]))
  }

  /** After a parse in which the parameter starts unsatisfied, its name maps to
      its default if it was never matched, and otherwise to a value it consumed
      from a suffix of the input tokens. */
  lemma ResultValues(t: Tree, c: nat, i: nat, tokens: seq<string>, sat: seq<bool>, log: seq<Event>)
    requires Valid(t) && c < |t.cmds| && |sat| == |t.params|
    requires CmdValid(t, c) && i < |t.cmds[c].params| && LoneParam(t, c, i)
    requires !sat[t.cmds[c].params[i]]
    ensures var o := Parse(t, c, tokens, sat, log);
            var id := t.cmds[c].params[i];
            var p := t.params[id];
            o.result.Success? ==>
              p.name in o.result.value &&
              (!o.sat[id] ==> o.result.value[p.name] == p.default) &&
              (o.sat[id] ==> ConsumedFrom(p, tokens, o.result.value[p.name]))
  {
    assert IsSuffix(tokens, tokens);
    ScanValue(t, c, i, tokens, tokens, sat, map[], log);
  }

  lemma {:induction false} ScanValue(t: Tree, c: nat, i: nat, whole: seq<string>, tokens: seq<string>,
                                     sat: seq<bool>, parsed: map<string, Value>, log: seq<Event>)
    requires Valid(t) && c < |t.cmds| && |sat| == |t.params|
    requires CmdValid(t, c) && i < |t.cmds[c].params| && LoneParam(t, c, i)
    requires IsSuffix(tokens, whole) && ValueStored(t, c, i, whole, sat, parsed)
    ensures ValueResult(t, c, i, whole, Scan(t, c, tokens, sat, parsed, log))
    decreases |tokens|, 1
  {
    var ids := t.cmds[c].params;
    if tokens == [] {
      FinishValue(t, c, i, whole, parsed, sat);
    } else if tokens[0] in t.cmds[c].subIds {
      var d := t.cmds[c].subIds[tokens[0]];
      var sub := Scan(t, d, tokens[1..], sat, map[], log);
      if sub.result.Success? {
        ParentOutOfReach(t, c, d, i);
        ScanFrame(t, d, tokens[1..], sat, map[], log, ids[i]);
        FinishValue(t, c, i, whole, parsed[tokens[0] := Nested(sub.result.value)], sub.sat);
      }
    } else if StartsWith(tokens[0], "-") {
      ScanValueDash(t, c, i, whole, tokens, sat, parsed, log);
    } else {
      ScanValueWord(t, c, i, whole, tokens, sat, parsed, log);
    }
  }

  /** The conclusion of `ResultValues` for an outcome of command `c`. */
  ghost predicate ValueResult(t: Tree, c: nat, i: nat, whole: seq<string>, o: Outcome)
    requires Valid(t) && c < |t.cmds| && CmdValid(t, c) && i < |t.cmds[c].params| && |o.sat| == |t.params|
  {
    var id := t.cmds[c].params[i];
    var p := t.params[id];
    o.result.Success? ==>
      p.name in o.result.value &&
      (!o.sat[id] ==> o.result.value[p.name] == p.default) &&
      (o.sat[id] ==> ConsumedFrom(p, whole, o.result.value[p.name]))
  }

  lemma {:induction false} ScanValueDash(t: Tree, c: nat, i: nat, whole: seq<string>, tokens: seq<string>,
                                         sat: seq<bool>, parsed: map<string, Value>, log: seq<Event>)
    requires Valid(t) && c < |t.cmds| && |sat| == |t.params|
    requires CmdValid(t, c) && i < |t.cmds[c].params| && LoneParam(t, c, i)
    requires IsSuffix(tokens, whole) && ValueStored(t, c, i, whole, sat, parsed)
    requires tokens != [] && tokens[0] !in t.cmds[c].subIds && StartsWith(tokens[0], "-")
    ensures ValueResult(t, c, i, whole, Scan(t, c, tokens, sat, parsed, log))
    decreases |tokens|, 0
  {
    var ps, ids := t.params, t.cmds[c].params;
    var rest := tokens[1..];
    SuffixTrans(rest, tokens, whole);
    match FirstDeclaring(ps, ids, tokens[0])
    case NotFound => ScanValue(t, c, i, whole, rest, sat, parsed, log);
    case Found(j) =>
      var id := ids[j];
      var p := ps[id];
      match Slice(p, rest)
      case Failure(_) =>
      case Success(r) =>
        StepValue(t, c, i, j, whole, rest, sat, parsed);
        SuffixTrans(r.rest, rest, whole);
        ScanValue(t, c, i, whole, r.rest, sat[id := true], Store(p, r.value, parsed), Notify(p, id, r.value, log));
  }

  lemma {:induction false} ScanValueWord(t: Tree, c: nat, i: nat, whole: seq<string>, tokens: seq<string>,
                                         sat: seq<bool>, parsed: map<string, Value>, log: seq<Event>)
    requires Valid(t) && c < |t.cmds| && |sat| == |t.params|
    requires CmdValid(t, c) && i < |t.cmds[c].params| && LoneParam(t, c, i)
    requires IsSuffix(tokens, whole) && ValueStored(t, c, i, whole, sat, parsed)
    requires tokens != [] && tokens[0] !in t.cmds[c].subIds && !StartsWith(tokens[0], "-")
    ensures ValueResult(t, c, i, whole, Scan(t, c, tokens, sat, parsed, log))
    decreases |tokens|, 0
  {
    var ps, ids := t.params, t.cmds[c].params;
    assert [tokens[0]] + tokens[1..] == tokens;
    match FirstOpenArgument(ps, sat, ids)
    case NotFound =>
    case Found(j) =>
      var id := ids[j];
      var p := ps[id];
      match Slice(p, tokens)
      case Failure(_) =>
      case Success(r) =>
        StepValue(t, c, i, j, whole, tokens, sat, parsed);
        SuffixTrans(r.rest, tokens, whole);
        ScanValue(t, c, i, whole, r.rest, sat[id := true], Store(p, r.value, parsed), Notify(p, id, r.value, log));
  }

  /** Storing parameter `j`'s value keeps the invariant for parameter `i`. */
  lemma StepValue(t: Tree, c: nat, i: nat, j: nat, whole: seq<string>, input: seq<string>,
                  sat: seq<bool>, parsed: map<string, Value>)
    requires Valid(t) && c < |t.cmds| && |sat| == |t.params|
    requires CmdValid(t, c) && i < |t.cmds[c].params| && j < |t.cmds[c].params| && LoneParam(t, c, i)
    requires ValueStored(t, c, i, whole, sat, parsed) && IsSuffix(input, whole)
    requires Slice(t.params[t.cmds[c].params[j]], input).Success?
    ensures var id := t.cmds[c].params[j];
            ValueStored(t, c, i, whole, sat[id := true], Store(t.params[id], Slice(t.params[id], input).value.value, parsed))
  {
    var id := t.cmds[c].params[j];
    var p := t.params[t.cmds[c].params[i]];
    if j == i {
      assert ConsumedFrom(p, whole, Slice(p, input).value.value);
    } else {
      assert id != t.cmds[c].params[i];
    }
  }

  lemma FinishValue(t: Tree, c: nat, i: nat, whole: seq<string>, parsed: map<string, Value>, sat: seq<bool>)
    requires Valid(t) && c < |t.cmds| && |sat| == |t.params|
    requires CmdValid(t, c) && i < |t.cmds[c].params| && LoneParam(t, c, i)
    requires ValueStored(t, c, i, whole, sat, parsed)
    ensures var id := t.cmds[c].params[i];
            var p := t.params[id];
            var r := Finish(t, c, parsed, sat, []).result.value;
            p.name in r &&
            (!sat[id] ==> r[p.name] == p.default) &&
            (sat[id] ==> ConsumedFrom(p, whole, r[p.name]))
  {
    var ps, ids := t.params, t.cmds[c].params;
    var name := ps[ids[i]].name;
    DefaultsKeys(ps, sat, ids, name);
    if !sat[ids[i]] {
      DefaultsLast(ps, sat, ids, i);
    }
  }

  /** A flag whose name no other parameter of the command and no subcommand
      shares maps to `True` exactly when it was matched, else to `False`. */
  lemma FlagResult(t: Tree, c: nat, i: nat, tokens: seq<string>, sat: seq<bool>, log: seq<Event>)
    requires Valid(t) && c < |t.cmds| && |sat| == |t.params|
    requires CmdValid(t, c) && i < |t.cmds[c].params| && LoneFlag(t, c, i)
    requires !sat[t.cmds[c].params[i]]
    ensures var o := Parse(t, c, tokens, sat, log);
            var id := t.cmds[c].params[i];
            o.result.Success? ==> t.params[id].name in o.result.value && o.result.value[t.params[id].name] == Bool(o.sat[id])
  {
    var o := Parse(t, c, tokens, sat, log);
    var id := t.cmds[c].params[i];
    var p := t.params[id];
    ResultValues(t, c, i, tokens, sat, log);
    if o.result.Success? && o.sat[id] {
      var s :| IsSuffix(s, tokens) && Slice(p, s).Success? && o.result.value[p.name] == Slice(p, s).value.value;
    }
  }

  /** A token naming a subcommand is checked before anything else, even when
      it is also a declaration of one of this command's parameters: the
      subcommand parses every remaining token, this command reads no further
      token and none of its own parameters changes, its result holds the
      subcommand's result under the subcommand's name, and its defaults are
      filled in afterwards all the same. */
  lemma Handoff(t: Tree, c: nat, tokens: seq<string>, sat: seq<bool>, parsed: map<string, Value>, log: seq<Event>)
    requires Valid(t) && c < |t.cmds| && |sat| == |t.params| && CmdValid(t, c)
    requires tokens != [] && tokens[0] in t.cmds[c].subIds
    ensures var cmd := t.cmds[c];
            var sub := Parse(t, cmd.subIds[tokens[0]], tokens[1..], sat, log);
            var o := Scan(t, c, tokens, sat, parsed, log);
            o.sat == sub.sat && o.log == sub.log &&
            (forall i :: 0 <= i < |cmd.params| ==> o.sat[cmd.params[i]] == sat[cmd.params[i]]) &&
            (o.result.Success? <==> sub.result.Success?) &&
            (o.result.Success? ==>
               o.result.value == parsed[tokens[0] := Nested(sub.result.value)] + Defaults(t.params, sat, cmd.params))
  {
    var cmd := t.cmds[c];
    var d := cmd.subIds[tokens[0]];
    var sub := Parse(t, d, tokens[1..], sat, log);
    forall i | 0 <= i < |cmd.params|
      ensures sub.sat[cmd.params[i]] == sat[cmd.params[i]]
    {
      ParentOutOfReach(t, c, d, i);
      ScanFrame(t, d, tokens[1..], sat, map[], log, cmd.params[i]);
    }
    DefaultsAgree(t.params, sub.sat, sat, cmd.params);
  }

  /** The subcommand's result stays under its name unless one of this command's
      own parameters, left unsatisfied, has that same name. */
  lemma HandoffStored(t: Tree, c: nat, tokens: seq<string>, sat: seq<bool>, parsed: map<string, Value>, log: seq<Event>)
    requires Valid(t) && c < |t.cmds| && |sat| == |t.params| && CmdValid(t, c)
    requires tokens != [] && tokens[0] in t.cmds[c].subIds
    requires forall i :: 0 <= i < |t.cmds[c].params| ==> t.params[t.cmds[c].params[i]].name != tokens[0]
    ensures var sub := Parse(t, t.cmds[c].subIds[tokens[0]], tokens[1..], sat, log);
            var o := Scan(t, c, tokens, sat, parsed, log);
            o.result.Success? ==> tokens[0] in o.result.value && o.result.value[tokens[0]] == Nested(sub.result.value)
  {
    Handoff(t, c, tokens, sat, parsed, log);
    DefaultsKeys(t.params, sat, t.cmds[c].params, tokens[0]);
  }

  /** The token a "weird token" failure names is one of the input tokens, and it
      does not start with a dash. */
  lemma {:induction false} WeirdTokenOrigin(t: Tree, c: nat, tokens: seq<string>, sat: seq<bool>,
                                            parsed: map<string, Value>, log: seq<Event>)
    requires Valid(t) && c < |t.cmds| && |sat| == |t.params|
    ensures WeirdFrom(tokens, Scan(t, c, tokens, sat, parsed, log))
    decreases |tokens|, 1
  {
    assert CmdValid(t, c);
    var cmd := t.cmds[c];
    if tokens != [] {
      if tokens[0] in cmd.subIds {
        WeirdTokenOrigin(t, cmd.subIds[tokens[0]], tokens[1..], sat, map[], log);
      } else if StartsWith(tokens[0], "-") {
        WeirdDash(t, c, tokens, sat, parsed, log);
      } else {
        WeirdWord(t, c, tokens, sat, parsed, log);
      }
    }
  }

  /** A weird-token failure in `o` names a token of `tokens` without a leading dash. */
  ghost predicate WeirdFrom(tokens: seq<string>, o: Outcome)
  {
    o.result.Failure? && o.result.error.WeirdToken? ==>
      o.result.error.token in tokens && !StartsWith(o.result.error.token, "-")
  }

  lemma {:induction false} WeirdDash(t: Tree, c: nat, tokens: seq<string>, sat: seq<bool>,
                                     parsed: map<string, Value>, log: seq<Event>)
    requires Valid(t) && c < |t.cmds| && |sat| == |t.params| && CmdValid(t, c)
    requires tokens != [] && tokens[0] !in t.cmds[c].subIds && StartsWith(tokens[0], "-")
    ensures WeirdFrom(tokens, Scan(t, c, tokens, sat, parsed, log))
    decreases |tokens|, 0
  {
    var cmd := t.cmds[c];
    var rest := tokens[1..];
    match FirstDeclaring(t.params, cmd.params, tokens[0])
    case NotFound => WeirdTokenOrigin(t, c, rest, sat, parsed, log);
    case Found(i) =>
      var id := cmd.params[i];
      var p := t.params[id];
      match Slice(p, rest)
      case Failure(_) =>
      case Success(r) =>
        WeirdTokenOrigin(t, c, r.rest, sat[id := true], Store(p, r.value, parsed), Notify(p, id, r.value, log));
        assert forall x :: x in r.rest ==> x in tokens;
  }

  lemma {:induction false} WeirdWord(t: Tree, c: nat, tokens: seq<string>, sat: seq<bool>,
                                     parsed: map<string, Value>, log: seq<Event>)
    requires Valid(t) && c < |t.cmds| && |sat| == |t.params| && CmdValid(t, c)
    requires tokens != [] && tokens[0] !in t.cmds[c].subIds && !StartsWith(tokens[0], "-")
    ensures WeirdFrom(tokens, Scan(t, c, tokens, sat, parsed, log))
    decreases |tokens|, 0
  {
    var cmd := t.cmds[c];
    assert [tokens[0]] + tokens[1..] == tokens;
    match FirstOpenArgument(t.params, sat, cmd.params)
    case NotFound =>
    case Found(i) =>
      var id := cmd.params[i];
      var p := t.params[id];
      match Slice(p, tokens)
      case Failure(_) =>
      case Success(r) =>
        WeirdTokenOrigin(t, c, r.rest, sat[id := true], Store(p, r.value, parsed), Notify(p, id, r.value, log));
        assert forall x :: x in r.rest ==> x in tokens;
  }
}
