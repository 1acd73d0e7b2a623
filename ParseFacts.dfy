/**
 * What `Command.parse` guarantees, proved over the Scan function: what it may
 * touch, what it reads, which keys its result has, how the subcommand handoff
 * and flags behave, and where a "weird token" comes from.
 */
module ParseFacts {
  import opened Py
  import opened Values
  import opened Parameter
  import opened Command
  import opened TreeFacts

  /** `log` is a prefix of `longer`. */
  ghost predicate Extends(longer: seq<Event>, log: seq<Event>)
  {
    |log| <= |longer| && longer[..|log|] == log
  }

  lemma ExtendsTrans(a: seq<Event>, b: seq<Event>, c: seq<Event>)
    requires Extends(a, b) && Extends(b, c)
    ensures Extends(a, c)
  {
    assert a[..|c|] == a[..|b|][..|c|];
  }

  /** The event log only grows: callbacks already made are never undone. */
  lemma {:induction false} ScanLogGrows(t: Tree, c: nat, tokens: seq<string>, sat: seq<bool>,
                                        parsed: map<string, Value>, log: seq<Event>)
    requires Valid(t) && c < |t.cmds| && |sat| == |t.params|
    ensures Extends(Scan(t, c, tokens, sat, parsed, log).log, log)
    decreases |tokens|
  {
    assert CmdValid(t, c);
    var cmd := t.cmds[c];
    var o := Scan(t, c, tokens, sat, parsed, log);
    if tokens != [] {
      var token, rest := tokens[0], tokens[1..];
      if token in cmd.subIds {
        ScanLogGrows(t, cmd.subIds[token], rest, sat, map[], log);
      } else if StartsWith(token, "-") {
        match FirstDeclaring(t.params, cmd.params, token)
        case NotFound => ScanLogGrows(t, c, rest, sat, parsed, log);
        case Found(i) =>
          var id := cmd.params[i];
          var p := t.params[id];
          match Slice(p, rest)
          case Failure(_) =>
          case Success(r) =>
            ScanLogGrows(t, c, r.rest, sat[id := true], Store(p, r.value, parsed), Notify(p, id, r.value, log));
            StepLogGrows(t, c, id, r, sat, parsed, log);
      } else {
        match FirstOpenArgument(t.params, sat, cmd.params)
        case NotFound =>
        case Found(i) =>
          var id := cmd.params[i];
          var p := t.params[id];
          match Slice(p, [token] + rest)
          case Failure(_) =>
          case Success(r) =>
            ScanLogGrows(t, c, r.rest, sat[id := true], Store(p, r.value, parsed), Notify(p, id, r.value, log));
            StepLogGrows(t, c, id, r, sat, parsed, log);
      }
    }
  }

  lemma {:induction false} StepLogGrows(t: Tree, c: nat, id: nat, r: Consumed, sat: seq<bool>,
                                        parsed: map<string, Value>, log: seq<Event>)
    requires Valid(t) && c < |t.cmds| && |sat| == |t.params| && id < |sat|
    requires var p := t.params[id];
             var log' := Notify(p, id, r.value, log);
             Extends(Scan(t, c, r.rest, sat[id := true], Store(p, r.value, parsed), log').log, log')
    ensures var p := t.params[id];
            Extends(Scan(t, c, r.rest, sat[id := true], Store(p, r.value, parsed), Notify(p, id, r.value, log)).log, log)
  {
    var p := t.params[id];
    var log' := Notify(p, id, r.value, log);
    assert Extends(log', log);
    ExtendsTrans(Scan(t, c, r.rest, sat[id := true], Store(p, r.value, parsed), log').log, log', log);
  }

  /** A parse of `c` changes no satisfied flag outside the parameters a reset of `c` clears. */
  lemma {:induction false} ScanFrame(t: Tree, c: nat, tokens: seq<string>, sat: seq<bool>,
                                     parsed: map<string, Value>, log: seq<Event>, q: nat)
    requires Valid(t) && c < |t.cmds| && |sat| == |t.params| && q < |sat|
    requires q !in ReachableParams(t, c)
    ensures Scan(t, c, tokens, sat, parsed, log).sat[q] == sat[q]
    decreases |tokens|
  {
    assert CmdValid(t, c);
    var cmd := t.cmds[c];
    if tokens != [] {
      var token, rest := tokens[0], tokens[1..];
      if token in cmd.subIds {
        SubReachable(t, c, token);
        ScanFrame(t, cmd.subIds[token], rest, sat, map[], log, q);
      } else if StartsWith(token, "-") {
        match FirstDeclaring(t.params, cmd.params, token)
        case NotFound => ScanFrame(t, c, rest, sat, parsed, log, q);
        case Found(i) =>
          var id := cmd.params[i];
          OwnReachable(t, c, i);
          var p := t.params[id];
          match Slice(p, rest)
          case Failure(_) =>
          case Success(r) =>
            ScanFrame(t, c, r.rest, sat[id := true], Store(p, r.value, parsed), Notify(p, id, r.value, log), q);
      } else {
        match FirstOpenArgument(t.params, sat, cmd.params)
        case NotFound =>
        case Found(i) =>
          var id := cmd.params[i];
          OwnReachable(t, c, i);
          var p := t.params[id];
          match Slice(p, [token] + rest)
          case Failure(_) =>
          case Success(r) =>
            ScanFrame(t, c, r.rest, sat[id := true], Store(p, r.value, parsed), Notify(p, id, r.value, log), q);
      }
    }
  }

  ghost predicate AgreeOn(sat1: seq<bool>, sat2: seq<bool>, s: set<nat>)
  {
    |sat1| == |sat2| && forall q :: 0 <= q < |sat1| && q in s ==> sat1[q] == sat2[q]
  }

  /** The subcommand step of `ScanAgree`: once the subcommand's own parse
      agrees, so does the parent's pass 2. */
  lemma ScanAgreeSub(t: Tree, c: nat, tokens: seq<string>, sat1: seq<bool>, sat2: seq<bool>,
                     parsed: map<string, Value>, log: seq<Event>)
    requires Valid(t) && c < |t.cmds| && |sat1| == |t.params| && CmdValid(t, c)
    requires AgreeOn(sat1, sat2, ReachableParams(t, c))
    requires |tokens| > 0 && tokens[0] in t.cmds[c].subIds
    requires var d := t.cmds[c].subIds[tokens[0]];
             var o1 := Scan(t, d, tokens[1..], sat1, map[], log);
             var o2 := Scan(t, d, tokens[1..], sat2, map[], log);
             o1.result == o2.result && o1.log == o2.log && AgreeOn(o1.sat, o2.sat, ReachableParams(t, d))
    ensures var o1 := Scan(t, c, tokens, sat1, parsed, log);
            var o2 := Scan(t, c, tokens, sat2, parsed, log);
            o1.result == o2.result && o1.log == o2.log && AgreeOn(o1.sat, o2.sat, ReachableParams(t, c))
  {
    var cmd := t.cmds[c];
    var token, rest := tokens[0], tokens[1..];
    var reach := ReachableParams(t, c);
    var d := cmd.subIds[token];
    SubReachable(t, c, token);
    var s1 := Scan(t, d, rest, sat1, map[], log);
    var s2 := Scan(t, d, rest, sat2, map[], log);
    var dreach := ReachableParams(t, d);
    forall q | 0 <= q < |s1.sat| && q in reach && q !in dreach
      ensures s1.sat[q] == s2.sat[q]
    {
      ScanFrame(t, d, rest, sat1, map[], log, q);
      ScanFrame(t, d, rest, sat2, map[], log, q);
    }
    forall i | 0 <= i < |cmd.params|
      ensures s1.sat[cmd.params[i]] == s2.sat[cmd.params[i]]
    {
      OwnReachable(t, c, i);
      ParentOutOfReach(t, c, d, i);
    }
    DefaultsAgree(t.params, s1.sat, s2.sat, cmd.params);
  }

  /** A parse of `c` reads only the satisfied flags of the parameters a reset
      of `c` clears: starting from states that agree there, it gives the same
      result and the same callbacks, and leaves states that still agree there. */
  lemma {:induction false} ScanAgree(t: Tree, c: nat, tokens: seq<string>, sat1: seq<bool>, sat2: seq<bool>,
                                     parsed: map<string, Value>, log: seq<Event>)
    requires Valid(t) && c < |t.cmds| && |sat1| == |t.params|
    requires AgreeOn(sat1, sat2, ReachableParams(t, c))
    ensures var o1 := Scan(t, c, tokens, sat1, parsed, log);
            var o2 := Scan(t, c, tokens, sat2, parsed, log);
            o1.result == o2.result && o1.log == o2.log && AgreeOn(o1.sat, o2.sat, ReachableParams(t, c))
    decreases |tokens|
  {
    assert CmdValid(t, c);
    var cmd := t.cmds[c];
    var reach := ReachableParams(t, c);
    assert forall i :: 0 <= i < |cmd.params| ==> sat1[cmd.params[i]] == sat2[cmd.params[i]] by {
      forall i | 0 <= i < |cmd.params| ensures sat1[cmd.params[i]] == sat2[cmd.params[i]] {
        OwnReachable(t, c, i);
      }
    }
    if tokens == [] {
      DefaultsAgree(t.params, sat1, sat2, cmd.params);
    } else {
      var token, rest := tokens[0], tokens[1..];
      if token in cmd.subIds {
        SubReachable(t, c, token);
        ScanAgree(t, cmd.subIds[token], rest, sat1, sat2, map[], log);
        ScanAgreeSub(t, c, tokens, sat1, sat2, parsed, log);
      } else if StartsWith(token, "-") {
        match FirstDeclaring(t.params, cmd.params, token)
        case NotFound => ScanAgree(t, c, rest, sat1, sat2, parsed, log);
        case Found(i) =>
          var id := cmd.params[i];
          var p := t.params[id];
          match Slice(p, rest)
          case Failure(_) =>
          case Success(r) =>
            ScanAgree(t, c, r.rest, sat1[id := true], sat2[id := true], Store(p, r.value, parsed), Notify(p, id, r.value, log));
      } else {
        FirstOpenArgumentAgree(t.params, sat1, sat2, cmd.params);
        match FirstOpenArgument(t.params, sat1, cmd.params)
        case NotFound =>
        case Found(i) =>
          var id := cmd.params[i];
          var p := t.params[id];
          match Slice(p, [token] + rest)
          case Failure(_) =>
          case Success(r) =>
            ScanAgree(t, c, r.rest, sat1[id := true], sat2[id := true], Store(p, r.value, parsed), Notify(p, id, r.value, log));
      }
    }
  }

  /** A parse after a reset behaves as the first parse of a freshly built application:
      nothing satisfied in an earlier parse leaks into the next. */
  lemma ReuseAfterReset(t: Tree, c: nat, tokens: seq<string>, sat: seq<bool>, log: seq<Event>)
    requires Valid(t) && c < |t.cmds| && |sat| == |t.params|
    requires forall q :: 0 <= q < |sat| && q in ReachableParams(t, c) ==> !sat[q]
    ensures var clean := seq(|sat|, _ => false);
            Parse(t, c, tokens, sat, log).result == Parse(t, c, tokens, clean, log).result &&
            Parse(t, c, tokens, sat, log).log == Parse(t, c, tokens, clean, log).log
  {
    ScanAgree(t, c, tokens, sat, seq(|sat|, _ => false), map[], log);
  }
}
