/**
 * The two-level application of the repository's own test module: main
 * command `a` with flags `-a/--apple` and `--banana/-b`, option `--file`
 * stored as `filename`, and argument `donut`; subcommand `b` with flags `-t`
 * and `--long-thing` and argument `args` taking every remaining token.
 */
module KitchenSink {
  import opened Py
  import opened Values
  import opened Parameter
  import opened Command
  import opened Glob
  import opened Clip
  import opened InvokeFacts
  import opened TreeFacts

  function Apple(): Param    { Param(Flag, ["-a", "--apple"], "apple", 1, Bool(false), false, false) }
  function Banana(): Param   { Param(Flag, ["--banana", "-b"], "banana", 1, Bool(false), false, false) }
  function Filename(): Param { Param(Option, ["--file"], "filename", 1, Null, false, false) }
  function Donut(): Param    { Param(Argument, ["donut"], "donut", 1, Null, false, false) }
  function T(): Param        { Param(Flag, ["-t"], "t", 1, Bool(false), false, false) }
  function LongThing(): Param { Param(Flag, ["--long-thing"], "long_thing", 1, Bool(false), false, false) }
  function Args(): Param     { Param(Argument, ["args"], "args", -1, Null, false, false) }

  /** Each decorator of the test application builds the parameter above:
      names are derived from the longest declaration, with a dash inside a
      long option turned into an underscore, or given explicitly. */
  lemma SinkDeclared()
    ensures MakeParam(Flag, ["-a", "--apple"], "", 1, Null, false, false) == Success(Apple())
    ensures MakeParam(Flag, ["--banana", "-b"], "", 1, Null, false, false) == Success(Banana())
    ensures MakeParam(Flag, ["--long-thing"], "", 1, Null, false, false) == Success(LongThing())
    ensures MakeParam(Option, ["--file"], "filename", 1, Null, false, false) == Success(Filename())
    ensures MakeParam(Argument, ["donut"], "", 1, Null, false, false) == Success(Donut())
    ensures MakeParam(Flag, ["-t"], "", 1, Null, false, false) == Success(T())
    ensures MakeParam(Argument, ["args"], "", -1, Null, false, false) == Success(Args())
  {
    AppleDeclared();
    BananaDeclared();
    LongThingDeclared();
    OthersDeclared();
  }

  lemma AppleDeclared()
    ensures MakeParam(Flag, ["-a", "--apple"], "", 1, Null, false, false) == Success(Apple())
  {
    assert LongestIndex(["-a", "--apple"]) == 1;
    assert "--apple"[2..] == "apple";
    DerivedName("apple", "apple");
  }

  lemma BananaDeclared()
    ensures MakeParam(Flag, ["--banana", "-b"], "", 1, Null, false, false) == Success(Banana())
  {
    assert LongestIndex(["--banana", "-b"]) == 0;
    assert "--banana"[2..] == "banana";
    DerivedName("banana", "banana");
  }

  lemma LongThingDeclared()
    ensures MakeParam(Flag, ["--long-thing"], "", 1, Null, false, false) == Success(LongThing())
  {
    LongThingStripped();
    LongThingReplaced();
    LongThingLowered();
  }

  lemma OthersDeclared()
    ensures MakeParam(Option, ["--file"], "filename", 1, Null, false, false) == Success(Filename())
    ensures MakeParam(Argument, ["donut"], "", 1, Null, false, false) == Success(Donut())
    ensures MakeParam(Flag, ["-t"], "", 1, Null, false, false) == Success(T())
    ensures MakeParam(Argument, ["args"], "", -1, Null, false, false) == Success(Args())
  {
  }

  /** The three steps of `long_thing`'s name, one literal fact each. */
  lemma LongThingStripped()
    ensures "--long-thing"[2..] == "long-thing"
  {
  }

  lemma LongThingReplaced()
    ensures Replace("long-thing", '-', '_') == "long_thing"
  {
  }

  lemma LongThingLowered()
    ensures Lower("long_thing") == "long_thing"
  {
  }

  function SinkTree(): Tree
  {
    Tree([HelpFlag(), Apple(), Banana(), Filename(), Donut(), HelpFlag(), T(), LongThing(), Args()],
         [Cmd("a", [0, 1, 2, 3, 4], map["b" := 1], ["b"]),
          Cmd("b", [5, 6, 7, 8], map[], [])])
  }

  lemma SinkValid()
    ensures Command.Valid(SinkTree())
  {
    var t := SinkTree();
    assert CmdValid(t, 0) && CmdValid(t, 1);
    assert forall i :: 0 <= i < |t.cmds[0].params| ==> t.cmds[0].params[i] == i;
    assert forall i :: 0 <= i < |t.cmds[1].params| ==> t.cmds[1].params[i] == 5 + i;
  }

  function Unset(): seq<bool> { [false, false, false, false, false, false, false, false, false] }

  /** The command lines of the test module, split at spaces. */
  function Clustered(): seq<string>
  {
    ["-ab", "--file", "pie.txt", "chocolate", "b", "--long-thing", "yum", "yo"]
  }

  function Spread(): seq<string>
  {
    ["chocolate", "-a", "--file", "pie.txt", "--banana", "b", "--long-thing", "yum", "yo"]
  }

  function SubExpected(): map<string, Value>
  {
    map["t" := Bool(false), "long_thing" := Bool(true), "args" := Strs(["yum", "yo"])]
  }

  function Expected(): map<string, Value>
  {
    map["apple" := Bool(true), "banana" := Bool(true), "filename" := Str("pie.txt"),
        "donut" := Str("chocolate"), "b" := Nested(SubExpected())]
  }

  /** Without clusters the expansion changes nothing. */
  lemma SpreadExpand()
    ensures Expand(Spread()) == Spread()
  {
    forall i | 0 <= i < |Spread()|
      ensures !IsGlobbed(Spread()[i])
    {
      IsGlobbedChars(Spread()[i]);
    }
    ExpandUnglobbed(Spread());
  }

  /** `-ab` is expanded to `-a -b`. */
  lemma ClusterExpand()
    ensures Expand(["-ab"]) == ["-a", "-b"]
  {
    IsGlobbedChars("-ab");
    ExpandTokenShape("-ab");
    var e := ExpandToken("-ab");
    assert e == ["-a", "-b"] by { assert |e| == 2 && e[0] == ['-', 'a'] && e[1] == ['-', 'b']; }
    assert Expand(["-ab"]) == e + Expand([]);
  }

  /** No token after the cluster is a glob pattern. */
  lemma ClusteredRest(rest: seq<string>)
    requires rest == ["--file", "pie.txt", "chocolate", "b", "--long-thing", "yum", "yo"]
    ensures Expand(rest) == rest
  {
    forall i | 0 <= i < |rest|
      ensures !IsGlobbed(rest[i])
    {
      IsGlobbedChars(rest[i]);
    }
    ExpandUnglobbed(rest);
  }

  /** The first command line, expanded: only the cluster changes. */
  lemma ClusteredExpand()
    ensures Expand(Clustered()) == ["-a", "-b", "--file", "pie.txt", "chocolate", "b", "--long-thing", "yum", "yo"]
  {
    ClusteredSplit(Clustered(), ["--file", "pie.txt", "chocolate", "b", "--long-thing", "yum", "yo"],
                   ["-a", "-b", "--file", "pie.txt", "chocolate", "b", "--long-thing", "yum", "yo"]);
  }

  lemma ClusteredSplit(ts: seq<string>, rest: seq<string>, e: seq<string>)
    requires ts == Clustered() && rest == ["--file", "pie.txt", "chocolate", "b", "--long-thing", "yum", "yo"]
    requires e == ["-a", "-b", "--file", "pie.txt", "chocolate", "b", "--long-thing", "yum", "yo"]
    ensures Expand(ts) == e
  {
    assert e == ["-a", "-b"] + rest;
    assert ts == ["-ab"] + rest;
    ClusteredRest(rest);
    ExpandAppend(["-ab"], rest);
    ClusterExpand();
  }

  /** The satisfied flags once the main command has taken its own tokens. */
  function MainDone(): seq<bool> { [false, true, true, true, true, false, false, false, false] }

  /** ... and once subcommand `b` has taken the rest. */
  function AllDone(): seq<bool> { [false, true, true, true, true, false, false, true, true] }

  /** Token `token` is a dash token that is not a subcommand of `c`, and the
      first parameter of `c` to declare it is its `i`-th, parameter `id`, which
      is `p` and has no callback. */
  ghost predicate DashMatch(t: Tree, c: nat, token: string, i: nat, id: nat, p: Param)
  {
    Command.Valid(t) && c < |t.cmds| && CmdValid(t, c) &&
    token !in t.cmds[c].subIds && |token| > 0 && token[0] == '-' &&
    i < |t.cmds[c].params| && t.cmds[c].params[i] == id && id < |t.params| && t.params[id] == p &&
    !p.callback && FirstDeclaring(t.params, t.cmds[c].params, token) == Found(i)
  }

  /** Token `token` is a word that is not a subcommand of `c`, and the first
      free Argument of `c` is its `i`-th parameter, `id`, which is `p` and has
      no callback. */
  ghost predicate WordMatch(t: Tree, c: nat, token: string, sat: seq<bool>, i: nat, id: nat, p: Param)
  {
    Command.Valid(t) && c < |t.cmds| && CmdValid(t, c) && |sat| == |t.params| &&
    token !in t.cmds[c].subIds && |token| > 0 && token[0] != '-' &&
    i < |t.cmds[c].params| && t.cmds[c].params[i] == id && id < |t.params| && t.params[id] == p &&
    !p.callback && FirstOpenArgument(t.params, sat, t.cmds[c].params) == Found(i)
  }

  /** One step of the scan on a dash token. */
  lemma StepDash(t: Tree, c: nat, tokens: seq<string>, sat: seq<bool>, parsed: map<string, Value>,
                 i: nat, id: nat, p: Param, rest: seq<string>, v: Value)
    requires |tokens| > 0 && DashMatch(t, c, tokens[0], i, id, p) && |sat| == |t.params|
    requires Slice(p, tokens[1..]) == Success(Consumed(rest, v))
    ensures Scan(t, c, tokens, sat, parsed, []) == Scan(t, c, rest, sat[id := true], Store(p, v, parsed), [])
  {
    StartsWithChars(tokens[0], "-");
  }

  /** One step of the scan on a word that fills an Argument. */
  lemma StepWord(t: Tree, c: nat, tokens: seq<string>, sat: seq<bool>, parsed: map<string, Value>,
                 i: nat, id: nat, p: Param, rest: seq<string>, v: Value)
    requires |tokens| > 0 && WordMatch(t, c, tokens[0], sat, i, id, p)
    requires Slice(p, tokens) == Success(Consumed(rest, v))
    ensures Scan(t, c, tokens, sat, parsed, []) == Scan(t, c, rest, sat[id := true], Store(p, v, parsed), [])
  {
    StartsWithChars(tokens[0], "-");
    assert [tokens[0]] + tokens[1..] == tokens;
  }

  /** A parameter of width one takes exactly the first token. */
  lemma SliceOne(p: Param, tokens: seq<string>)
    requires p.kind != Flag && p.nargs == 1 && |tokens| >= 1
    ensures Slice(p, tokens) == Success(Consumed(tokens[1..], Str(tokens[0])))
  {
    assert Take(tokens, 1) == tokens[..1];
  }

  /** The hand-off to subcommand `d`, which parses the rest successfully. */
  lemma StepSub(t: Tree, c: nat, tokens: seq<string>, d: nat, sat: seq<bool>,
                parsed: map<string, Value>, m: map<string, Value>, sat': seq<bool>, log': seq<Event>)
    requires Command.Valid(t) && c < |t.cmds| && |sat| == |t.params| && |sat'| == |t.params|
    requires CmdValid(t, c) && |tokens| > 0 && tokens[0] in t.cmds[c].subIds
    requires d == t.cmds[c].subIds[tokens[0]]
    requires Scan(t, d, tokens[1..], sat, map[], []) == Outcome(Success(m), sat', log')
    ensures Scan(t, c, tokens, sat, parsed, []) == Finish(t, c, parsed[tokens[0] := Nested(m)], sat', log')
  {
  }

  /** Where each token of the two command lines is matched. */
  lemma AppleMatch(t: Tree, token: string)
    requires t == SinkTree() && token == "-a"
    ensures DashMatch(t, 0, token, 1, 1, Apple()) && |t.params| == 9
  {
    SinkValid();
    assert CmdValid(t, 0);
    FirstDeclaringAt(t.params, t.cmds[0].params, token, 1);
  }

  lemma ShortBananaMatch(t: Tree, token: string)
    requires t == SinkTree() && token == "-b"
    ensures DashMatch(t, 0, token, 2, 2, Banana()) && |t.params| == 9
  {
    SinkValid();
    assert CmdValid(t, 0);
    FirstDeclaringAt(t.params, t.cmds[0].params, token, 2);
  }

  lemma LongBananaMatch(t: Tree, token: string)
    requires t == SinkTree() && token == "--banana"
    ensures DashMatch(t, 0, token, 2, 2, Banana()) && |t.params| == 9
  {
    SinkValid();
    assert CmdValid(t, 0);
    FirstDeclaringAt(t.params, t.cmds[0].params, token, 2);
  }

  lemma FileMatch(t: Tree, token: string)
    requires t == SinkTree() && token == "--file"
    ensures DashMatch(t, 0, token, 3, 3, Filename()) && |t.params| == 9
  {
    SinkValid();
    assert CmdValid(t, 0);
    FirstDeclaringAt(t.params, t.cmds[0].params, token, 3);
  }

  lemma LongThingMatch(t: Tree, token: string)
    requires t == SinkTree() && token == "--long-thing"
    ensures DashMatch(t, 1, token, 2, 7, LongThing()) && |t.params| == 9
  {
    SinkValid();
    assert CmdValid(t, 1);
    FirstDeclaringAt(t.params, t.cmds[1].params, token, 2);
  }

  /** `donut` is the first Argument of `a` and `args` the first of `b`. */
  lemma DonutMatch(t: Tree, token: string, sat: seq<bool>)
    requires t == SinkTree() && token == "chocolate" && |sat| == 9 && !sat[4]
    ensures WordMatch(t, 0, token, sat, 4, 4, Donut())
  {
    SinkValid();
    assert CmdValid(t, 0);
    FirstOpenArgumentAt(t.params, sat, t.cmds[0].params, 4);
  }

  lemma ArgsMatch(t: Tree, token: string, sat: seq<bool>)
    requires t == SinkTree() && token == "yum" && |sat| == 9 && !sat[8]
    ensures WordMatch(t, 1, token, sat, 3, 8, Args())
  {
    SinkValid();
    assert CmdValid(t, 1);
    FirstOpenArgumentAt(t.params, sat, t.cmds[1].params, 3);
  }

  /** Subcommand `b` on `--long-thing yum yo`: the flag is set, `args` takes
      both words as a list, and `t` falls back to its default. The scenario
      lemmas take the tree, the tokens left, the satisfied flags and what was
      stored so far as parameters, each fixed by its precondition. */
  function SubHalf(): seq<bool> { [false, true, true, true, true, false, false, true, false] }

  lemma SubTail(t: Tree, tokens: seq<string>, sat: seq<bool>, parsed: map<string, Value>)
    requires t == SinkTree() && tokens == ["yum", "yo"] && sat == SubHalf()
    requires parsed == map["long_thing" := Bool(true)]
    ensures Command.Valid(t) && |sat| == |t.params|
    ensures Scan(t, 1, tokens, sat, parsed, []) == Outcome(Success(SubExpected()), AllDone(), [])
  {
    ArgsMatch(t, tokens[0], sat);
    SubTailData(tokens, sat, parsed);
    StepWord(t, 1, tokens, sat, parsed, 3, 8, Args(), [], Strs(["yum", "yo"]));
    SubDefaults(t);
  }

  lemma SubTailData(tokens: seq<string>, sat: seq<bool>, parsed: map<string, Value>)
    requires tokens == ["yum", "yo"] && sat == SubHalf() && parsed == map["long_thing" := Bool(true)]
    ensures Slice(Args(), tokens) == Success(Consumed([], Strs(["yum", "yo"])))
    ensures sat[8 := true] == AllDone()
    ensures Store(Args(), Strs(["yum", "yo"]), parsed) + map["t" := Bool(false)] == SubExpected()
  {
    assert Take(tokens, 2) == tokens && Drop(tokens, 2) == [];
  }

  /** Pass 2 of `b` once everything but `t` is set. */
  lemma SubDefaults(t: Tree)
    requires t == SinkTree()
    ensures Command.Valid(t) && CmdValid(t, 1) && |AllDone()| == |t.params|
    ensures Defaults(t.params, AllDone(), t.cmds[1].params) == map["t" := Bool(false)]
  {
    SinkValid();
    assert CmdValid(t, 1);
    DefaultsOnly(t.params, AllDone(), t.cmds[1].params, 1);
  }

  lemma SubParse(t: Tree, tokens: seq<string>, sat: seq<bool>)
    requires t == SinkTree() && tokens == ["--long-thing", "yum", "yo"] && sat == MainDone()
    ensures Command.Valid(t) && |sat| == |t.params|
    ensures Scan(t, 1, tokens, sat, map[], []) == Outcome(Success(SubExpected()), AllDone(), [])
  {
    LongThingMatch(t, tokens[0]);
    SubParseData(tokens, sat);
    SubTail(t, tokens[1..], sat[7 := true], Store(LongThing(), Bool(true), map[]));
    StepDash(t, 1, tokens, sat, map[], 2, 7, LongThing(), tokens[1..], Bool(true));
  }

  lemma SubParseData(tokens: seq<string>, sat: seq<bool>)
    requires tokens == ["--long-thing", "yum", "yo"] && sat == MainDone()
    ensures tokens[1..] == ["yum", "yo"] && sat[7 := true] == SubHalf()
    ensures Store(LongThing(), Bool(true), map[]) == map["long_thing" := Bool(true)]
  {
  }

  /** What the main command has stored when it reaches the subcommand's name. */
  function MainParsed(): map<string, Value>
  {
    map["apple" := Bool(true), "banana" := Bool(true), "filename" := Str("pie.txt"),
        "donut" := Str("chocolate")]
  }

  /** From the subcommand's name on, both command lines parse alike. */
  lemma MainTail(t: Tree, tokens: seq<string>, sat: seq<bool>, parsed: map<string, Value>)
    requires t == SinkTree() && tokens == ["b", "--long-thing", "yum", "yo"] && sat == MainDone()
    requires parsed == MainParsed()
    ensures Command.Valid(t) && |sat| == |t.params|
    ensures Scan(t, 0, tokens, sat, parsed, []) == Outcome(Success(Expected()), AllDone(), [])
  {
    MainTailData(t, tokens);
    SubParse(t, tokens[1..], sat);
    MainDefaults(t);
    MainStored();
    StepSub(t, 0, tokens, 1, sat, parsed, SubExpected(), AllDone(), []);
  }

  lemma MainTailData(t: Tree, tokens: seq<string>)
    requires t == SinkTree() && tokens == ["b", "--long-thing", "yum", "yo"]
    ensures Command.Valid(t) && CmdValid(t, 0) && |t.params| == 9
    ensures tokens[0] in t.cmds[0].subIds && t.cmds[0].subIds[tokens[0]] == 1
    ensures tokens[1..] == ["--long-thing", "yum", "yo"]
  {
    SinkValid();
    assert CmdValid(t, 0);
  }

  /** Pass 2 of `a` once all its visible parameters are set. */
  lemma MainDefaults(t: Tree)
    requires t == SinkTree()
    ensures Command.Valid(t) && CmdValid(t, 0) && |AllDone()| == |t.params|
    ensures Defaults(t.params, AllDone(), t.cmds[0].params) == map[]
  {
    SinkValid();
    assert CmdValid(t, 0);
    DefaultsNone(t.params, AllDone(), t.cmds[0].params);
  }

  /** The main command's result: its own values and `b`'s nested result. */
  lemma MainStored()
    ensures MainParsed()["b" := Nested(SubExpected())] + map[] == Expected()
  {
  }

  /** The first word that is neither a subcommand nor a dash token fills `donut`. */
  lemma DonutStep(t: Tree, tokens: seq<string>, sat: seq<bool>, parsed: map<string, Value>)
    requires t == SinkTree() && tokens == ["chocolate", "b", "--long-thing", "yum", "yo"]
    requires sat == [false, true, true, true, false, false, false, false, false]
    requires parsed == map["apple" := Bool(true), "banana" := Bool(true), "filename" := Str("pie.txt")]
    ensures Command.Valid(t) && |sat| == |t.params|
    ensures Scan(t, 0, tokens, sat, parsed, []) == Outcome(Success(Expected()), AllDone(), [])
  {
    DonutMatch(t, tokens[0], sat);
    DonutData(tokens, sat, parsed);
    MainTail(t, tokens[1..], sat[4 := true], Store(Donut(), Str("chocolate"), parsed));
    StepWord(t, 0, tokens, sat, parsed, 4, 4, Donut(), tokens[1..], Str("chocolate"));
  }

  lemma DonutData(tokens: seq<string>, sat: seq<bool>, parsed: map<string, Value>)
    requires tokens == ["chocolate", "b", "--long-thing", "yum", "yo"]
    requires sat == [false, true, true, true, false, false, false, false, false]
    requires parsed == map["apple" := Bool(true), "banana" := Bool(true), "filename" := Str("pie.txt")]
    ensures Slice(Donut(), tokens) == Success(Consumed(tokens[1..], Str("chocolate")))
    ensures tokens[1..] == ["b", "--long-thing", "yum", "yo"]
    ensures sat[4 := true] == MainDone() && Store(Donut(), Str("chocolate"), parsed) == MainParsed()
  {
    SliceOne(Donut(), tokens);
  }

  /** `--file` takes the one token after it, once both flags are set. */
  lemma FileStep(t: Tree, tokens: seq<string>, sat: seq<bool>, parsed: map<string, Value>)
    requires t == SinkTree() && tokens == ["--file", "pie.txt", "chocolate", "b", "--long-thing", "yum", "yo"]
    requires sat == [false, true, true, false, false, false, false, false, false]
    requires parsed == map["apple" := Bool(true), "banana" := Bool(true)]
    ensures Command.Valid(t) && |sat| == |t.params|
    ensures Scan(t, 0, tokens, sat, parsed, []) == Outcome(Success(Expected()), AllDone(), [])
  {
    FileMatch(t, tokens[0]);
    FileData(tokens, sat, parsed);
    DonutStep(t, tokens[2..], sat[3 := true], Store(Filename(), Str("pie.txt"), parsed));
    StepDash(t, 0, tokens, sat, parsed, 3, 3, Filename(), tokens[2..], Str("pie.txt"));
  }

  lemma FileData(tokens: seq<string>, sat: seq<bool>, parsed: map<string, Value>)
    requires tokens == ["--file", "pie.txt", "chocolate", "b", "--long-thing", "yum", "yo"]
    requires sat == [false, true, true, false, false, false, false, false, false]
    requires parsed == map["apple" := Bool(true), "banana" := Bool(true)]
    ensures Slice(Filename(), tokens[1..]) == Success(Consumed(tokens[2..], Str("pie.txt")))
    ensures tokens[2..] == ["chocolate", "b", "--long-thing", "yum", "yo"]
    ensures sat[3 := true] == [false, true, true, true, false, false, false, false, false]
    ensures Store(Filename(), Str("pie.txt"), parsed) ==
            map["apple" := Bool(true), "banana" := Bool(true), "filename" := Str("pie.txt")]
  {
    SliceOne(Filename(), tokens[1..]);
    assert tokens[1..][1..] == tokens[2..];
  }

  /** `-b`, after `-a`, sets the second flag. */
  lemma BananaStep(t: Tree, tokens: seq<string>, sat: seq<bool>, parsed: map<string, Value>)
    requires t == SinkTree() && tokens == ["-b", "--file", "pie.txt", "chocolate", "b", "--long-thing", "yum", "yo"]
    requires sat == [false, true, false, false, false, false, false, false, false]
    requires parsed == map["apple" := Bool(true)]
    ensures Command.Valid(t) && |sat| == |t.params|
    ensures Scan(t, 0, tokens, sat, parsed, []) == Outcome(Success(Expected()), AllDone(), [])
  {
    ShortBananaMatch(t, tokens[0]);
    BananaData(tokens, sat, parsed);
    FileStep(t, tokens[1..], sat[2 := true], Store(Banana(), Bool(true), parsed));
    StepDash(t, 0, tokens, sat, parsed, 2, 2, Banana(), tokens[1..], Bool(true));
  }

  lemma BananaData(tokens: seq<string>, sat: seq<bool>, parsed: map<string, Value>)
    requires tokens == ["-b", "--file", "pie.txt", "chocolate", "b", "--long-thing", "yum", "yo"]
    requires sat == [false, true, false, false, false, false, false, false, false]
    requires parsed == map["apple" := Bool(true)]
    ensures tokens[1..] == ["--file", "pie.txt", "chocolate", "b", "--long-thing", "yum", "yo"]
    ensures sat[2 := true] == [false, true, true, false, false, false, false, false, false]
    ensures Store(Banana(), Bool(true), parsed) == map["apple" := Bool(true), "banana" := Bool(true)]
  {
  }

  /** `-a` sets the first flag. */
  lemma AppleStep(t: Tree, tokens: seq<string>, sat: seq<bool>, parsed: map<string, Value>)
    requires t == SinkTree()
    requires tokens == ["-a", "-b", "--file", "pie.txt", "chocolate", "b", "--long-thing", "yum", "yo"]
    requires sat == Unset() && parsed == map[]
    ensures Command.Valid(t) && |sat| == |t.params|
    ensures Scan(t, 0, tokens, sat, parsed, []) == Outcome(Success(Expected()), AllDone(), [])
  {
    AppleMatch(t, tokens[0]);
    AppleData(tokens, sat, parsed);
    BananaStep(t, tokens[1..], sat[1 := true], Store(Apple(), Bool(true), parsed));
    StepDash(t, 0, tokens, sat, parsed, 1, 1, Apple(), tokens[1..], Bool(true));
  }

  lemma AppleData(tokens: seq<string>, sat: seq<bool>, parsed: map<string, Value>)
    requires tokens == ["-a", "-b", "--file", "pie.txt", "chocolate", "b", "--long-thing", "yum", "yo"]
    requires sat == Unset() && parsed == map[]
    ensures tokens[1..] == ["-b", "--file", "pie.txt", "chocolate", "b", "--long-thing", "yum", "yo"]
    ensures sat[1 := true] == [false, true, false, false, false, false, false, false, false]
    ensures Store(Apple(), Bool(true), parsed) == map["apple" := Bool(true)]
  {
  }

  /** The test's first command line: `-ab` is expanded, then both flags, the
      option and the argument are filled before the hand-off to `b`. */
  lemma ClusteredParse()
    ensures Command.Valid(SinkTree()) &&
            Command.Parse(SinkTree(), 0, Expand(Clustered()), Unset(), []) ==
            Outcome(Success(Expected()), AllDone(), [])
  {
    ClusteredExpand();
    AppleStep(SinkTree(), Expand(Clustered()), Unset(), map[]);
  }

  /** The test's second command line, the same words in another order: the
      argument comes first and `--banana` last, and the result is the same. */
  lemma SpreadParse()
    ensures Command.Valid(SinkTree()) &&
            Command.Parse(SinkTree(), 0, Expand(Spread()), Unset(), []) ==
            Outcome(Success(Expected()), AllDone(), [])
  {
    SpreadExpand();
    SpreadDonut(SinkTree(), Spread(), Unset(), map[]);
  }

  lemma SpreadDonut(t: Tree, tokens: seq<string>, sat: seq<bool>, parsed: map<string, Value>)
    requires t == SinkTree() && tokens == Spread() && sat == Unset() && parsed == map[]
    ensures Command.Valid(t) && |sat| == |t.params|
    ensures Scan(t, 0, tokens, sat, parsed, []) == Outcome(Success(Expected()), AllDone(), [])
  {
    SpreadDonutData(tokens, sat, parsed);
    DonutMatch(t, tokens[0], sat);
    SpreadApple(t, tokens[1..], sat[4 := true], Store(Donut(), Str("chocolate"), parsed));
    StepWord(t, 0, tokens, sat, parsed, 4, 4, Donut(), tokens[1..], Str("chocolate"));
  }

  lemma SpreadDonutData(tokens: seq<string>, sat: seq<bool>, parsed: map<string, Value>)
    requires tokens == Spread() && sat == Unset() && parsed == map[]
    ensures tokens[0] == "chocolate" && |sat| == 9 && !sat[4]
    ensures Slice(Donut(), tokens) == Success(Consumed(tokens[1..], Str("chocolate")))
    ensures tokens[1..] == ["-a", "--file", "pie.txt", "--banana", "b", "--long-thing", "yum", "yo"]
    ensures sat[4 := true] == [false, false, false, false, true, false, false, false, false]
    ensures Store(Donut(), Str("chocolate"), parsed) == map["donut" := Str("chocolate")]
  {
    SliceOne(Donut(), tokens);
  }

  lemma SpreadApple(t: Tree, tokens: seq<string>, sat: seq<bool>, parsed: map<string, Value>)
    requires t == SinkTree() && tokens == ["-a", "--file", "pie.txt", "--banana", "b", "--long-thing", "yum", "yo"]
    requires sat == [false, false, false, false, true, false, false, false, false]
    requires parsed == map["donut" := Str("chocolate")]
    ensures Command.Valid(t) && |sat| == |t.params|
    ensures Scan(t, 0, tokens, sat, parsed, []) == Outcome(Success(Expected()), AllDone(), [])
  {
    AppleMatch(t, tokens[0]);
    SpreadAppleData(tokens, sat, parsed);
    SpreadFile(t, tokens[1..], sat[1 := true], Store(Apple(), Bool(true), parsed));
    StepDash(t, 0, tokens, sat, parsed, 1, 1, Apple(), tokens[1..], Bool(true));
  }

  lemma SpreadAppleData(tokens: seq<string>, sat: seq<bool>, parsed: map<string, Value>)
    requires tokens == ["-a", "--file", "pie.txt", "--banana", "b", "--long-thing", "yum", "yo"]
    requires sat == [false, false, false, false, true, false, false, false, false]
    requires parsed == map["donut" := Str("chocolate")]
    ensures tokens[1..] == ["--file", "pie.txt", "--banana", "b", "--long-thing", "yum", "yo"]
    ensures sat[1 := true] == [false, true, false, false, true, false, false, false, false]
    ensures Store(Apple(), Bool(true), parsed) == map["donut" := Str("chocolate"), "apple" := Bool(true)]
  {
  }

  lemma SpreadFile(t: Tree, tokens: seq<string>, sat: seq<bool>, parsed: map<string, Value>)
    requires t == SinkTree() && tokens == ["--file", "pie.txt", "--banana", "b", "--long-thing", "yum", "yo"]
    requires sat == [false, true, false, false, true, false, false, false, false]
    requires parsed == map["donut" := Str("chocolate"), "apple" := Bool(true)]
    ensures Command.Valid(t) && |sat| == |t.params|
    ensures Scan(t, 0, tokens, sat, parsed, []) == Outcome(Success(Expected()), AllDone(), [])
  {
    FileMatch(t, tokens[0]);
    SpreadFileData(tokens, sat, parsed);
    SpreadBanana(t, tokens[2..], sat[3 := true], Store(Filename(), Str("pie.txt"), parsed));
    StepDash(t, 0, tokens, sat, parsed, 3, 3, Filename(), tokens[2..], Str("pie.txt"));
  }

  lemma SpreadFileData(tokens: seq<string>, sat: seq<bool>, parsed: map<string, Value>)
    requires tokens == ["--file", "pie.txt", "--banana", "b", "--long-thing", "yum", "yo"]
    requires sat == [false, true, false, false, true, false, false, false, false]
    requires parsed == map["donut" := Str("chocolate"), "apple" := Bool(true)]
    ensures Slice(Filename(), tokens[1..]) == Success(Consumed(tokens[2..], Str("pie.txt")))
    ensures tokens[2..] == ["--banana", "b", "--long-thing", "yum", "yo"]
    ensures sat[3 := true] == [false, true, false, true, true, false, false, false, false]
    ensures Store(Filename(), Str("pie.txt"), parsed) ==
            map["donut" := Str("chocolate"), "apple" := Bool(true), "filename" := Str("pie.txt")]
  {
    SliceOne(Filename(), tokens[1..]);
    assert tokens[1..][1..] == tokens[2..];
  }

  lemma SpreadBanana(t: Tree, tokens: seq<string>, sat: seq<bool>, parsed: map<string, Value>)
    requires t == SinkTree() && tokens == ["--banana", "b", "--long-thing", "yum", "yo"]
    requires sat == [false, true, false, true, true, false, false, false, false]
    requires parsed == map["donut" := Str("chocolate"), "apple" := Bool(true), "filename" := Str("pie.txt")]
    ensures Command.Valid(t) && |sat| == |t.params|
    ensures Scan(t, 0, tokens, sat, parsed, []) == Outcome(Success(Expected()), AllDone(), [])
  {
    LongBananaMatch(t, tokens[0]);
    SpreadBananaData(tokens, sat, parsed);
    MainTail(t, tokens[1..], sat[2 := true], Store(Banana(), Bool(true), parsed));
    StepDash(t, 0, tokens, sat, parsed, 2, 2, Banana(), tokens[1..], Bool(true));
  }

  /** Stored in the other order, the main command's values are the same mapping. */
  lemma SpreadBananaData(tokens: seq<string>, sat: seq<bool>, parsed: map<string, Value>)
    requires tokens == ["--banana", "b", "--long-thing", "yum", "yo"]
    requires sat == [false, true, false, true, true, false, false, false, false]
    requires parsed == map["donut" := Str("chocolate"), "apple" := Bool(true), "filename" := Str("pie.txt")]
    ensures tokens[1..] == ["b", "--long-thing", "yum", "yo"]
    ensures sat[2 := true] == MainDone() && Store(Banana(), Bool(true), parsed) == MainParsed()
  {
  }

  /** Invoking the parse result calls `a` with its four values, then `b` with
      its three, as the test's invoke case expects. */
  lemma SinkInvoke()
    ensures Command.Valid(SinkTree()) &&
            Command.Invoke(SinkTree(), 0, Expected(), []) ==
            Done([Called(0, MainParsed()), Called(1, SubExpected())])
  {
    SinkValid();
    var t := SinkTree();
    assert CmdValid(t, 0) && CmdValid(t, 1);
    assert OwnArgs(t.cmds[0], Expected()) == MainParsed();
    assert Expected()["b"].fields == SubExpected() && t.cmds[0].subIds["b"] == 1;
    assert [] + [Called(0, MainParsed())] == [Called(0, MainParsed())];
    assert [Called(0, MainParsed())] + [Called(1, SubExpected())] == [Called(0, MainParsed()), Called(1, SubExpected())];
    InvokeParentThenChild(t, 0, Expected(), [], "b");
    InvokeLeaf(t, 1, SubExpected(), [Called(0, MainParsed())]);
  }

  /** The test application, registered the way its decorators register it:
      each command's parameters are listed in the order the decorators were
      applied, bottom-up. */
  method BuildSink() returns (app: App)
    ensures fresh(app) && app.Valid()
    ensures app.Def() == SinkTree() && app.main == Root(0)
    ensures app.satisfied == Unset() && app.log == []
  {
    app := BuildMain();
    var b := app.Subcommand(0, "", "b", [Args(), LongThing(), T()]);
    SinkParams();
    SinkCmds();
  }

  /** The test application after its main command `a` is registered. */
  method BuildMain() returns (app: App)
    ensures fresh(app) && app.Valid()
    ensures app.params == CommandParams([Donut(), Filename(), Banana(), Apple()])
    ensures app.cmds == [NewCommand("", "a", 5, 0)] && app.main == Root(0)
    ensures app.satisfied == [false, false, false, false, false] && app.log == []
  {
    app := new App();
    var main := app.RegisterMain("", "a", [Donut(), Filename(), Banana(), Apple()]);
  }

  /** The parameter lists the two decorator stacks give their commands. */
  lemma SinkParams()
    ensures CommandParams([Donut(), Filename(), Banana(), Apple()]) ==
            [HelpFlag(), Apple(), Banana(), Filename(), Donut()]
    ensures CommandParams([Args(), LongThing(), T()]) == [HelpFlag(), T(), LongThing(), Args()]
    ensures [] + CommandParams([Donut(), Filename(), Banana(), Apple()]) +
            CommandParams([Args(), LongThing(), T()]) == SinkTree().params
  {
    var m := CommandParams([Donut(), Filename(), Banana(), Apple()]);
    var s := CommandParams([Args(), LongThing(), T()]);
    assert m == [HelpFlag(), Apple(), Banana(), Filename(), Donut()];
    assert s == [HelpFlag(), T(), LongThing(), Args()];
  }

  /** The commands `a` and `b`, with `b` registered under its name in `a`. */
  lemma SinkCmds()
    ensures ([NewCommand("", "a", 5, 0)])[0 := Register(NewCommand("", "a", 5, 0), CommandName("", "b"), 1)] +
            [NewCommand("", "b", 4, 5)] == SinkTree().cmds
  {
    assert Lower("a") == "a" && Lower("b") == "b";
    assert seq(5, i => 0 + i) == [0, 1, 2, 3, 4];
    assert seq(4, i => 5 + i) == [5, 6, 7, 8];
  }

  /** `reset` on the main command reaches every parameter of the application:
      those of `a` directly and those of `b` through its registration. */
  lemma SinkReachable(t: Tree)
    requires t == SinkTree()
    ensures Command.Valid(t) && forall q :: 0 <= q < 9 ==> q in ReachableParams(t, 0)
  {
    SinkValid();
    assert t.cmds[0].params == [0, 1, 2, 3, 4] && t.cmds[1].params == [5, 6, 7, 8];
    TreeFacts.SubReachable(t, 0, "b");
    forall q | 0 <= q < 9
      ensures q in ReachableParams(t, 0)
    {
      if q < 5 {
        OwnReachable(t, 0, q);
      } else {
        OwnReachable(t, 1, q - 5);
      }
    }
  }

  /** The test's run: the callbacks of `a` and then `b` are called with the
      values the test expects, and the reset leaves every parameter unsatisfied
      again, so the application can run once more. */
  method RunSink() returns (app: App, s: Status)
    ensures app.Valid() && app.Def() == SinkTree()
    ensures s == Ok
    ensures app.log == [Called(0, MainParsed()), Called(1, SubExpected())]
    ensures app.satisfied == Unset()
  {
    app := BuildSink();
    SinkRun(app.Def(), app.main.id, Clustered(), app.satisfied, app.log);
    s := app.Run(Clustered());
    AllCleared(app.Def(), app.main.id, AllDone(), app.satisfied);
  }

  /** What `run` parses and invokes on the first command line. */
  lemma SinkRun(t: Tree, c: nat, ts: seq<string>, sat: seq<bool>, log: seq<Event>)
    requires t == SinkTree() && c == 0 && ts == Clustered() && sat == Unset() && log == []
    ensures Command.Valid(t) && c < |t.cmds| && |sat| == |t.params|
    ensures var o := Command.Parse(t, c, Expand(ts), sat, log);
            o == Outcome(Success(Expected()), AllDone(), []) &&
            Command.Invoke(t, c, o.result.value, o.log) == Done([Called(0, MainParsed()), Called(1, SubExpected())])
  {
    ClusteredParse();
    SinkInvoke();
  }

  /** Flags cleared wherever the main command's reset reaches are all cleared. */
  lemma AllCleared(t: Tree, c: nat, done: seq<bool>, sat: seq<bool>)
    requires t == SinkTree() && c == 0 && done == AllDone() && |sat| == 9
    requires Command.Valid(t) && c < |t.cmds| && |done| == 9
    requires forall q :: 0 <= q < |sat| ==> sat[q] == (done[q] && q !in ReachableParams(t, c))
    ensures sat == Unset()
  {
    SinkReachable(t);
  }
}
