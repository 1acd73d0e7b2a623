/**
 * Parameters of a command: positional Arguments, Options and Flags. Each
 * derives a name from its declarations and, when matched, slices its share of
 * tokens off the front of the token list. The per-parse `satisfied` state and
 * the callback live with the application (see module Clip).
 */
module Parameter {
  import opened Py
  import opened Values

  datatype Kind = Argument | Option | Flag

  /** A declared parameter. `nargs` is any integer, -1 meaning "all the rest";
      `callback` says whether a callback was registered. */
  datatype Param = Param(
    kind: Kind,
    decls: seq<string>,
    name: string,
    nargs: int,
    default: Value,
    callback: bool,
    hidden: bool)

  /** What `consume` hands back: the tokens it left and the value it took. */
  datatype Consumed = Consumed(rest: seq<string>, value: Value)

  /** `Argument.parse_name`: exactly one declaration, which is the name. */
  function ArgumentName(decls: seq<string>): (r: Result<string>)
    ensures r.Success? <==> |decls| == 1
    ensures r.Success? ==> r.value == decls[0]
    ensures r.Failure? ==> r.error == BadDeclarationCount(|decls|)
  {
    if |decls| == 1 then Success(decls[0]) else Failure(BadDeclarationCount(|decls|))
  }

  /** The index that `sorted(decls, key=len)[-1]` picks: a longest declaration,
      and, since the sort is stable, the last of the longest ones. */
  function LongestIndex(decls: seq<string>): (i: nat)
    requires |decls| > 0
    ensures i < |decls|
    ensures forall j :: 0 <= j < |decls| ==> |decls[j]| <= |decls[i]|
    ensures forall j :: i < j < |decls| ==> |decls[j]| < |decls[i]|
  {
    if |decls| == 1 then 0
    else
      var k := LongestIndex(decls[..|decls| - 1]);
      if |decls[|decls| - 1]| >= |decls[k]| then |decls| - 1 else k
  }

  /** The two properties of LongestIndex determine it. */
  lemma LongestIndexUnique(decls: seq<string>, i: nat)
    requires i < |decls|
    requires forall j :: 0 <= j < |decls| ==> |decls[j]| <= |decls[i]|
    requires forall j :: i < j < |decls| ==> |decls[j]| < |decls[i]|
    ensures LongestIndex(decls) == i
  {
  }

  /** One character of a long option's derived name: dash to underscore, lower case. */
  function NameChar(c: char): char
  {
    if c == '-' then '_' else LowerChar(c)
  }

  /** Dashes to underscores then lower case is NameChar at every position. */
  lemma DerivedName(s: string, name: string)
    requires |name| == |s| && forall i :: 0 <= i < |s| ==> name[i] == NameChar(s[i])
    ensures Lower(Replace(s, '-', '_')) == name
  {
  }

  /** `Option.parse_name` (inherited by Flag). */
  function OptionName(decls: seq<string>): (r: Result<string>)
    ensures r.Success? <==> |decls| > 0
    ensures r.Failure? ==> r.error == NoDeclarations
  {
    if |decls| == 0 then Failure(NoDeclarations)
    else
      var longest := decls[LongestIndex(decls)];
      if |longest| > 2 then Success(Lower(Replace(longest[2..], '-', '_')))
      else Success(Drop(longest, 1))
  }

  /** The derived name of an option: from its longest (last-longest) declaration;
      a declaration longer than two characters loses two leading characters and
      becomes a lower-case identifier with no dash, a shorter one loses one. */
  lemma OptionNameShape(decls: seq<string>)
    requires |decls| > 0
    ensures var longest := decls[LongestIndex(decls)];
            var name := OptionName(decls).value;
            (|longest| > 2 ==>
               |name| == |longest| - 2 &&
               (forall i :: 0 <= i < |name| ==> name[i] == NameChar(longest[i + 2])) &&
               (forall i :: 0 <= i < |name| ==> name[i] != '-' && !('A' <= name[i] <= 'Z'))) &&
            (|longest| <= 2 ==> name == if longest == [] then [] else longest[1..])
  {
    var longest := decls[LongestIndex(decls)];
    var name := OptionName(decls).value;
    if |longest| > 2 {
      forall i | 0 <= i < |name|
        ensures name[i] == NameChar(longest[i + 2]) && name[i] != '-' && !('A' <= name[i] <= 'Z')
      {
        assert longest[2..][i] == longest[i + 2];
      }
    }
  }

  /** `name or self.parse_name(decls)`: an explicit, non-empty name wins. */
  function ParamName(kind: Kind, decls: seq<string>, name: string): (r: Result<string>)
    ensures name != "" ==> r == Success(name)
    ensures name == "" && kind == Argument ==> r == ArgumentName(decls)
    ensures name == "" && kind != Argument ==> r == OptionName(decls)
  {
    if name != "" then Success(name)
    else if kind == Argument then ArgumentName(decls)
    else OptionName(decls)
  }

  /** The constructors of Argument, Option and Flag; a Flag's default is always `False`. */
  function MakeParam(kind: Kind, decls: seq<string>, name: string, nargs: int,
                     default: Value, callback: bool, hidden: bool): (r: Result<Param>)
    ensures r.Success? <==> ParamName(kind, decls, name).Success?
    ensures r.Success? ==>
              r.value.kind == kind && r.value.decls == decls && r.value.nargs == nargs &&
              r.value.callback == callback && r.value.hidden == hidden &&
              r.value.name == ParamName(kind, decls, name).value &&
              r.value.default == (if kind == Flag then Bool(false) else default)
  {
    match ParamName(kind, decls, name)
    case Failure(e) => Failure(e)
    case Success(n) =>
      Success(Param(kind, decls, n, nargs, if kind == Flag then Bool(false) else default, callback, hidden))
  }

  /** The hidden help flag every command carries as its first parameter. */
  function HelpFlag(): Param
  {
    Param(Flag, ["-h", "--help"], "help", 1, Bool(false), true, true)
  }

  /** The help flag is what the Flag constructor builds from `('-h', '--help')`. */
  lemma HelpFlagIsAFlag()
    ensures MakeParam(Flag, ["-h", "--help"], "", 1, Null, true, true) == Success(HelpFlag())
  {
    assert LongestIndex(["-h", "--help"]) == 1;
    assert "--help"[2..] == "help";
    var r := Replace("help", '-', '_');
    assert r == "help" by { assert |r| == 4 && r[0] == 'h' && r[1] == 'e' && r[2] == 'l' && r[3] == 'p'; }
    var l := Lower("help");
    assert l == "help" by { assert |l| == 4 && l[0] == 'h' && l[1] == 'e' && l[2] == 'l' && l[3] == 'p'; }
  }

  /** `n = len(tokens) if self._nargs == -1 else self._nargs` */
  function Width(p: Param, count: nat): int
  {
    if p.nargs == -1 then count else p.nargs
  }

  /** `consume` without its `post_consume` side effect. A Flag takes no token and
      yields `True`. Otherwise, with n the width, the tokens `tokens[:n]` are
      removed; the value is that list when n > 1 and its first token otherwise,
      which fails when the slice is empty. */
  function Slice(p: Param, tokens: seq<string>): (r: Result<Consumed>)
    ensures p.kind == Flag ==> r == Success(Consumed(tokens, Bool(true)))
    ensures p.kind != Flag ==>
              var n := Width(p, |tokens|);
              (r.Success? <==> n > 1 || (n == 1 && |tokens| >= 1) || (n < 0 && |tokens| > -n)) &&
              (r.Failure? ==> r.error == IndexOutOfRange) &&
              (r.Success? ==>
                 Take(tokens, n) + r.value.rest == tokens &&
                 r.value.value == (if n > 1 then Strs(Take(tokens, n)) else Str(tokens[0])))
    ensures r.Success? ==> |r.value.rest| <= |tokens| && r.value.rest == tokens[|tokens| - |r.value.rest|..]
    ensures r.Success? && p.kind != Flag && tokens != [] ==> |r.value.rest| < |tokens|
  {
    if p.kind == Flag then Success(Consumed(tokens, Bool(true)))
    else
      var n := Width(p, |tokens|);
      var taken := Take(tokens, n);
      TakeDrop(tokens, n);
      if n > 1 then Success(Consumed(Drop(tokens, n), Strs(taken)))
      else if taken == [] then Failure(IndexOutOfRange)
      else Success(Consumed(Drop(tokens, n), Str(taken[0])))
  }
}
