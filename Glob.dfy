/**
 * Pre-parse expansion of clustered short options (`App.parse`): a token
 * such as `-abc` stands for `-a -b -c`. Long options (`--x`) and tokens of
 * two characters or fewer are left alone.
 */
module Glob {
  import opened Py

  /** `is_globbed`: longer than two characters, one leading dash, not two. */
  predicate IsGlobbed(s: string)
  {
    |s| > 2 && StartsWith(s, "-") && !StartsWith(s, "--")
  }

  /** A cluster, character by character: a dash, then something other than a dash. */
  lemma IsGlobbedChars(s: string)
    ensures IsGlobbed(s) <==> |s| > 2 && s[0] == '-' && s[1] != '-'
  {
    StartsWithChars(s, "-");
    StartsWithChars(s, "--");
  }

  /** `["-" + c for c in chars]` */
  function Shorts(chars: string): (r: seq<string>)
    ensures |r| == |chars|
    ensures forall i :: 0 <= i < |chars| ==> r[i] == ['-', chars[i]]
  {
    if chars == [] then [] else [['-', chars[0]]] + Shorts(chars[1..])
  }

  /** What one input token becomes. */
  function ExpandToken(t: string): seq<string>
  {
    if IsGlobbed(t) then Shorts(t[1..]) else [t]
  }

  /** The flattened expansion of a whole token list. */
  function Expand(ts: seq<string>): seq<string>
  {
    if ts == [] then [] else ExpandToken(ts[0]) + Expand(ts[1..])
  }

  /** Inverse of the expansion of one cluster: glue the letters back behind one dash. */
  function Cluster(shorts: seq<string>): string
    requires forall i :: 0 <= i < |shorts| ==> |shorts[i]| == 2
  {
    if shorts == [] then "-" else Cluster(shorts[..|shorts| - 1]) + [shorts[|shorts| - 1][1]]
  }

  /** A clustered token becomes one `-c` per character after its dash, in order,
      and gluing them back gives the token; any other token passes through alone. */
  lemma {:induction false} ExpandTokenShape(t: string)
    ensures IsGlobbed(t) ==>
              |ExpandToken(t)| == |t| - 1 &&
              (forall i :: 0 <= i < |t| - 1 ==> ExpandToken(t)[i] == ['-', t[i + 1]]) &&
              Cluster(ExpandToken(t)) == t
    ensures !IsGlobbed(t) ==> ExpandToken(t) == [t]
  {
    if IsGlobbed(t) {
      ClusterShorts(t[1..]);
      assert t == "-" + t[1..];
    }
  }

  lemma {:induction false} ClusterShorts(chars: string)
    ensures Cluster(Shorts(chars)) == "-" + chars
  {
    if chars != [] {
      var n := |chars| - 1;
      var s := Shorts(chars);
      assert s[..n] == Shorts(chars[..n]);
      ClusterShorts(chars[..n]);
      assert chars == chars[..n] + [chars[n]];
    }
  }

  /** Expansion works token by token: it distributes over concatenation, so the
      relative order of the input tokens is kept. */
  lemma {:induction false} ExpandAppend(a: seq<string>, b: seq<string>)
    ensures Expand(a + b) == Expand(a) + Expand(b)
  {
    if a != [] {
      assert (a + b)[0] == a[0] && (a + b)[1..] == a[1..] + b;
      ExpandAppend(a[1..], b);
    } else {
      assert a + b == b;
    }
  }

  /** No token left after expansion is a cluster. */
  lemma {:induction false} ExpandedNotGlobbed(ts: seq<string>)
    ensures forall i :: 0 <= i < |Expand(ts)| ==> !IsGlobbed(Expand(ts)[i])
  {
    if ts != [] {
      ExpandedNotGlobbed(ts[1..]);
      var head, tail := ExpandToken(ts[0]), Expand(ts[1..]);
      forall i | 0 <= i < |head + tail|
        ensures !IsGlobbed((head + tail)[i])
      {
        if i >= |head| { assert (head + tail)[i] == tail[i - |head|]; }
      }
    }
  }

  /** Tokens without clusters are a fixed point of the expansion. */
  lemma {:induction false} ExpandUnglobbed(ts: seq<string>)
    requires forall i :: 0 <= i < |ts| ==> !IsGlobbed(ts[i])
    ensures Expand(ts) == ts
  {
    if ts != [] {
      ExpandUnglobbed(ts[1..]);
    }
  }

  /** Expanding twice is expanding once. */
  lemma ExpandIdempotent(ts: seq<string>)
    ensures Expand(Expand(ts)) == Expand(ts)
  {
    ExpandedNotGlobbed(ts);
    ExpandUnglobbed(Expand(ts));
  }
}
