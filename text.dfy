/**
 * The string operations the tag reconciler and the status filter rely on:
 * Python's `str.split()`, `" ".join(...)`, `str.strip()` and `str.lower()`.
 */
module Text {

  /** Python's `str.isspace()` for one character: the whitespace that
      `str.split()` and `str.strip()` (both without arguments) act on. */
  predicate IsSpace(c: char) {
    ('\t' <= c <= '\r') || ('\U{1C}' <= c <= ' ') || c == '\U{85}' || c == '\U{A0}'
    || c == '\U{1680}' || ('\U{2000}' <= c <= '\U{200A}') || c == '\U{2028}'
    || c == '\U{2029}' || c == '\U{202F}' || c == '\U{205F}' || c == '\U{3000}'
  }

  predicate NoSpace(s: string) {
    forall i :: 0 <= i < |s| ==> !IsSpace(s[i])
  }

  /** A tag token: non-empty text without whitespace. */
  predicate IsToken(t: string) {
    t != [] && NoSpace(t)
  }

  /** `s` with its leading whitespace removed. */
  function TrimStart(s: string): (r: string)
    ensures |r| <= |s|
    ensures r == [] || !IsSpace(r[0])
  {
    if s != [] && IsSpace(s[0]) then TrimStart(s[1..]) else s
  }

  /** `s` with its trailing whitespace removed. */
  function TrimEnd(s: string): (r: string)
    ensures |r| <= |s| && r == s[..|r|]
    ensures r == [] || !IsSpace(r[|r| - 1])
  {
    if s != [] && IsSpace(s[|s| - 1]) then TrimEnd(s[..|s| - 1]) else s
  }

  /** Python's `s.strip()`. */
  function Strip(s: string): (r: string)
    ensures r == [] || (!IsSpace(r[0]) && !IsSpace(r[|r| - 1]))
    ensures s == [] || (!IsSpace(s[0]) && !IsSpace(s[|s| - 1])) ==> r == s
  {
    TrimEnd(TrimStart(s))
  }

  /** Length of the longest whitespace-free prefix of `s`. */
  function WordEnd(s: string): (n: nat)
    ensures n <= |s|
    ensures forall i :: 0 <= i < n ==> !IsSpace(s[i])
    ensures n < |s| ==> IsSpace(s[n])
  {
    if s == [] || IsSpace(s[0]) then 0 else 1 + WordEnd(s[1..])
  }

  /** Python's `s.split()`: the maximal runs of non-whitespace, in order. */
  function Split(s: string): (ts: seq<string>)
    ensures forall t :: t in ts ==> t != []
    decreases |s|
  {
    var rest := TrimStart(s);
    if rest == [] then []
    else
      var n := WordEnd(rest);
      [rest[..n]] + Split(rest[n..])
  }

  /** Python's `" ".join(ts)`. */
  function Join(ts: seq<string>): string {
    if |ts| == 0 then ""
    else if |ts| == 1 then ts[0]
    else ts[0] + " " + Join(ts[1..])
  }

  /** Python's `c.lower()` on the ASCII letters; every other character is kept. */
  function LowerChar(c: char): char {
    if 'A' <= c <= 'Z' then (c as int + 32) as char else c
  }

  /** Python's `s.lower()`, as far as `LowerChar` goes. */
  function Lower(s: string): (r: string)
    ensures |r| == |s|
  {
    seq(|s|, i requires 0 <= i < |s| => LowerChar(s[i]))
  }

  lemma {:induction false} WordEndOfToken(t: string, rest: string)
    requires NoSpace(t)
    requires rest == [] || IsSpace(rest[0])
    ensures WordEnd(t + rest) == |t|
  {
    if t == [] {
      assert t + rest == rest;
    } else {
      assert (t + rest)[1..] == t[1..] + rest;
      WordEndOfToken(t[1..], rest);
    }
  }

  /** Every piece `split()` returns is a token: non-empty and free of whitespace. */
  lemma {:induction false} SplitTokens(s: string)
    ensures forall t :: t in Split(s) ==> IsToken(t)
    decreases |s|
  {
    var rest := TrimStart(s);
    if rest != [] {
      var n := WordEnd(rest);
      SplitTokens(rest[n..]);
      assert Split(s) == [rest[..n]] + Split(rest[n..]);
    }
  }

  /** A leading blank changes nothing in what `split()` returns. */
  lemma SplitSkipsSpace(s: string)
    ensures Split(" " + s) == Split(s)
  {
    assert (" " + s)[1..] == s;
  }

  /** A token followed by a blank or by nothing is the first thing `split()` returns. */
  lemma SplitToken(t: string, rest: string)
    requires IsToken(t)
    requires rest == [] || IsSpace(rest[0])
    ensures Split(t + rest) == [t] + Split(rest)
  {
    var s := t + rest;
    assert TrimStart(s) == s;
    WordEndOfToken(t, rest);
    assert s[..|t|] == t;
    assert s[|t|..] == rest;
  }

  lemma SplitSingle(t: string)
    requires IsToken(t)
    ensures Split(t) == [t]
  {
    assert t + "" == t;
    SplitToken(t, "");
    assert TrimStart("") == "";
  }

  lemma SplitJoinCons(t: string, ts: seq<string>)
    requires IsToken(t) && ts != []
    requires Split(Join(ts)) == ts
    ensures Split(Join([t] + ts)) == [t] + ts
  {
    var j := Join(ts);
    assert ([t] + ts)[1..] == ts;
    assert Join([t] + ts) == t + (" " + j);
    SplitToken(t, " " + j);
    SplitSkipsSpace(j);
  }

  /** Splitting joined tokens gives the tokens back. */
  lemma {:induction false} SplitJoin(ts: seq<string>)
    requires forall t :: t in ts ==> IsToken(t)
    ensures Split(Join(ts)) == ts
  {
    if |ts| == 0 {
      assert Join(ts) == "" && TrimStart("") == "";
    } else if |ts| == 1 {
      assert ts[0] in ts;
      SplitSingle(ts[0]);
    } else {
      assert ts[0] in ts;
      SplitJoin(ts[1..]);
      SplitJoinCons(ts[0], ts[1..]);
      assert ts == [ts[0]] + ts[1..];
    }
  }

  lemma {:induction false} JoinEnds(ts: seq<string>)
    requires forall t :: t in ts ==> IsToken(t)
    ensures ts != [] ==> Join(ts) != [] && !IsSpace(Join(ts)[0]) && !IsSpace(Join(ts)[|Join(ts)| - 1])
  {
    if ts != [] {
      assert ts[0] in ts;
    }
    if |ts| > 1 {
      JoinEnds(ts[1..]);
      var j := Join(ts[1..]);
      assert Join(ts) == ts[0] + (" " + j);
      assert Join(ts)[0] == ts[0][0];
      assert Join(ts)[|Join(ts)| - 1] == j[|j| - 1];
    }
  }

  /** Joined tokens have no surrounding whitespace for `strip()` to remove. */
  lemma StripJoin(ts: seq<string>)
    requires forall t :: t in ts ==> IsToken(t)
    ensures Strip(Join(ts)) == Join(ts)
  {
    JoinEnds(ts);
  }

  /** `TrimStart` returns a suffix of its input, and what it drops is whitespace. */
  lemma {:induction false} TrimStartSuffix(s: string)
    ensures TrimStart(s) == s[|s| - |TrimStart(s)|..]
    ensures forall k :: 0 <= k < |s| - |TrimStart(s)| ==> IsSpace(s[k])
  {
    if s != [] && IsSpace(s[0]) {
      TrimStartSuffix(s[1..]);
      assert s[1..][|s| - 1 - |TrimStart(s[1..])|..] == s[|s| - |TrimStart(s)|..];
      forall k | 1 <= k < |s| - |TrimStart(s)|
        ensures IsSpace(s[k])
      {
        assert s[k] == s[1..][k - 1];
      }
    }
  }

  /** What `TrimEnd` drops from the end of its input is whitespace. */
  lemma {:induction false} TrimEndPrefix(s: string)
    ensures forall k :: |TrimEnd(s)| <= k < |s| ==> IsSpace(s[k])
  {
    if s != [] && IsSpace(s[|s| - 1]) {
      TrimEndPrefix(s[..|s| - 1]);
      forall k | |TrimEnd(s)| <= k < |s| - 1
        ensures IsSpace(s[k])
      {
        assert s[k] == s[..|s| - 1][k];
      }
    }
  }

  /** The cut points of `strip()`: it keeps `s[i..j]`, and everything before `i`
      and from `j` on is whitespace. */
  lemma StripCut(s: string) returns (i: nat, j: nat)
    ensures i <= j <= |s| && Strip(s) == s[i..j]
    ensures forall k :: 0 <= k < i ==> IsSpace(s[k])
    ensures forall k :: j <= k < |s| ==> IsSpace(s[k])
  {
    var t := TrimStart(s);
    TrimStartSuffix(s);
    TrimEndPrefix(t);
    i := |s| - |t|;
    j := i + |TrimEnd(t)|;
    assert t == s[i..];
    assert t[..j - i] == s[i..j];
    forall k | j <= k < |s|
      ensures IsSpace(s[k])
    {
      assert s[k] == t[k - i];
    }
  }

  /** `strip()` keeps a contiguous middle part of `s` and removes only whitespace
      on either side of it. */
  lemma StripMiddle(s: string)
    ensures exists i, j :: (0 <= i <= j <= |s| && Strip(s) == s[i..j]
      && (forall k :: 0 <= k < i ==> IsSpace(s[k]))
      && (forall k :: j <= k < |s| ==> IsSpace(s[k])))
  {
    var i, j := StripCut(s);
  }
}
