/**
 * The filter engine: keeps, in order, the checks whose name and slug match
 * the optional patterns and whose status is in the optional status set.
 */
module Filter {
  import opened Wrappers
  import opened Text
  import opened Checks

  /** A compiled pattern, seen only through whether `pattern.search(text)` finds a match. */
  type Regex = string -> bool

  /** The selection criteria; an absent criterion selects everything. */
  datatype Criteria = Criteria(
    nameRe: Option<Regex>,
    slugRe: Option<Regex>,
    statuses: Option<set<string>>)

  /** `_match_regex`: no pattern matches everything; absent or empty text matches no pattern. */
  function MatchRegex(val: Option<string>, pattern: Option<Regex>): (matched: bool)
    ensures pattern.None? ==> matched
    ensures pattern.Some? && (val.None? || val.value == "") ==> !matched
    ensures pattern.Some? && val.Some? && val.value != "" ==> (matched <==> pattern.value(val.value))
  {
    pattern.None? || (val.Some? && val.value != "" && pattern.value(val.value))
  }

  /** `_match_status`: no set, or an empty one, matches everything; otherwise the
      lower-cased status, with a missing status read as "", must be in the set. */
  function MatchStatus(val: Option<string>, statuses: Option<set<string>>): (matched: bool)
    ensures statuses.None? || statuses.value == {} ==> matched
    ensures statuses.Some? && statuses.value != {} ==> (matched <==> Lower(val.GetOr("")) in statuses.value)
  {
    statuses.None? || statuses.value == {} || Lower(val.GetOr("")) in statuses.value
  }

  /** All three criteria hold of `c`. */
  predicate Passes(c: Check, crit: Criteria) {
    MatchRegex(c.name, crit.nameRe) && MatchRegex(c.slug, crit.slugRe) && MatchStatus(c.status, crit.statuses)
  }

  /** The checks of `checks` that pass `crit`, in their original order. */
  function Selected(checks: seq<Check>, crit: Criteria): seq<Check>
    decreases |checks|
  {
    if checks == [] then []
    else
      var n := |checks| - 1;
      Selected(checks[..n], crit) + (if Passes(checks[n], crit) then [checks[n]] else [])
  }

  /** Every check that passes the criteria is selected as often as it occurs in
      the input, and no other check is selected. */
  lemma {:induction false} SelectedCounts(checks: seq<Check>, crit: Criteria)
    ensures forall c :: multiset(Selected(checks, crit))[c] == if Passes(c, crit) then multiset(checks)[c] else 0
    decreases |checks|
  {
    if checks != [] {
      var n := |checks| - 1;
      assert checks == checks[..n] + [checks[n]];
      SelectedCounts(checks[..n], crit);
    }
  }

  /** `select_checks`. */
  method SelectChecks(checks: seq<Check>, crit: Criteria) returns (selected: seq<Check>)
    ensures selected == Selected(checks, crit)
  {
    selected := [];
    for i := 0 to |checks|
      invariant selected == Selected(checks[..i], crit)
    {
      assert checks[..i + 1][..i] == checks[..i];
      var c := checks[i];
      if !MatchRegex(c.name, crit.nameRe) {
        continue;
      }
      if !MatchRegex(c.slug, crit.slugRe) {
        continue;
      }
      if !MatchStatus(c.status, crit.statuses) {
        continue;
      }
      selected := selected + [c];
    }
    assert checks[..|checks|] == checks;
  }

  /** `idx` places every element of `a` at a position of `b`, positions increasing. */
  predicate Embeds(idx: seq<nat>, a: seq<Check>, b: seq<Check>) {
    |idx| == |a|
    && (forall k :: 0 <= k < |idx| ==> idx[k] < |b| && a[k] == b[idx[k]])
    && (forall k, l :: 0 <= k < l < |idx| ==> idx[k] < idx[l])
  }

  /** `a` is `b` with some elements left out and the rest in their order. */
  ghost predicate IsSubsequence(a: seq<Check>, b: seq<Check>) {
    exists idx: seq<nat> :: Embeds(idx, a, b)
  }

  lemma EmbedsExtend(idx: seq<nat>, a: seq<Check>, b: seq<Check>, x: Check)
    requires Embeds(idx, a, b)
    ensures Embeds(idx, a, b + [x])
    ensures Embeds(idx + [|b|], a + [x], b + [x])
  {
    var b', a', idx' := b + [x], a + [x], idx + [|b|];
    assert forall k :: 0 <= k < |idx| ==> b'[idx[k]] == b[idx[k]];
    assert forall k :: 0 <= k < |idx| ==> idx'[k] == idx[k] && a'[k] == a[k];
  }

  /** Selection keeps the input order: its result is a subsequence of the input. */
  lemma {:induction false} SelectedIsSubsequence(checks: seq<Check>, crit: Criteria)
    ensures IsSubsequence(Selected(checks, crit), checks)
    decreases |checks|
  {
    if checks == [] {
      assert Embeds([], [], checks);
    } else {
      var n := |checks| - 1;
      var p, x := checks[..n], checks[n];
      assert checks == p + [x];
      SelectedIsSubsequence(p, crit);
      var sel := Selected(p, crit);
      var idx: seq<nat> :| Embeds(idx, sel, p);
      EmbedsExtend(idx, sel, p, x);
      if Passes(x, crit) {
        var idx': seq<nat> := idx + [|p|];
        assert Selected(checks, crit) == sel + [x];
        assert Embeds(idx', Selected(checks, crit), checks);
      } else {
        assert Selected(checks, crit) == sel;
        assert Embeds(idx, Selected(checks, crit), checks);
      }
    }
  }

  /** Selecting from two lists joined is selecting from each and joining. */
  lemma {:induction false} SelectedAppend(a: seq<Check>, b: seq<Check>, crit: Criteria)
    ensures Selected(a + b, crit) == Selected(a, crit) + Selected(b, crit)
    decreases |b|
  {
    if b == [] {
      assert a + b == a;
    } else {
      var n := |b| - 1;
      assert (a + b)[..|a + b| - 1] == a + b[..n];
      SelectedAppend(a, b[..n], crit);
    }
  }

  /** Filtering the filtered list again with the same criteria changes nothing. */
  lemma {:induction false} SelectedIdempotent(checks: seq<Check>, crit: Criteria)
    ensures Selected(Selected(checks, crit), crit) == Selected(checks, crit)
    decreases |checks|
  {
    if checks != [] {
      var n := |checks| - 1;
      var p := checks[..n];
      var last := if Passes(checks[n], crit) then [checks[n]] else [];
      SelectedAppend(Selected(p, crit), last, crit);
      SelectedIdempotent(p, crit);
      if Passes(checks[n], crit) {
        assert Selected(last, crit) == last by {
          assert last[..0] == [];
        }
      }
    }
  }
}
