/**
 * The tag reconciler: a check's tags are one string holding a set of
 * whitespace-separated tokens; `compute_tags` either replaces that string,
 * or adds and removes tokens and renders the set sorted, reporting "no
 * change" when the rendering equals the current string.
 */
module Tags {
  import opened Wrappers
  import opened Text
  import opened Order

  /** The set of tokens a tag string holds. */
  function TokenSet(s: string): set<string> {
    Elems(Split(s))
  }

  /** The tokens of an optional tag-operation argument; an absent one has none. */
  function GivenTokens(s: Option<string>): set<string> {
    if s.Some? then TokenSet(s.value) else {}
  }

  /** Python truthiness of optional text: present and non-empty. */
  predicate Given(s: Option<string>) {
    s.Some? && s.value != ""
  }

  /** The two readings of an optional argument agree on its tokens: a present
      but empty argument has none, as an absent one. */
  lemma GivenTokensOfGiven(s: Option<string>)
    ensures GivenTokens(s) == (if Given(s) then TokenSet(s.value) else {})
  {
    assert Split("") == [] by { assert TrimStart("") == ""; }
  }

  /** A tag string in the form the reconciler renders: distinct tokens in
      increasing order, separated by single spaces, nothing around them. */
  predicate Canonical(s: string) {
    StrictlySorted(Split(s)) && Join(Split(s)) == s
  }

  /** The token set `(tokens(current) | tokens(add)) - tokens(remove)`. */
  function TargetTokens(current: Option<string>, addTags: Option<string>, removeTags: Option<string>): set<string> {
    (TokenSet(current.GetOr("")) + GivenTokens(addTags)) - GivenTokens(removeTags)
  }

  lemma ElemsAppend(a: seq<string>, b: seq<string>)
    ensures Elems(a + b) == Elems(a) + Elems(b)
  {
    assert forall x :: x in a + b <==> x in a || x in b;
  }

  /** The elements of `xs` that are not in `drop`, in order. */
  function Without(xs: seq<string>, drop: seq<string>): (r: seq<string>)
    ensures Elems(r) == Elems(xs) - Elems(drop)
  {
    if xs == [] then []
    else
      assert xs == [xs[0]] + xs[1..];
      var head := if xs[0] in drop then [] else [xs[0]];
      ElemsAppend([xs[0]], xs[1..]);
      ElemsAppend(head, Without(xs[1..], drop));
      head + Without(xs[1..], drop)
  }

  /** The string the non-replacing path renders:
      `" ".join(sorted((set(current) | set(add)) - set(remove))).strip()`. */
  function Rendered(current: Option<string>, addTags: Option<string>, removeTags: Option<string>): (rendered: string)
    ensures Canonical(rendered)
    ensures TokenSet(rendered) == TargetTokens(current, addTags, removeTags)
  {
    var tags := Split(current.GetOr(""));
    var added := if Given(addTags) then tags + Split(addTags.value) else tags;
    var kept := if Given(removeTags) then Without(added, Split(removeTags.value)) else added;
    var sorted := SortDistinct(kept);
    SplitTokens(current.GetOr(""));
    SplitTokens(addTags.GetOr(""));
    ElemsAppend(tags, if Given(addTags) then Split(addTags.value) else []);
    GivenTokensOfGiven(addTags);
    GivenTokensOfGiven(removeTags);
    assert Elems(kept) == TargetTokens(current, addTags, removeTags);
    assert forall t :: t in sorted ==> IsToken(t) by {
      forall t | t in sorted ensures IsToken(t) {
        assert t in Elems(sorted);
      }
    }
    SplitJoin(sorted);
    StripJoin(sorted);
    Strip(Join(sorted))
  }

  /** Two canonical tag strings with the same tokens are the same string. */
  lemma CanonicalUnique(a: string, b: string)
    requires Canonical(a) && Canonical(b)
    requires TokenSet(a) == TokenSet(b)
    ensures a == b
  {
    SortedUnique(Split(a), Split(b));
  }

  /** `compute_tags`: the new tag string, or `None` for "leave the tags as they are". */
  function ComputeTags(current: Option<string>, setTags: Option<string>, addTags: Option<string>, removeTags: Option<string>): (r: Option<string>)
    ensures setTags.Some? ==> r == Some(Strip(setTags.value))
    ensures setTags.None? && r.Some? ==>
      Canonical(r.value) && TokenSet(r.value) == TargetTokens(current, addTags, removeTags) && r.value != current.GetOr("")
    ensures setTags.None? ==>
      (r.None? <==> Canonical(current.GetOr("")) && TokenSet(current.GetOr("")) == TargetTokens(current, addTags, removeTags))
  {
    if setTags.Some? then Some(Strip(setTags.value))
    else
      var rendered := Rendered(current, addTags, removeTags);
      var cur := current.GetOr("");
      assert Canonical(cur) && TokenSet(cur) == TokenSet(rendered) ==> cur == rendered by {
        if Canonical(cur) && TokenSet(cur) == TokenSet(rendered) {
          CanonicalUnique(cur, rendered);
        }
      }
      if rendered != cur then Some(rendered) else None
  }

  /** The tags a check has once the result of `ComputeTags` is applied to it. */
  function Applied(current: Option<string>, r: Option<string>): string {
    if r.Some? then r.value else current.GetOr("")
  }

  /** The non-replacing path reports "no change" for a canonical string that
      already holds exactly the target tokens. */
  lemma NoChangeWhenCanonical(current: Option<string>, addTags: Option<string>, removeTags: Option<string>)
    requires Canonical(current.GetOr(""))
    requires TokenSet(current.GetOr("")) == TargetTokens(current, addTags, removeTags)
    ensures ComputeTags(current, None, addTags, removeTags) == None
  {
  }

  lemma ReapplySets(c: set<string>, a: set<string>, r: set<string>)
    ensures (((c + a) - r) + a) - r == (c + a) - r
  {
  }

  /** Running the same add/remove request again on its own outcome changes nothing. */
  lemma ReconcileIdempotent(current: Option<string>, addTags: Option<string>, removeTags: Option<string>)
    ensures ComputeTags(Some(Applied(current, ComputeTags(current, None, addTags, removeTags))), None, addTags, removeTags) == None
  {
    var after := Applied(current, ComputeTags(current, None, addTags, removeTags));
    ReapplySets(TokenSet(current.GetOr("")), GivenTokens(addTags), GivenTokens(removeTags));
    assert Canonical(after) && TokenSet(after) == TargetTokens(current, addTags, removeTags);
    NoChangeWhenCanonical(Some(after), addTags, removeTags);
  }

  lemma AddPresentTarget(current: string, addTags: string)
    requires TokenSet(addTags) <= TokenSet(current)
    ensures TargetTokens(Some(current), Some(addTags), None) == TokenSet(current)
  {
  }

  /** Adding tokens a canonical tag string already holds is no change. */
  lemma AddPresentIsNoChange(current: string, addTags: string)
    requires Canonical(current)
    requires TokenSet(addTags) <= TokenSet(current)
    ensures ComputeTags(Some(current), None, Some(addTags), None) == None
  {
    AddPresentTarget(current, addTags);
    NoChangeWhenCanonical(Some(current), Some(addTags), None);
  }

  lemma RemoveAbsentTarget(current: string, removeTags: string)
    requires TokenSet(removeTags) !! TokenSet(current)
    ensures TargetTokens(Some(current), None, Some(removeTags)) == TokenSet(current)
  {
  }

  /** Removing tokens a canonical tag string does not hold is no change. */
  lemma RemoveAbsentIsNoChange(current: string, removeTags: string)
    requires Canonical(current)
    requires TokenSet(removeTags) !! TokenSet(current)
    ensures ComputeTags(Some(current), None, None, Some(removeTags)) == None
  {
    RemoveAbsentTarget(current, removeTags);
    NoChangeWhenCanonical(Some(current), None, Some(removeTags));
  }

  lemma SplitTwo(a: string, b: string)
    requires IsToken(a) && IsToken(b)
    ensures Split(a + " " + b) == [a, b]
  {
    SplitJoin([a, b]);
    assert Join([a, b]) == a + " " + b;
  }

  lemma ElemsPair(a: string, b: string)
    ensures Elems([a, b]) == {a, b}
  {
    assert forall x :: x in [a, b] <==> x == a || x == b;
  }

  lemma SortedPair(a: string, b: string)
    requires IsToken(a) && IsToken(b) && Below(a, b)
    ensures Canonical(a + " " + b)
  {
    SplitTwo(a, b);
    assert Join([a, b]) == a + " " + b;
  }

  lemma UnsortedPair(a: string, b: string)
    requires IsToken(a) && IsToken(b) && Below(a, b)
    ensures !Canonical(b + " " + a)
  {
    SplitTwo(b, a);
    BelowAsymmetric(a, b);
    SortedPairBelow(b, a);
  }

  lemma PairTokens(a: string, b: string)
    requires IsToken(a) && IsToken(b)
    ensures TokenSet(a + " " + b) == TokenSet(b + " " + a)
  {
    SplitTwo(a, b);
    SplitTwo(b, a);
    ElemsPair(a, b);
    ElemsPair(b, a);
  }

  lemma TargetWithoutOperations(current: string)
    ensures TargetTokens(Some(current), None, None) == TokenSet(current)
  {
  }

  /** Two tokens out of order are rewritten in order even when nothing is
      added or removed: `"b a"` becomes `"a b"`, not "no change". */
  lemma UnsortedCurrentIsRewritten(a: string, b: string)
    requires IsToken(a) && IsToken(b) && Below(a, b)
    ensures ComputeTags(Some(b + " " + a), None, None, None) == Some(a + " " + b)
  {
    var cur, sorted := b + " " + a, a + " " + b;
    SortedPair(a, b);
    UnsortedPair(a, b);
    PairTokens(a, b);
    TargetWithoutOperations(cur);
    var r := ComputeTags(Some(cur), None, None, None);
    CanonicalUnique(r.value, sorted);
  }

  lemma SingleTokenSet(t: string)
    requires IsToken(t)
    ensures TokenSet(t) == {t}
  {
    SplitSingle(t);
    assert forall x :: x in [t] <==> x == t;
  }

  lemma PairTokenSet(a: string, b: string)
    requires IsToken(a) && IsToken(b)
    ensures TokenSet(a + " " + b) == {a, b}
  {
    SplitTwo(a, b);
    ElemsPair(a, b);
  }

  lemma AddOneTarget(current: string, t: string)
    requires IsToken(current) && IsToken(t)
    ensures TargetTokens(Some(current), Some(t), None) == {current, t}
  {
    SingleTokenSet(current);
    SingleTokenSet(t);
  }

  lemma AddNewTokenChanges(current: string, t: string)
    requires IsToken(current) && IsToken(t) && current != t
    ensures ComputeTags(Some(current), None, Some(t), None).Some?
    ensures TokenSet(ComputeTags(Some(current), None, Some(t), None).value) == {current, t}
  {
    AddOneTarget(current, t);
    SingleTokenSet(current);
    assert {current} != {current, t};
  }

  /** Adding a token that sorts before the single current token gives both,
      in order: `"prod"` plus `"okazo"` is `"okazo prod"`. */
  lemma AddTokenBefore(current: string, t: string)
    requires IsToken(current) && IsToken(t) && Below(t, current)
    ensures ComputeTags(Some(current), None, Some(t), None) == Some(t + " " + current)
  {
    BelowIrreflexive(t);
    AddNewTokenChanges(current, t);
    SortedPair(t, current);
    PairTokenSet(t, current);
    CanonicalUnique(ComputeTags(Some(current), None, Some(t), None).value, t + " " + current);
  }

  lemma NoTokensInEmpty(empty: string)
    requires empty == ""
    ensures TokenSet(empty) == {}
  {
    assert TrimStart(empty) == "";
  }

  /** An absent or empty addition or removal contributes no token. */
  lemma EmptyOperationsContributeNothing(current: Option<string>, addTags: Option<string>, removeTags: Option<string>)
    requires addTags == None || addTags == Some("")
    requires removeTags == None || removeTags == Some("")
    ensures GivenTokens(addTags) == {} && GivenTokens(removeTags) == {}
    ensures TargetTokens(current, addTags, removeTags) == TokenSet(current.GetOr(""))
  {
    if addTags.Some? {
      NoTokensInEmpty(addTags.value);
    }
    if removeTags.Some? {
      NoTokensInEmpty(removeTags.value);
    }
  }

  /** A token both added and removed ends up absent. */
  lemma AddAndRemoveCancels(current: Option<string>, addTags: Option<string>, removeTags: Option<string>, t: string)
    requires t in GivenTokens(addTags) && t in GivenTokens(removeTags)
    ensures var r := ComputeTags(current, None, addTags, removeTags);
      t !in TokenSet(Applied(current, r))
  {
  }

  /** A replacement wins over additions and removals, even an empty one. */
  lemma EmptyReplacementWins(current: Option<string>, addTags: Option<string>, removeTags: Option<string>)
    ensures ComputeTags(current, Some(""), addTags, removeTags) == Some("")
  {
  }
}
