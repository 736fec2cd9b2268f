# hc-bulk selection-and-update engine, modelled in Dafny

`hc-bulk` is a command-line bulk editor for Healthchecks.io monitoring checks.
After it fetches the checks, it does the following:

- It **selects** the checks whose name and slug match optional regular
  expressions and whose lower-cased status is in an optional set.
- It **plans** one sparse update payload per selected check. In a payload an
  absent field means "leave unchanged". The tags field comes from a **tag
  reconciler**: either the tags are replaced outright, or tokens are added and
  removed and the result is rendered sorted.
- Unless it is a dry run or the operator declines, it **applies** the plan in
  order. Each remote call goes through an exponential **backoff** wrapper for
  rate-limit responses. The loop counts the entries that failed and exits with
  status 1 when any did.

The model has these modules:

- `Text`: Python's `split()`, `" ".join`, `strip()` and `lower()`.
- `Order`: Python's `<` on strings, and `sorted` of a set of strings as the
  unique strictly increasing listing.
- `Checks`: the `Check` and `CheckUpdate` records.
- `Filter`: `_match_regex`, `_match_status`, `select_checks`.
- `Tags`: `compute_tags`.
- `Planner`: `build_update`.
- `Retry`: `retry_on_ratelimit`.
- `BulkUpdate`: the plan and execution part of `cmd_bulk_update`.

The loops of the source are modelled as methods, each proved equal to a
specification function. The properties are proved about those functions.

The remote service is an oracle. For each call, identified by the position of
its plan entry and by the call itself, it gives the finite sequence of outcomes
that successive attempts receive. Each outcome is "rate limited", a failure, or
an answer. A call whose outcomes are all "rate limited" is still being retried
when they run out. The command then never returns (`NeverReturns`).

Errors other than the authentication and API errors that the loop catches
escape the command (`Uncaught`).

With no tag option, the reconciler still compares its sorted rendering with the
raw current string. A check whose tags are not already sorted, single-spaced
and free of duplicates therefore gets a tags field in its payload, even when
only an unrelated field was requested. The model follows the code here. The
"minimal payload" and "no instruction, no update" properties hold exactly for
tag strings in that sorted form (`Planner.NoInstructionNoUpdate`,
`Planner.TimezoneOnlyPayload`). `Planner.TimezoneOnlyRewritesUnsortedTags`
shows the rewrite.

## Model

| member | source | states |
|---|---|---|
| Text.Split | hc_bulk/cli.py:109 | `str.split()` never yields an empty piece |
| Text.SplitTokens | hc_bulk/cli.py:109 | every piece `str.split()` yields is a non-empty, whitespace-free token |
| Text.SplitJoin | hc_bulk/cli.py:115 | splitting the single-space join of whitespace-free tokens gives the tokens back |
| Text.Strip | hc_bulk/cli.py:107 | `strip()` leaves no whitespace at either end, and a string without any is unchanged |
| Text.StripCut | hc_bulk/cli.py:107 | `strip()` keeps `s[i..j]` for cut points `i <= j`, and everything before `i` and from `j` on is whitespace |
| Text.StripMiddle | hc_bulk/cli.py:107 | `strip()` returns a contiguous middle part of its input, with only whitespace removed on either side |
| Text.StripJoin | hc_bulk/cli.py:115 | the `.strip()` after joining tokens changes nothing |
| Text.JoinEnds | hc_bulk/cli.py:115 | a join of tokens starts and ends with a non-space character |
| Order.Insert | hc_bulk/cli.py:115 | inserting into a strictly sorted listing keeps it strictly sorted, with the element added |
| Order.SortDistinct | hc_bulk/cli.py:115 | `sorted(set(...))`: strictly increasing, with exactly the input's elements |
| Order.SortedUnique | hc_bulk/cli.py:115 | two strictly sorted listings of the same set are equal |
| Order.BelowTotal | hc_bulk/cli.py:115 | any two distinct strings are ordered one way or the other |
| Order.BelowTransitive | hc_bulk/cli.py:115 | string order is transitive |
| Filter.MatchRegex | hc_bulk/cli.py:67-70 | no pattern matches everything; `None` or empty text matches no pattern; otherwise the pattern's search decides |
| Filter.MatchStatus | hc_bulk/cli.py:73-76 | no set or an empty set matches everything; otherwise the lower-cased status, `None` read as `""`, must be in the set |
| Filter.SelectedCounts | hc_bulk/cli.py:79-94 | each check appears in the selection as often as in the input if it passes all three criteria, and otherwise not at all |
| Filter.SelectChecks | hc_bulk/cli.py:79-94 | the selection loop returns exactly `Selected` |
| Filter.SelectedIsSubsequence | hc_bulk/cli.py:79-94 | the selection keeps input order: it embeds in the input at increasing positions |
| Filter.SelectedAppend | hc_bulk/cli.py:79-94 | selecting from a concatenation is concatenating the selections |
| Filter.SelectedIdempotent | hc_bulk/cli.py:79-94 | selecting again from the selection returns it unchanged |
| Tags.Without | hc_bulk/cli.py:112-113 | removal keeps exactly the tokens not removed |
| Tags.Rendered | hc_bulk/cli.py:109-115 | the rendered string is sorted, single-spaced and duplicate-free, with token set `(current ∪ add) \ remove` |
| Tags.CanonicalUnique | hc_bulk/cli.py:115-116 | two sorted renderings with the same tokens are the same string |
| Tags.ComputeTags | hc_bulk/cli.py:99-116 | a replacement is returned stripped, whatever it is; otherwise the result is the sorted rendering of the target tokens, `None` exactly when the current string already is that rendering |
| Tags.NoChangeWhenCanonical | hc_bulk/cli.py:115-116 | a current string already in sorted form with the target tokens gives "no change" |
| Tags.ReconcileIdempotent | hc_bulk/cli.py:109-116 | repeating an add/remove request on its own outcome gives "no change" |
| Tags.AddPresentIsNoChange | hc_bulk/cli.py:110-116 | adding tokens already present to a sorted tag string gives "no change" |
| Tags.RemoveAbsentIsNoChange | hc_bulk/cli.py:112-116 | removing absent tokens from a sorted tag string gives "no change" |
| Tags.UnsortedCurrentIsRewritten | hc_bulk/cli.py:109-116 | with no operation, `"b a"` becomes `"a b"`, not "no change" |
| Tags.AddTokenBefore | hc_bulk/cli.py:110-116 | adding a token that sorts first to a one-token string gives both tokens in order |
| Tags.GivenTokensOfGiven | hc_bulk/cli.py:110-113 | an add or remove argument contributes tokens exactly when it is truthy; an empty one contributes none, like an absent one |
| Tags.EmptyOperationsContributeNothing | hc_bulk/cli.py:110-113 | an absent or empty add or remove contributes no token |
| Tags.AddAndRemoveCancels | hc_bulk/cli.py:110-113 | a token both added and removed is absent afterwards |
| Tags.EmptyReplacementWins | hc_bulk/cli.py:106-107 | an empty replacement is returned over any add or remove |
| Planner.BuildUpdate | hc_bulk/cli.py:121-169 | `None` exactly when all nine pass-through options are absent and the reconciler reports no change; otherwise every field equals its option, tags come from the reconciler and `unique` is absent |
| Planner.UntouchedCanonicalTags | hc_bulk/cli.py:138 | without a tag operation, a tag string in sorted form is left alone |
| Planner.OnlyRequestedFields | hc_bulk/cli.py:138-169 | each pass-through field is present exactly when requested, and tags only when a tag operation was requested or the current tags are not in sorted form |
| Planner.NoInstructionNoUpdate | hc_bulk/cli.py:155-169 | with no option at all, there is no update exactly when the tags are in sorted form |
| Planner.TimezoneOnlyPayload | hc_bulk/cli.py:137-169 | only a timezone requested, on sorted tags, gives a payload holding the timezone alone |
| Planner.TimezoneOnlyRewritesUnsortedTags | hc_bulk/cli.py:138-169 | the same request on unsorted tags also carries the sorted tags |
| Planner.FalsyValuesArePresent | hc_bulk/cli.py:155-169 | `manual_resume=False` and empty name or description still produce a payload |
| Planner.AddTokenPayload | hc_bulk/cli.py:138-169 | adding a token that sorts first to a one-token check sends only the tags field, both tokens in order |
| Retry.Delays | hc_bulk/cli.py:176-182 | the k-th sleep is the k-th delay of the doubling-with-ceiling sequence |
| Retry.LeadingRateLimits | hc_bulk/cli.py:176-182 | counts exactly the leading "rate limited" outcomes |
| Retry.RetryOnRateLimit | hc_bulk/cli.py:172-183 | the retry loop sleeps once per leading "rate limited" outcome, then returns the first answer or raises the first other failure |
| Retry.DelayClosedForm | hc_bulk/cli.py:176-182 | the i-th delay is `min(max_sleep, 2^i)` |
| Retry.DelayBounds | hc_bulk/cli.py:176-182 | delays lie between 1 and the ceiling and never decrease |
| Retry.DefaultDelays | hc_bulk/cli.py:172-182 | with the default ceiling 8 the sleeps are 1, 2, 4, 8, 8 |
| Retry.FirstSleepIsOne | hc_bulk/cli.py:175-176 | every wrapped call starts again at delay 1 |
| Retry.SettlesAfterRateLimits | hc_bulk/cli.py:176-182 | with no retry cap, k rate limits then an outcome give exactly k sleeps and that outcome, the answer unchanged |
| Retry.FailureIsImmediate | hc_bulk/cli.py:177-179 | a non-rate-limit failure propagates with no sleep |
| BulkUpdate.PlanOfEntry | hc_bulk/cli.py:308-325 | a plan built entry by entry has one entry per check, entry `i` holding check `i`, its payload and the shared pause flag |
| BulkUpdate.PlannedEntry | hc_bulk/cli.py:308-325 | one plan entry per selected check, in order, with its payload and the shared pause flag |
| BulkUpdate.BuildPlan | hc_bulk/cli.py:308-325 | the planning loop builds exactly `Planned` |
| BulkUpdate.ApplyCall | hc_bulk/cli.py:345-346 | a wrapped call as the loop issues it ends as its retry run does |
| BulkUpdate.ApplyItem | hc_bulk/cli.py:351-358 | the loop body for one entry computes exactly `RunItem` |
| BulkUpdate.ItemCallOrder | hc_bulk/cli.py:352-355 | the update comes first, and the pause is issued only when requested and the update, if any, returned |
| BulkUpdate.ItemErrorCases | hc_bulk/cli.py:351-357 | an entry counts as an error exactly when its update, or else its pause, raised an authentication or API error |
| BulkUpdate.StoppedStaysStopped | hc_bulk/cli.py:350-358 | once an error escapes or a call hangs, later entries change nothing |
| BulkUpdate.ExecutePlan | hc_bulk/cli.py:348-358 | the execution loop computes exactly `Executed` |
| BulkUpdate.ErrorsCountFailedItems | hc_bulk/cli.py:348-361 | when every entry completes or fails with a counted error (no error escapes and no call stays rate-limited), every entry is attempted in order, the counter equals the number of failed entries, and the exit status is 1 exactly when one failed |
| BulkUpdate.BulkUpdateCommand | hc_bulk/cli.py:295-361 | no selection, a dry run or a declined prompt issues no call and exits 0; otherwise the plan is executed with the default ceiling and the command ends as `Finish` says |

## Left out

- Fetching checks, `make_client`, `load_dotenv` and the `Client` calls: network and configuration. The checks are an input, and the remote calls are the outcome oracle.
- The regular-expression engine: a pattern is modelled only as its search predicate on a string.
- Building the criteria from the command line (`re.compile`, lower-casing the status options) is not part of this model. `Filter.Criteria` holds the result.
- `time.sleep` and the float arithmetic of the delay: sleeps are recorded as natural-number delays, with the ceiling as a natural number.
- Retry.RetryOnRateLimit: the real wrapper retries forever while rate limited. With a finite oracle the model reports `StillRetrying` instead, and the command `NeverReturns`.
- Text.Lower: lower-cases the ASCII letters only. Python's `str.lower()` also maps other alphabets.
- The click option surface, the confirmation prompt (an input boolean here), the preview and summary output, `tqdm` and logging: user interface only.
- `cmd_ls`: it reuses `select_checks` and adds only printing.
- Planner.BuildUpdate: the payload constructor `CheckUpdate` comes from the `healthchecks_io` client library, which is not part of this model. It is assumed to accept every value and store it unchanged. If it validated a field (a timeout range, a timezone, a schedule) and raised, `build_update` would fail while the plan is built, outside the `try` of the execution loop.
- Logical calls are traced, not individual attempts. The sleeps between attempts are traced.
