/**
 * The update planner: one sparse update payload per selected check, built
 * from the requested field changes, with the tags field coming from the tag
 * reconciler; "no update" when no field is set.
 */
module Planner {
  import opened Wrappers
  import opened Text
  import opened Order
  import opened Checks
  import opened Tags

  /** The field-change instructions given on the command line, each optional. */
  datatype UpdateOptions = UpdateOptions(
    setName: Option<string>,
    setDesc: Option<string>,
    setTags: Option<string>,
    addTags: Option<string>,
    removeTags: Option<string>,
    setTimeout: Option<int>,
    setGrace: Option<int>,
    setSchedule: Option<string>,
    setTz: Option<string>,
    setMethods: Option<string>,
    setChannels: Option<string>,
    manualResume: Option<bool>)

  /** No instruction at all. */
  const NoOptions := UpdateOptions(None, None, None, None, None, None, None, None, None, None, None, None)

  /** None of the nine fields that pass straight through was requested. */
  predicate NoPassThrough(opts: UpdateOptions) {
    opts.setName.None? && opts.setDesc.None? && opts.setTimeout.None? && opts.setGrace.None?
    && opts.setSchedule.None? && opts.setTz.None? && opts.setMethods.None?
    && opts.setChannels.None? && opts.manualResume.None?
  }

  /** No tag operation was requested (Python truthiness for add and remove). */
  predicate NoTagOperation(opts: UpdateOptions) {
    opts.setTags.None? && !Given(opts.addTags) && !Given(opts.removeTags)
  }

  /** `build_update`: the payload for `check`, or `None` when all ten fields are absent. */
  function BuildUpdate(check: Check, opts: UpdateOptions): (r: Option<CheckUpdate>)
    ensures r.None? <==> NoPassThrough(opts) && ComputeTags(check.tags, opts.setTags, opts.addTags, opts.removeTags).None?
    ensures r.Some? ==>
      r.value.name == opts.setName && r.value.desc == opts.setDesc
      && r.value.timeout == opts.setTimeout && r.value.grace == opts.setGrace
      && r.value.schedule == opts.setSchedule && r.value.tz == opts.setTz
      && r.value.methods == opts.setMethods && r.value.channels == opts.setChannels
      && r.value.manualResume == opts.manualResume && r.value.unique.None?
      && r.value.tags == ComputeTags(check.tags, opts.setTags, opts.addTags, opts.removeTags)
  {
    var tagsNew := ComputeTags(check.tags, opts.setTags, opts.addTags, opts.removeTags);
    var payload := CheckUpdate(
      name := opts.setName,
      desc := opts.setDesc,
      tags := tagsNew,
      timeout := opts.setTimeout,
      grace := opts.setGrace,
      schedule := opts.setSchedule,
      tz := opts.setTz,
      methods := opts.setMethods,
      channels := opts.setChannels,
      manualResume := opts.manualResume,
      unique := None);
    if payload.name.None? && payload.desc.None? && payload.tags.None? && payload.timeout.None?
      && payload.grace.None? && payload.schedule.None? && payload.tz.None? && payload.methods.None?
      && payload.channels.None? && payload.manualResume.None?
    then None
    else Some(payload)
  }

  /** With no tag operation, a canonical tag string is never rewritten. */
  lemma UntouchedCanonicalTags(current: Option<string>, opts: UpdateOptions)
    requires NoTagOperation(opts)
    requires Canonical(current.GetOr(""))
    ensures ComputeTags(current, opts.setTags, opts.addTags, opts.removeTags) == None
  {
    GivenTokensOfGiven(opts.addTags);
    GivenTokensOfGiven(opts.removeTags);
    NoChangeWhenCanonical(current, opts.addTags, opts.removeTags);
  }

  /** The payload never overwrites a field nobody asked to change: each pass-through
      field is present exactly when requested, and the tags field only when a tag
      operation was requested or the current tag string is not in sorted form. */
  lemma OnlyRequestedFields(check: Check, opts: UpdateOptions)
    requires BuildUpdate(check, opts).Some?
    ensures var u := BuildUpdate(check, opts).value;
      (u.name.Some? <==> opts.setName.Some?) && (u.desc.Some? <==> opts.setDesc.Some?)
      && (u.timeout.Some? <==> opts.setTimeout.Some?) && (u.grace.Some? <==> opts.setGrace.Some?)
      && (u.schedule.Some? <==> opts.setSchedule.Some?) && (u.tz.Some? <==> opts.setTz.Some?)
      && (u.methods.Some? <==> opts.setMethods.Some?) && (u.channels.Some? <==> opts.setChannels.Some?)
      && (u.manualResume.Some? <==> opts.manualResume.Some?)
      && (u.tags.Some? ==> !NoTagOperation(opts) || !Canonical(check.tags.GetOr("")))
  {
    if NoTagOperation(opts) && Canonical(check.tags.GetOr("")) {
      UntouchedCanonicalTags(check.tags, opts);
    }
  }

  /** Without any instruction the planner asks for no update exactly when the
      check's tag string is already in sorted form. */
  lemma NoInstructionNoUpdate(check: Check)
    ensures BuildUpdate(check, NoOptions).None? <==> Canonical(check.tags.GetOr(""))
  {
    if Canonical(check.tags.GetOr("")) {
      UntouchedCanonicalTags(check.tags, NoOptions);
    }
  }

  /** Only a timezone requested, on a check whose tags are in sorted form: the
      payload carries the timezone and nothing else. */
  lemma TimezoneOnlyPayload(check: Check, tz: string)
    requires Canonical(check.tags.GetOr(""))
    ensures BuildUpdate(check, NoOptions.(setTz := Some(tz)))
      == Some(CheckUpdate(None, None, None, None, None, None, Some(tz), None, None, None, None))
  {
    UntouchedCanonicalTags(check.tags, NoOptions.(setTz := Some(tz)));
  }

  /** The same request on a check whose tags are out of order also rewrites the tags. */
  lemma TimezoneOnlyRewritesUnsortedTags(check: Check, tz: string, a: string, b: string)
    requires IsToken(a) && IsToken(b) && Below(a, b)
    requires check.tags == Some(b + " " + a)
    ensures BuildUpdate(check, NoOptions.(setTz := Some(tz)))
      == Some(CheckUpdate(None, None, Some(a + " " + b), None, None, None, Some(tz), None, None, None, None))
  {
    UnsortedCurrentIsRewritten(a, b);
  }

  /** `manual_resume=False` and empty strings are instructions too. */
  lemma FalsyValuesArePresent(check: Check, opts: UpdateOptions)
    requires opts.manualResume == Some(false) || opts.setName == Some("") || opts.setDesc == Some("")
    ensures BuildUpdate(check, opts).Some?
  {
  }

  /** Adding one token that sorts before the single current token sends only the
      tags field, holding both tokens in order (`--add-tags okazo` on a check
      tagged `prod` sends `okazo prod`). */
  lemma AddTokenPayload(check: Check, current: string, t: string)
    requires IsToken(current) && IsToken(t) && Below(t, current)
    requires check.tags == Some(current)
    ensures BuildUpdate(check, NoOptions.(addTags := Some(t)))
      == Some(CheckUpdate(None, None, Some(t + " " + current), None, None, None, None, None, None, None, None))
  {
    AddTokenBefore(current, t);
  }
}
