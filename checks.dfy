/**
 * The two records the core exchanges with the remote check service:
 * a check as listed, and the sparse update payload sent for one check.
 */
module Checks {
  import opened Wrappers

  /** A monitoring check as the service lists it; only the fields the core reads. */
  datatype Check = Check(
    uuid: string,
    name: Option<string>,
    slug: Option<string>,
    status: Option<string>,
    tags: Option<string>)

  /** The update payload: an absent field means "leave this field unchanged". */
  datatype CheckUpdate = CheckUpdate(
    name: Option<string>,
    desc: Option<string>,
    tags: Option<string>,
    timeout: Option<int>,
    grace: Option<int>,
    schedule: Option<string>,
    tz: Option<string>,
    methods: Option<string>,
    channels: Option<string>,
    manualResume: Option<bool>,
    unique: Option<seq<string>>)
}
