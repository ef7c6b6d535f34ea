/**
 An issue: a top-level Org heading with its drawers and its body
 (`crates/vissue-core/src/model.rs`).
 */
module Issue {
  import opened Base

  /// Property names and values.
  type Table = map<string, string>

  /// One logbook line. `raw` is the line itself when its fields would not be
  /// written back the way they were read.
  datatype LogEntry = LogEntry(
    timestamp: string,
    fromState: Option<string>,
    toState: Option<string>,
    note: Option<string>,
    raw: Option<string>)

  datatype Heading = Heading(
    id: string,
    title: string,
    state: string,
    priority: char,
    properties: Table,
    orgTags: seq<string>,
    statistics: Option<string>,
    propertyOrder: seq<string>,
    extraDrawers: seq<string>,
    body: string,
    logbook: seq<LogEntry>,
    lineStart: nat,
    lineEnd: nat)

  const CLAIMED_BY := "CLAIMED_BY"
  const CLAIMED_AT := "CLAIMED_AT"
  const CLAIM_RELEASED_NOTE := "claim released:"
  const VOTES_DRAWER := "VOTES"
  const CONFLICT_DRAWER := "MERGE_CONFLICT"
}
