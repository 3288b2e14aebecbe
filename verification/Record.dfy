/** internal/record/event.go: one request summary and its classification. */
module Record {
  import opened Common

  const MANIFEST := "manifest"

  /** A zero Go time is ts == None; otherwise ts holds Unix seconds. */
  datatype Event = Event(
    ts: Option<int>,
    clientIP: string,
    registry: string,
    host: string,
    eventType: string,
    repository: string,
    reference: string,
    verb: string,
    status: int,
    bytes: int,
    durationMS: int,
    userAgent: string,
    error: string,
    pullUser: string)
  {
    predicate IsPull() {
      && eventType == MANIFEST
      && 200 <= status < 300
      && var m := ToUpper(TrimSpace(verb)); m == "" || m == "GET"
    }

    predicate IsError() {
      status >= 400 || (error != "" && (status == 0 || status >= 500))
    }
  }

  /** A request never counts both as a pull and as a failure, so the two dashboard columns are disjoint. */
  lemma PullsAreNotErrors(e: Event)
    ensures !(e.IsPull() && e.IsError())
  {
  }
}
