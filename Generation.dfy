/**
 * The status poll of `generateAIVideo` in index.js: after submitting the
 * generation task, the server asks for its status every 10 seconds until a
 * response reports "Success" with a file id.
 *
 * The loop in the server has no bound. Here it consumes a given, finite
 * sequence of status responses; running out of them without a result stands
 * for the server polling on.
 */
module Generation {
  import opened Wrappers
  import opened JsValues

  /** One answer of the status endpoint: `statusRes.data.status` and `statusRes.data.file_id`. */
  datatype StatusResponse = StatusResponse(status: JsValue, fileId: JsValue)

  /** The sleep before each status request, in milliseconds. */
  const PollIntervalMs: nat := 10000

  /** A response that ends the loop: status exactly "Success" and a truthy file id. */
  predicate EndsPolling(r: StatusResponse) {
    r.status == Str("Success") && Truthy(r.fileId)
  }

  /**
   * The poll loop. `polls` is the number of status requests made and
   * `waitedMs` the time slept before them; `fileId` is the file id the loop
   * ends with, or `None` when the responses ran out first.
   */
  method PollForFileId(responses: seq<StatusResponse>) returns (fileId: Option<JsValue>, polls: nat, waitedMs: nat)
    ensures polls <= |responses|
    // the loop ends at the first response with status "Success" and a truthy file id, and returns that id
    ensures fileId.Some? ==> 0 < polls <= |responses| && EndsPolling(responses[polls - 1])
                             && fileId.value == responses[polls - 1].fileId
    ensures forall k :: 0 <= k < polls - 1 ==> !EndsPolling(responses[k])
    // any other response leads to another request; with none left, the server would still be polling
    ensures fileId.None? <==> forall k :: 0 <= k < |responses| ==> !EndsPolling(responses[k])
    ensures fileId.None? ==> polls == |responses|
    ensures waitedMs == polls * PollIntervalMs
  {
    var current: JsValue := Undefined;
    polls, waitedMs := 0, 0;
    while !Truthy(current) && polls < |responses|
      invariant polls <= |responses|
      invariant waitedMs == polls * PollIntervalMs
      invariant !Truthy(current) ==> forall k :: 0 <= k < polls ==> !EndsPolling(responses[k])
      invariant Truthy(current) ==> 0 < polls && EndsPolling(responses[polls - 1])
                                    && current == responses[polls - 1].fileId
                                    && forall k :: 0 <= k < polls - 1 ==> !EndsPolling(responses[k])
    {
      waitedMs := waitedMs + PollIntervalMs;
      var response := responses[polls];
      polls := polls + 1;
      if response.status == Str("Success") {
        current := response.fileId;
      }
    }
    fileId := if Truthy(current) then Some(current) else None;
  }
}
