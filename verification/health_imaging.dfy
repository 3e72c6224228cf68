/**
 * The imaging-service client: the import-job polling loop and the request
 * parameters it sends. The service itself is not modelled: each poll's answer
 * is an input, and the wall clock is a sequence of elapsed-time readings.
 */
module HealthImaging {
  import opened Wrappers

  /** The client's settings; neither is reassigned after construction. */
  /** The client's settings. `regionName` mirrors the source's `region_name`, which only configures the boto3 client and is read nowhere else. */
  datatype Client = Client(datastoreId: string, regionName: string)


  // ---------------------------------------------------------------------------
  // Waiting for an import job
  // ---------------------------------------------------------------------------

  const Completed: string := "COMPLETED"
  const Failed: string := "FAILED"
  const CompletedWithErrors: string := "COMPLETED_WITH_ERRORS"
  const DefaultCheckInterval: int := 30
  const DefaultMaxWait: int := 3600

  /**
   * An answer to a status poll after which the loop sleeps and polls again:
   * a job status other than the three terminal ones. `None` (the status
   * lookup failed) ends the loop.
   */
  predicate KeepsWaiting(response: Option<string>) {
    response.Some? && response.value != Completed
    && response.value != Failed && response.value != CompletedWithErrors
  }

  /** Each elapsed-time reading is at least `checkInterval` after the previous one. */
  predicate HonoursSleep(elapsed: seq<int>, checkInterval: int) {
    forall k :: 0 < k < |elapsed| ==> elapsed[k - 1] + checkInterval <= elapsed[k]
  }

  /** A clock that honours the sleep has advanced by `k` intervals after `k` iterations. */
  lemma {:induction false} ElapsedLowerBound(elapsed: seq<int>, checkInterval: int, k: nat)
    requires HonoursSleep(elapsed, checkInterval)
    requires k < |elapsed|
    ensures elapsed[0] + k * checkInterval <= elapsed[k]
  {
    if k > 0 {
      ElapsedLowerBound(elapsed, checkInterval, k - 1);
      assert (k - 1) * checkInterval + checkInterval == k * checkInterval;
    }
  }

  /** The most status lookups that fit before `maxWait`: one per `checkInterval`, the first at zero. */
  function MaxPolls(checkInterval: int, maxWait: int): nat
    requires checkInterval > 0
  {
    if maxWait <= 0 then 0 else (maxWait - 1) / checkInterval + 1
  }

  /** A lookup made at iteration `k` before the deadline is within the bound. */
  lemma WithinMaxPolls(k: nat, checkInterval: int, maxWait: int)
    requires checkInterval > 0 && k * checkInterval < maxWait
    ensures k < MaxPolls(checkInterval, maxWait)
  {
    var q := (maxWait - 1) / checkInterval;
    assert maxWait - 1 < (q + 1) * checkInterval;
    assert k * checkInterval < (q + 1) * checkInterval;
  }

  /**
   * The loop ends: a clock that starts at zero elapsed and advances by at
   * least `checkInterval > 0` per iteration has reached `maxWait` by reading
   * number `MaxPolls(checkInterval, maxWait)`.
   */
  lemma DeadlineReached(elapsed: seq<int>, checkInterval: int, maxWait: int)
    requires checkInterval > 0 && HonoursSleep(elapsed, checkInterval)
    requires |elapsed| > MaxPolls(checkInterval, maxWait) && elapsed[0] >= 0
    ensures maxWait <= elapsed[MaxPolls(checkInterval, maxWait)]
  {
    var n := MaxPolls(checkInterval, maxWait);
    ElapsedLowerBound(elapsed, checkInterval, n);
    if maxWait > 0 {
      var q := (maxWait - 1) / checkInterval;
      assert maxWait - 1 < q * checkInterval + checkInterval;
      assert n * checkInterval == q * checkInterval + checkInterval;
    }
  }

  /** With the default interval and wait, at most 120 status lookups are made. */
  lemma DefaultMaxPolls()
    ensures MaxPolls(DefaultCheckInterval, DefaultMaxWait) == 120
  {
  }

  /**
   * `wait_for_import_completion`. `elapsed[k]` is `time.time() - start_time`
   * when the loop condition is evaluated for the k-th time and `responses[k]`
   * what the k-th status lookup returns. The clock must eventually reach
   * `maxWait`, which the last reading does. Returns the result, the number
   * of status lookups made, and whether `time.sleep` raised `ValueError`
   * (a negative `checkInterval`), which the source does not catch.
   */
  method WaitForImportCompletion(elapsed: seq<int>, responses: seq<Option<string>>,
                                 checkInterval: int := DefaultCheckInterval,
                                 maxWait: int := DefaultMaxWait)
    returns (completed: bool, polls: nat, sleepRaised: bool)
    requires |elapsed| == |responses| + 1
    requires maxWait <= elapsed[|responses|]
    ensures polls <= |responses|
    // every lookup was made before the deadline
    ensures forall k :: 0 <= k < polls ==> elapsed[k] < maxWait
    // every lookup but the last saw a non-terminal status
    ensures forall k :: 0 <= k < polls - 1 ==> KeepsWaiting(responses[k])
    // success exactly when the last status seen is COMPLETED
    ensures completed <==> 0 < polls && responses[polls - 1] == Some(Completed)
    // the first sleep raises exactly when the interval is negative
    ensures sleepRaised <==> checkInterval < 0 && 0 < polls && KeepsWaiting(responses[polls - 1])
    ensures sleepRaised ==> polls == 1
    ensures checkInterval < 0 ==> polls <= 1
    // the loop stopped at a terminal answer, at a raising sleep, or else at the deadline
    ensures (0 < polls && !KeepsWaiting(responses[polls - 1])) || sleepRaised || maxWait <= elapsed[polls]
    // no lookup at all when there is no time to wait
    ensures elapsed[0] >= 0 && maxWait <= 0 ==> polls == 0
    // with a clock that honours the sleep, at most one lookup per check interval
    ensures checkInterval > 0 && HonoursSleep(elapsed, checkInterval) && elapsed[0] >= 0 ==>
      polls <= MaxPolls(checkInterval, maxWait)
  {
    polls, sleepRaised := 0, false;
    while elapsed[polls] < maxWait
      invariant polls <= |responses|
      invariant forall k :: 0 <= k < polls ==> elapsed[k] < maxWait && KeepsWaiting(responses[k])
      invariant checkInterval < 0 ==> polls == 0
      invariant checkInterval > 0 && HonoursSleep(elapsed, checkInterval) && elapsed[0] >= 0 ==>
        polls <= MaxPolls(checkInterval, maxWait)
      decreases |responses| - polls
    {
      var jobProps := responses[polls];
      if checkInterval > 0 && HonoursSleep(elapsed, checkInterval) && elapsed[0] >= 0 {
        ElapsedLowerBound(elapsed, checkInterval, polls);
        WithinMaxPolls(polls, checkInterval, maxWait);
      }
      polls := polls + 1;
      if jobProps.None? {
        return false, polls, false;
      }
      var status := jobProps.value;
      if status == Completed {
        return true, polls, false;
      } else if status == Failed || status == CompletedWithErrors {
        return false, polls, false;
      }
      if checkInterval < 0 {
        // time.sleep(check_interval) raises ValueError
        return false, polls, true;
      }
    }
    completed := false;
  }

  // ---------------------------------------------------------------------------
  // Request parameters
  // ---------------------------------------------------------------------------

  /** One search filter: an operator and its tagged values, passed through unread. */
  datatype SearchFilter = SearchFilter(operator: string, values: seq<string>)

  /** The `filters` argument of `search_studies`, e.g. `{'filters': [...]}`. */
  type SearchCriteria = map<string, seq<SearchFilter>>

  /** A value in a request's keyword arguments. */
  datatype ParamValue = Text(text: string) | Number(number: int) | Criteria(criteria: SearchCriteria)

  const DefaultMaxResults: int := 50

  /** Python truthiness of the optional criteria: present and not an empty dict. */
  predicate CriteriaTruthy(filters: Option<SearchCriteria>) {
    filters.Some? && |filters.value| > 0
  }

  /** The keyword arguments `search_studies` passes to `search_image_sets`. */
  method SearchStudiesParams(client: Client, filters: Option<SearchCriteria> := None,
                             maxResults: int := DefaultMaxResults)
    returns (params: map<string, ParamValue>)
    ensures params.Keys == {"datastoreId", "maxResults"}
                         + if CriteriaTruthy(filters) then {"searchCriteria"} else {}
    ensures params["datastoreId"] == Text(client.datastoreId)
    ensures params["maxResults"] == Number(maxResults)
    ensures "searchCriteria" in params <==> CriteriaTruthy(filters)
    ensures "searchCriteria" in params ==> params["searchCriteria"] == Criteria(filters.value)
  {
    params := map["datastoreId" := Text(client.datastoreId), "maxResults" := Number(maxResults)];
    if CriteriaTruthy(filters) {
      params := params["searchCriteria" := Criteria(filters.value)];
    }
  }

  /** The keyword arguments `get_image_set_metadata` passes to the service. */
  method ImageSetMetadataParams(client: Client, imageSetId: string, versionId: Option<string> := None)
    returns (params: map<string, ParamValue>)
    ensures params.Keys == {"datastoreId", "imageSetId"} + if Truthy(versionId) then {"versionId"} else {}
    ensures params["datastoreId"] == Text(client.datastoreId)
    ensures params["imageSetId"] == Text(imageSetId)
    ensures "versionId" in params <==> Truthy(versionId)
    ensures "versionId" in params ==> params["versionId"] == Text(versionId.value)
  {
    params := map["datastoreId" := Text(client.datastoreId), "imageSetId" := Text(imageSetId)];
    if Truthy(versionId) {
      params := params["versionId" := Text(versionId.value)];
    }
  }

  /** `datastore_id or self.datastore_id`: the data store `delete_datastore` targets. */
  function DatastoreToDelete(client: Client, datastoreId: Option<string>): (target: string)
    ensures Truthy(datastoreId) ==> target == datastoreId.value
    ensures !Truthy(datastoreId) ==> target == client.datastoreId
  {
    if Truthy(datastoreId) then datastoreId.value else client.datastoreId
  }
}
