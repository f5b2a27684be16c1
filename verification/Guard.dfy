/** The resource guard every built-in algorithm runs under. */
module Guard {
  import opened Wrappers

  datatype AnalyticsError =
    | InvalidRequest
    | MissingReverseCsr
    | MissingProperty
    | InvalidProperty
    | ResourceLimit
    | Cancelled

  /** Why a guard ends a run that needs up to `work` work items: it was cancelled, or the limit is lower. */
  predicate Stops(error: AnalyticsError, cancelled: bool, work: int, limit: nat)
  {
    (error == Cancelled && cancelled) || (error == ResourceLimit && work > limit)
  }

  class ExecutionGuard {
    const maxWorkItems: U64
    const maxMemoryBytes: U64
    var cancelled: bool
    var workItems: U64
    var memoryBytes: U64
    /** The error this guard has reported, if it ever stopped the run. */
    ghost var reported: Option<AnalyticsError>

    constructor (maxWorkItems: U64, maxMemoryBytes: U64)
      ensures workItems == 0 && memoryBytes == 0 && !cancelled && reported.None?
      ensures this.maxWorkItems == maxWorkItems && this.maxMemoryBytes == maxMemoryBytes
    {
      this.maxWorkItems, this.maxMemoryBytes := maxWorkItems, maxMemoryBytes;
      cancelled, workItems, memoryBytes, reported := false, 0, 0, None;
    }

    /** Another thread may have set the cancellation flag since the last look. */
    method Checkpoint() returns (o: Outcome<AnalyticsError>)
      modifies this
      ensures workItems == old(workItems) && memoryBytes == old(memoryBytes)
      ensures o.Fail? ==> cancelled && o.error == Cancelled && reported == Some(Cancelled)
      ensures o.Pass? ==> !cancelled && reported == old(reported)
    {
      var observed: bool := *;
      cancelled := cancelled || observed;
      if cancelled {
        reported := Some(Cancelled);
        return Fail(Cancelled);
      }
      return Pass;
    }

    /** Charges one work item. */
    method Step() returns (o: Outcome<AnalyticsError>)
      modifies this
      ensures memoryBytes == old(memoryBytes) && old(workItems) <= workItems <= old(workItems) + 1
      ensures o.Pass? ==> workItems == old(workItems) + 1 <= maxWorkItems && reported == old(reported)
      ensures o.Fail? ==> reported == Some(o.error) && o.error in {Cancelled, ResourceLimit}
      ensures o == Fail(Cancelled) ==> cancelled
      ensures o == Fail(ResourceLimit) ==> old(workItems) >= maxWorkItems
    {
      o := Checkpoint();
      if o.Fail? { return; }
      if workItems == U64_MAX {
        reported := Some(ResourceLimit);
        return Fail(ResourceLimit);
      }
      workItems := workItems + 1;
      if workItems > maxWorkItems {
        reported := Some(ResourceLimit);
        return Fail(ResourceLimit);
      }
      return Pass;
    }

    /** Charges memory that the algorithm is about to allocate. */
    method Reserve(bytes: nat) returns (o: Outcome<AnalyticsError>)
      modifies this
      ensures workItems == old(workItems)
      ensures o.Pass? ==> memoryBytes == old(memoryBytes) + bytes <= maxMemoryBytes && reported == old(reported)
      ensures o.Fail? ==> reported == Some(o.error) && o.error in {Cancelled, ResourceLimit}
      ensures o == Fail(Cancelled) ==> cancelled
      ensures o == Fail(ResourceLimit) ==> old(memoryBytes) + bytes > maxMemoryBytes
    {
      o := Checkpoint();
      if o.Fail? { return; }
      if memoryBytes + bytes > U64_MAX {
        reported := Some(ResourceLimit);
        return Fail(ResourceLimit);
      }
      memoryBytes := memoryBytes + bytes;
      if memoryBytes > maxMemoryBytes {
        reported := Some(ResourceLimit);
        return Fail(ResourceLimit);
      }
      return Pass;
    }
  }
}
