/** The parts of a Kubernetes pod object the watcher looks at, and the
    crash classification of greenops-agent/self_heal.py lines 37-38. */
module Pods {
  import opened Wrappers

  /** `V1ContainerStateWaiting`: only its `reason` is read. */
  datatype ContainerStateWaiting = ContainerStateWaiting(reason: Option<string>)

  /** `V1ContainerState`: only the `waiting` state is read. */
  datatype ContainerState = ContainerState(waiting: Option<ContainerStateWaiting>)

  /** `V1ContainerStatus`. */
  datatype ContainerStatus = ContainerStatus(state: Option<ContainerState>)

  /** `V1PodStatus`: `container_statuses` is `None` or a list. */
  datatype PodStatus = PodStatus(containerStatuses: Option<seq<ContainerStatus>>)

  /** The pod object of one watch notification: `metadata.name` and `status`. */
  datatype PodObservation = PodObservation(name: string, status: Option<PodStatus>)

  /** An attribute read on `None`; `attribute` is the name that was read. */
  datatype AttributeError = AttributeError(attribute: string)

  const CrashLoopBackOff := "CrashLoopBackOff"
  const OOMKilled := "OOMKilled"

  /** The reasons the agent reacts to, in the order the source lists them. */
  const ActionableReasons: seq<string> := [CrashLoopBackOff, OOMKilled]

  /** The pod has a status whose container list is present and non-empty. */
  predicate HasFirstContainer(pod: PodObservation) {
    && pod.status.Some?
    && pod.status.value.containerStatuses.Some?
    && |pod.status.value.containerStatuses.value| > 0
  }

  function FirstContainer(pod: PodObservation): ContainerStatus
    requires HasFirstContainer(pod)
  {
    pod.status.value.containerStatuses.value[0]
  }

  /** The reason of line 37: the first container's `waiting.reason` when the
      container list is non-empty and that container is waiting, `None`
      otherwise; reading through a missing `status` or `state` raises. */
  function ExtractReason(pod: PodObservation): (r: Result<Option<string>, AttributeError>)
    ensures r.Err? <==>
      pod.status.None? || (HasFirstContainer(pod) && FirstContainer(pod).state.None?)
    ensures r == Ok(None) <==>
      && pod.status.Some?
      && (|| !HasFirstContainer(pod)
          || (&& FirstContainer(pod).state.Some?
              && (|| FirstContainer(pod).state.value.waiting.None?
                  || FirstContainer(pod).state.value.waiting.value.reason.None?)))
    ensures (r.Ok? && r.value.Some?) <==>
      && HasFirstContainer(pod)
      && FirstContainer(pod).state.Some?
      && FirstContainer(pod).state.value.waiting.Some?
      && FirstContainer(pod).state.value.waiting.value.reason.Some?
    ensures r.Ok? && r.value.Some? ==> r.value == FirstContainer(pod).state.value.waiting.value.reason
  {
    match pod.status
    case None => Err(AttributeError("container_statuses"))
    case Some(status) =>
      match status.containerStatuses
      case None => Ok(None)
      case Some(statuses) =>
        if |statuses| == 0 then Ok(None)
        else
          match statuses[0].state
          case None => Err(AttributeError("waiting"))
          case Some(state) =>
            match state.waiting
            case None => Ok(None)
            case Some(waiting) => Ok(waiting.reason)
  }

  /** Containers after the first never affect the reason, nor does the pod
      name. */
  lemma OnlyFirstContainerMatters(p: PodObservation, q: PodObservation)
    requires HasFirstContainer(p) && HasFirstContainer(q)
    requires FirstContainer(p) == FirstContainer(q)
    ensures ExtractReason(p) == ExtractReason(q)
  {
  }

  /** `reason in ["CrashLoopBackOff", "OOMKilled"]`. */
  function IsActionable(reason: Option<string>): (b: bool)
    ensures b <==> reason == Some(CrashLoopBackOff) || reason == Some(OOMKilled)
  {
    reason.Some? && reason.value in ActionableReasons
  }
}
