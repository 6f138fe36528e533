/** Lifecycle events of the Relay, as the client accepts them. */
module LifecycleEvents {
  import opened Wrappers
  import opened Commands

  datatype LifecycleEvent = LifecycleEvent(
    occurredAt: string, eventType: string, channelId: Option<U32>, senderId: Option<U32>,
    serviceId: Option<string>, recordingJobId: Option<string>, state: Option<string>, reason: Option<string>)

  const JOINED := "participant_joined"
  const LEFT := "participant_left"
  const TALK_STARTED := "talk_started"
  const TALK_ENDED := "talk_ended"
  const HEALTH_CHANGED := "relay_health_changed"

  predicate KnownType(t: string) {
    || t == JOINED || t == LEFT || t == TALK_STARTED || t == TALK_ENDED || t == HEALTH_CHANGED
    || t == "recording_state_changed" || t == "service_admission_issued" || t == "service_admission_revoked"
  }

  predicate HealthState(s: string) { s == "healthy" || s == "degraded" || s == "unhealthy" }

  predicate KnownState(s: string) {
    HealthState(s) || s == "starting" || s == "recording" || s == "stopping" || s == "stopped" || s == "failed"
  }

  predicate ValidReasonText(s: string) {
    && 1 <= |s| <= 128
    && forall i :: 0 <= i < |s| ==>
         'A' <= s[i] <= 'Z' || '0' <= s[i] <= '9' || s[i] == '_' || s[i] == ':' || s[i] == '-'
  }

  predicate ValidLifecycleEvent(e: LifecycleEvent) {
    && KnownType(e.eventType)
    && (e.senderId.Some? ==> e.senderId.value != 0)
    && (e.serviceId.Some? ==> ValidServiceId(e.serviceId.value))
    && (e.recordingJobId.Some? ==> 1 <= |e.recordingJobId.value| <= 128)
    && (e.state.Some? ==> KnownState(e.state.value))
    && (e.reason.Some? ==> ValidReasonText(e.reason.value))
    && (if e.eventType == HEALTH_CHANGED then e.channelId.None? && e.state.Some? && HealthState(e.state.value)
        else e.channelId.Some?)
  }
}
