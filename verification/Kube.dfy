/** Kubernetes events as the exporter sees them: the fields its logic looks at. */
module Kube {
  import opened Wrappers

  /** Nanoseconds on a common clock; `ZERO_TIME` is the zero value of time.Time (year 1). */
  type Time = int

  const ZERO_TIME: Time := -62135596800 * 1_000_000_000

  datatype ObjectReference = ObjectReference(
    apiVersion: string, kind: string, namespace: string, name: string, uid: string)

  datatype CoreEvent = CoreEvent(
    name: string,
    namespace: string,
    message: string,
    reason: string,
    typ: string,
    component: string,
    host: string,
    count: int,
    series: Option<Time>,       // LastObservedTime of the series, if there is a series
    lastTimestamp: Time,
    eventTime: Time,
    managedFields: seq<string>,
    labels: map<string, string>,
    annotations: map<string, string>,
    involved: ObjectReference)

  datatype ObjectMetadata = ObjectMetadata(
    annotations: map<string, string>,
    labels: map<string, string>,
    ownerReferences: seq<string>,
    deleted: bool)

  /** The object an event is about, with what the lookup found out about it. */
  datatype EnhancedReference = EnhancedReference(reference: ObjectReference, metadata: ObjectMetadata)

  datatype EnhancedEvent = EnhancedEvent(event: CoreEvent, involved: EnhancedReference)

  const NO_METADATA := ObjectMetadata(map[], map[], [], false)
  const NO_OBJECT := ObjectReference("", "", "", "", "")
  const EMPTY_EVENT := EnhancedEvent(
    CoreEvent("", "", "", "", "", "", "", 0, None, ZERO_TIME, ZERO_TIME, [], map[], map[], NO_OBJECT),
    EnhancedReference(NO_OBJECT, NO_METADATA))
}
