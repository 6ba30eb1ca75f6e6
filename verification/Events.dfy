/** Events of a stream. */
module Events {
  /** `id` is 0 when the event has none. */
  datatype Event = Event(id: nat, kind: string, data: string)
}
