/** The event-log entities shared by the log splitter and the log generator:
    an event log is an ordered sequence of traces, a trace an ordered
    sequence of events plus trace-level attributes. */
module EventLogs {

  /** One event. `activity` is the event's `concept:name` attribute; the
      remaining attributes (timestamp and the like) are kept as text. */
  datatype Event = Event(activity: string, attributes: map<string, string>)

  /** One case: its trace attributes (such as `concept:name`, the case id)
      and its events in order. */
  datatype Trace = Trace(attributes: map<string, string>, events: seq<Event>)

  type EventLog = seq<Trace>
}
