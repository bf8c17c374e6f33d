/** The process-wide event list `EVENTS`, its writer `add_event` and its
    reader, the `/status` handler. */
module EventLog {

  /** A `time.strftime` reading; its format plays no part in the logic. */
  type Timestamp = string

  /** The wall clock, as the reading taken for the event that lands at each
      position of the list. */
  type Clock = nat -> Timestamp

  /** One entry of `EVENTS`: the `{time, message}` record. */
  datatype Event = Event(time: Timestamp, message: string)

  /** `add_event(message)`: one new record at the end; nothing before it
      changes. */
  function AddEvent(log: seq<Event>, clock: Clock, message: string): (r: seq<Event>)
    ensures |r| == |log| + 1
    ensures log <= r
    ensures forall i :: 0 <= i < |log| ==> r[i] == log[i]
    ensures r[|log|].message == message
    ensures r[|log|].time == clock(|log|)
  {
    log + [Event(clock(|log|), message)]
  }

  /** The records from position `from` on carry the clock's reading for
      their own position. */
  predicate Stamped(log: seq<Event>, from: nat, clock: Clock) {
    forall i :: from <= i < |log| ==> log[i].time == clock(i)
  }

  /** `add_event` keeps every record stamped and stamps the new one. */
  lemma AddEventStamps(log: seq<Event>, from: nat, clock: Clock, message: string)
    requires from <= |log| && Stamped(log, from, clock)
    ensures Stamped(AddEvent(log, clock, message), from, clock)
  {
  }

  /** `status()`: the records, oldest first, as `jsonify` renders them. */
  function Status(log: seq<Event>): (r: seq<Event>)
    ensures |r| == |log|
    ensures forall i :: 0 <= i < |r| ==> r[i] == log[i]
  {
    log
  }

  /** The messages of a list of records, in order. */
  function Messages(log: seq<Event>): (ms: seq<string>)
    ensures |ms| == |log|
    ensures forall i :: 0 <= i < |log| ==> ms[i] == log[i].message
  {
    seq(|log|, i requires 0 <= i < |log| => log[i].message)
  }

  /** What `status()` reports after an `add_event` is what it reported
      before, followed by the new record. */
  lemma StatusAfterAdd(log: seq<Event>, clock: Clock, message: string)
    ensures Status(AddEvent(log, clock, message)) == Status(log) + [Event(clock(|log|), message)]
  {
  }

  /** Appending records appends their messages. */
  lemma MessagesAppend(log: seq<Event>, more: seq<Event>)
    ensures Messages(log + more) == Messages(log) + Messages(more)
  {
  }
}
