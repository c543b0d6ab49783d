/**
 * The parts of the device runtime that the launch layer hands back to its
 * callers: status codes, the shape of a three-dimensional launch range, and
 * events. An event is opaque apart from the task it stands for and the events
 * it was declared to depend on; asynchronous execution itself is not modelled.
 */
module Runtime {

  /** The library's status codes; the paths modelled here only produce `OK`. */
  datatype StatusCode = OK | InvalidParameter | InvalidAlgorithm | UnsupportedConfiguration | DeviceError

  /** A `range<3>` of work-items, one extent per dimension. */
  datatype Range3 = Range3(d0: nat, d1: nat, d2: nat)

  /** What a submitted command group does. */
  datatype Task =
    | EmptyHostTask
    | MatmulKernelTask(range: Range3, boundsChecked: bool)

  /** A handle to a submission: its task and the events it waits for. */
  datatype Event = Event(task: Task, dependsOn: seq<Event>)

  /** The pair every launcher returns. */
  datatype SNNStatus = SNNStatus(event: Event, status: StatusCode)
}
