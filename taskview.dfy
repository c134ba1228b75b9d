/**
 * A task as the result builders (psshlib/api.py) and the default callbacks
 * (psshlib/callbacks.py) read it once it has finished.
 */
module TaskView {

  /**
   * The attributes those readers use. `id` stands for the object's identity: two finished
   * tasks are the same task exactly when they are the same value, as Python's `in` on a
   * list of tasks (which have no `__eq__`) compares by identity. `exitstatus`, `quiet` and
   * `pretty_host` are set outside psshlib/task.py.
   */
  datatype FinishedTask = FinishedTask(
    id: nat,
    host: string,
    prettyHost: string,
    quiet: bool,
    failures: seq<string>,
    exitstatus: int,
    outputbuffer: string,
    errorbuffer: string)
}
