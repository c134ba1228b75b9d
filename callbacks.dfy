/**
 * The default callbacks (psshlib/callbacks.py): the report printed for each finished task
 * on a terminal without colours, and the list of exit statuses returned at the end.
 */
module Callbacks {
  import opened Text
  import opened Console
  import opened TaskView

  /** `', '.join(task.failures)`. */
  function ErrorText(failures: seq<string>): string {
    Join(", ", failures)
  }

  /** `"[%s]" % n`. */
  function Progress(n: int): (r: string)
    ensures r != [] && NoSpace(r)
  {
    var r := "[" + IntToDecimal(n) + "]";
    assert forall i :: 0 <= i < |r| ==> r[i] == '[' || r[i] == ']' || r[i] in IntToDecimal(n);
    r
  }

  /** The status line: `progress tstamp [FAILURE] host error`, or `progress tstamp [SUCCESS] host`. */
  function StatusLine(task: FinishedTask, n: int, tstamp: string): (r: string)
    ensures var p := Progress(n) + " "; |r| >= |p| && r[..|p|] == p
  {
    var verdict := if task.failures != [] then "[FAILURE]" else "[SUCCESS]";
    var rest := [tstamp, verdict, task.prettyHost] + (if task.failures != [] then [ErrorText(task.failures)] else []);
    JoinCons(" ", Progress(n), rest);
    Join(" ", [Progress(n)] + rest)
  }


  /** The screen after `finished`: the status line unless quiet, then stdout, then the stderr buffer. */
  function FinishedOutput(scr: Screen, task: FinishedTask, n: int, tstamp: string): Screen {
    ReportWrites(scr, task.quiet, StatusLine(task, n, tstamp), task.outputbuffer, task.errorbuffer)
  }

  /** The writes of `finished` for a given status line. */
  function ReportWrites(scr: Screen, quiet: bool, line: string, outputbuffer: string, errorbuffer: string): Screen {
    var s1 := if !quiet then Printed(scr, [line], true) else scr;
    var s2 := if outputbuffer != "" then Written(s1, outputbuffer) else s1;
    if errorbuffer != "" then Written(Written(s2, "Stderr: "), errorbuffer) else s2
  }

  /** The buffered output of a task as `finished` writes it: stdout first, then stderr after its label. */
  function BufferText(task: FinishedTask): string {
    task.outputbuffer + (if task.errorbuffer != "" then "Stderr: " + task.errorbuffer else "")
  }

  /**
   * `DefaultCallbacks.finished`, with the clock reading `tstamp` (the fourth field of
   * `time.asctime()`) as a parameter. Python 2 has no `sys.stdout.buffer`, so the buffers
   * go through `sys.stdout.write`.
   */
  method Finished(task: FinishedTask, n: int, tstamp: string, out: Stdout)
    modifies out
    ensures out.State() == FinishedOutput(old(out.State()), task, n, tstamp)
  {
    if !task.quiet {
      out.Print([StatusLine(task, n, tstamp)], true);
    }
    if task.outputbuffer != "" {
      out.Write(task.outputbuffer);
    }
    if task.errorbuffer != "" {
      out.Write("Stderr: ");
      out.Write(task.errorbuffer);
    }
  }

  /** `DefaultCallbacks.result`: the exit status of each saved task that is done, in saved order. */
  function Result(saveTasks: seq<FinishedTask>, done: seq<FinishedTask>): (r: seq<int>)
    ensures |r| <= |saveTasks|
    decreases |saveTasks|
  {
    if saveTasks == [] then []
    else (if saveTasks[0] in done then [saveTasks[0].exitstatus] else []) + Result(saveTasks[1..], done)
  }

  // ---------------------------------------------------------------------------
  // Lemmas

  lemma ReportWritesText(scr: Screen, quiet: bool, line: string, outputbuffer: string, errorbuffer: string)
    requires !scr.softspace
    ensures ReportWrites(scr, quiet, line, outputbuffer, errorbuffer).text
         == scr.text + (if quiet then "" else line + "\n") + outputbuffer
            + (if errorbuffer != "" then "Stderr: " + errorbuffer else "")
  {
    PrintOne(scr, line);
    var head := if quiet then "" else line + "\n";
    var s1 := if !quiet then Printed(scr, [line], true) else scr;
    assert s1 == Screen(scr.text + head, false);
    var s2 := if outputbuffer != "" then Written(s1, outputbuffer) else s1;
    assert s2 == Screen(scr.text + head + outputbuffer, false);
  }

  /**
   * On a fresh line, `finished` writes the status line and a newline unless the task is
   * quiet, then the stdout buffer, then `Stderr: ` and the stderr buffer when there is one:
   * `quiet` drops the status line and nothing else.
   */
  lemma FinishedText(scr: Screen, task: FinishedTask, n: int, tstamp: string)
    requires !scr.softspace
    ensures FinishedOutput(scr, task, n, tstamp).text
         == scr.text + (if task.quiet then "" else StatusLine(task, n, tstamp) + "\n") + BufferText(task)
  {
    ReportWritesText(scr, task.quiet, StatusLine(task, n, tstamp), task.outputbuffer, task.errorbuffer);
  }

  /**
   * With a one-word time stamp and host name, the status line splits into the progress
   * marker, the time stamp, the verdict and the host, followed by the words of the error
   * text; the verdict is `[FAILURE]` exactly when the task has failures.
   */
  lemma StatusLineFields(task: FinishedTask, n: int, tstamp: string)
    requires tstamp != [] && NoSpace(tstamp)
    requires task.prettyHost != [] && NoSpace(task.prettyHost)
    ensures var f := SplitWhitespace(StatusLine(task, n, tstamp));
      && |f| >= 4
      && f[0] == Progress(n) && f[1] == tstamp && f[3] == task.prettyHost
      && (f[2] == "[FAILURE]" <==> task.failures != [])
      && (f[2] == "[SUCCESS]" <==> task.failures == [])
      && f[4..] == (if task.failures != [] then SplitWhitespace(ErrorText(task.failures)) else [])
  {
    var verdict := if task.failures != [] then "[FAILURE]" else "[SUCCESS]";
    assert NoSpace(verdict);
    var words := [Progress(n), tstamp, verdict, task.prettyHost];
    var tail := if task.failures != [] then [ErrorText(task.failures)] else [];
    assert [Progress(n)] + ([tstamp, verdict, task.prettyHost] + tail) == words + tail;
    SplitWhitespaceJoinTail(words, tail);
  }

  /** The exit statuses of two runs of saved tasks are those of each, in order. */
  lemma {:induction false} ResultAppend(a: seq<FinishedTask>, b: seq<FinishedTask>, done: seq<FinishedTask>)
    ensures Result(a + b, done) == Result(a, done) + Result(b, done)
    decreases |a|
  {
    if a != [] {
      assert (a + b)[1..] == a[1..] + b;
      ResultAppend(a[1..], b, done);
    } else {
      assert a + b == b;
    }
  }

  /** One saved task contributes its exit status exactly when it is done. */
  lemma ResultOne(t: FinishedTask, done: seq<FinishedTask>)
    ensures Result([t], done) == if t in done then [t.exitstatus] else []
  {
    assert [t][1..] == [];
  }

  /** When every saved task is done, the result lists every exit status in saved order. */
  lemma {:induction false} ResultAllDone(saveTasks: seq<FinishedTask>, done: seq<FinishedTask>)
    requires forall i :: 0 <= i < |saveTasks| ==> saveTasks[i] in done
    ensures var r := Result(saveTasks, done);
      |r| == |saveTasks| && forall i :: 0 <= i < |r| ==> r[i] == saveTasks[i].exitstatus
    decreases |saveTasks|
  {
    if saveTasks != [] {
      ResultAllDone(saveTasks[1..], done);
    }
  }

  /** When no saved task is done, the result is empty. */
  lemma {:induction false} ResultNoneDone(saveTasks: seq<FinishedTask>, done: seq<FinishedTask>)
    requires forall i :: 0 <= i < |saveTasks| ==> saveTasks[i] !in done
    ensures Result(saveTasks, done) == []
    decreases |saveTasks|
  {
    if saveTasks != [] {
      ResultNoneDone(saveTasks[1..], done);
    }
  }
}
