/**
 * One ssh or scp process and its I/O state (psshlib/task.py). The operating system is
 * abstracted: the outcome of each `os.read`, `os.write` and `poll` is given to the method
 * that performs it, and the process id and pipes of a started process to `Start`.
 */
module Tasks {
  import opened Wrappers
  import opened Text
  import opened Console

  /** `BUFFER_SIZE = 1 << 16`: the most one `os.read` asks for. */
  const BUFFER_SIZE: nat := 65536

  /** `errno.EINTR` on Linux. */
  const EINTR: int := 4

  /**
   * An `OSError` or `IOError`: its errno, `str(e)`, and the `Exception: ...` text verbose
   * mode formats from the traceback.
   */
  datatype OsError = OsError(errno: int, text: string, traceback: string)

  /** What `os.read(fd, BUFFER_SIZE)` did: returned a chunk (empty at end of file), or raised. */
  datatype ReadResult = Chunk(data: string) | ReadFailed(error: OsError)

  /** What `os.write(fd, buf)` did: wrote a number of bytes, or raised. */
  datatype WriteResult = Wrote(count: nat) | WriteFailed(error: OsError)

  /** A call the task makes on the output writer. */
  datatype WriterCall = WriteTo(file: nat, data: string) | CloseFile(file: nat)

  /**
   * The two files `writer.open_files(host)` returns; either may be None (a writer with an
   * output directory but no error directory, say).
   */
  datatype FilePair = FilePair(outfile: Option<nat>, errfile: Option<nat>)

  /**
   * The attributes `Task.__init__` reads from `opts`; None stands for a missing attribute
   * (the AttributeError that makes it False).
   */
  datatype TaskOptions = TaskOptions(verbose: bool, printOut: Option<bool>, inline: Option<bool>)

  /** Every chunk is what one non-empty `os.read(fd, BUFFER_SIZE)` can return. */
  predicate ChunksFit(chunks: seq<string>) {
    forall i :: 0 <= i < |chunks| ==> chunks[i] != "" && |chunks[i]| <= BUFFER_SIZE
  }

  /** The chunks, joined in order. */
  function Concat(chunks: seq<string>): string
    decreases |chunks|
  {
    if chunks == [] then "" else Concat(chunks[..|chunks| - 1]) + chunks[|chunks| - 1]
  }

  /** `Killed by signal N` for a negative return code, `Exited with error code N` for a positive one. */
  function ExitMessages(rc: int): (r: seq<string>)
    ensures |r| <= 1
    ensures r == [] <==> rc == 0
  {
    if rc < 0 then ["Killed by signal " + IntToDecimal(-rc)]
    else if rc > 0 then ["Exited with error code " + IntToDecimal(rc)]
    else []
  }

  /** The host as the report names it: `host:port` when the port is truthy. */
  function HostText(host: string, port: Option<string>): string {
    if Truthy(port) then host + ":" + port.value else host
  }

  /** The items of the report's status line. */
  function StatusItems(failures: seq<string>, hostText: string, n: int, tstamp: string): seq<string> {
    var progress := "[" + IntToDecimal(n) + "]";
    if failures != [] then [progress, tstamp, "[FAILURE]", hostText, Join(", ", failures)]
    else [progress, tstamp, "[SUCCESS]", hostText]
  }

  /** The screen after `report`: the status line, then the buffers. */
  function ReportScreen(scr: Screen, failures: seq<string>, hostText: string, outputbuffer: string,
                        errorbuffer: string, n: int, tstamp: string): Screen
  {
    BufferPrints(Printed(scr, StatusItems(failures, hostText, n, tstamp), true), outputbuffer, errorbuffer)
  }

  /** `print outputbuffer,` and `print "Stderr:", errorbuffer,`, each when its buffer is non-empty. */
  function BufferPrints(scr: Screen, outputbuffer: string, errorbuffer: string): Screen {
    var s := if outputbuffer != "" then Printed(scr, [outputbuffer], false) else scr;
    if errorbuffer != "" then Printed(s, ["Stderr:", errorbuffer], false) else s
  }

  class Task {
    const host: string
    const port: Option<string>
    const cmd: seq<string>
    const verbose: bool
    const printOut: bool
    const inline: bool

    var proc: Option<nat>             // the process id, while there is a process
    var hasWriter: bool               // `writer` was given to `start`
    var timestamp: Option<real>
    var failures: seq<string>
    var killed: bool
    var inputbuffer: Option<string>
    var outputbuffer: string
    var errorbuffer: string
    var stdin: Option<nat>            // the open pipes, by file descriptor
    var stdout: Option<nat>
    var stderr: Option<nat>
    var outfile: Option<nat>
    var errfile: Option<nat>
    var returncode: Option<int>
    var signalled: seq<nat>           // the process groups `_kill` sent SIGKILL to
    var writerLog: seq<WriterCall>    // the calls made on the writer

    ghost var stdinData: Option<string>   // the `stdin` given to the constructor
    ghost var inputWritten: string        // what `os.write` has taken of it
    ghost var outChunks: seq<string>      // every non-empty chunk read from stdout
    ghost var errChunks: seq<string>      // every non-empty chunk read from stderr

    /**
     * What stays true whatever happens: the written input and the input still buffered
     * make up the original input; the buffers hold every chunk read, in order, when
     * `inline` is set, and nothing otherwise; a chunk is never longer than `BUFFER_SIZE`.
     */
    ghost predicate Valid()
      reads this`stdinData, this`inputbuffer, this`inputWritten, this`outputbuffer, this`outChunks,
            this`errorbuffer, this`errChunks
    {
      InputValid() && OutputValid() && ErrorValid()
    }

    /** The written input and the input still buffered make up the original input. */
    ghost predicate InputValid()
      reads this`stdinData, this`inputbuffer, this`inputWritten
    {
      && (stdinData.None? ==> inputbuffer.None? && inputWritten == "")
      && (stdinData.Some? ==> inputbuffer.Some? && inputWritten + inputbuffer.value == stdinData.value)
    }

    /** The output buffer holds the chunks read from stdout when `inline` is set. */
    ghost predicate OutputValid()
      reads this`outputbuffer, this`outChunks
    {
      && outputbuffer == (if inline then Concat(outChunks) else "")
      && ChunksFit(outChunks)
    }

    /** The error buffer holds the chunks read from stderr when `inline` is set. */
    ghost predicate ErrorValid()
      reads this`errorbuffer, this`errChunks
    {
      && errorbuffer == (if inline then Concat(errChunks) else "")
      && ChunksFit(errChunks)
    }

    /** `Task(host, port, cmd, opts, stdin)`. */
    constructor(host: string, port: Option<string>, cmd: seq<string>, opts: TaskOptions, stdin: Option<string>)
      ensures Valid()
      ensures this.host == host && this.port == port && this.cmd == cmd
      ensures verbose == opts.verbose
      ensures printOut == (opts.printOut == Some(true))
      ensures inline == (opts.inline == Some(true))
      ensures proc == None && !hasWriter && timestamp == None && failures == [] && !killed
      ensures inputbuffer == stdin && outputbuffer == "" && errorbuffer == ""
      ensures this.stdin == None && stdout == None && stderr == None && outfile == None && errfile == None
      ensures returncode == None && signalled == [] && writerLog == []
      ensures stdinData == stdin
    {
      this.host := host;
      this.port := port;
      this.cmd := cmd;
      proc := None;
      hasWriter := false;
      timestamp := None;
      failures := [];
      killed := false;
      inputbuffer := stdin;
      outputbuffer := "";
      errorbuffer := "";
      this.stdin := None;
      stdout := None;
      stderr := None;
      outfile := None;
      errfile := None;
      verbose := opts.verbose;
      printOut := opts.printOut == Some(true);
      inline := opts.inline == Some(true);
      returncode := None;
      signalled := [];
      writerLog := [];
      stdinData := stdin;
      inputWritten := "";
      outChunks := [];
      errChunks := [];
    }

    /**
     * `start`, given what the process creation produced: the process id, the pipes'
     * descriptors, the files a writer opened (None without a writer) and the clock. The
     * stdin pipe is kept only when there is input to write.
     */
    method Start(pid: nat, stdinFd: nat, stdoutFd: nat, stderrFd: nat, files: Option<FilePair>, now: real)
      modifies `hasWriter, `outfile, `errfile, `proc, `timestamp, `stdin, `stdout, `stderr
      ensures hasWriter == files.Some?
      ensures outfile == if files.Some? then files.value.outfile else old(outfile)
      ensures errfile == if files.Some? then files.value.errfile else old(errfile)
      ensures proc == Some(pid) && timestamp == Some(now)
      ensures stdin == if Truthy(inputbuffer) then Some(stdinFd) else old(stdin)
      ensures stdout == Some(stdoutFd) && stderr == Some(stderrFd)
    {
      hasWriter := files.Some?;
      if files.Some? {
        outfile := files.value.outfile;
        errfile := files.value.errfile;
      }
      proc := Some(pid);
      timestamp := Some(now);
      if Truthy(inputbuffer) {
        stdin := Some(stdinFd);
      }
      stdout := Some(stdoutFd);
      stderr := Some(stderrFd);
    }

    /** `elapsed`: the seconds since `start`, on a clock reading `now`. */
    function Elapsed(now: real): (r: real)
      reads `timestamp
      requires timestamp.Some?
      ensures timestamp.value + r == now
    {
      now - timestamp.value
    }

    /** `_kill`: signals the process group, and marks the task killed, when there is a process. */
    method Kill()
      modifies `signalled, `killed
      ensures proc.Some? ==> signalled == old(signalled) + [proc.value] && killed
      ensures proc.None? ==> signalled == old(signalled) && killed == old(killed)
    {
      if proc.Some? {
        signalled := signalled + [proc.value];
        killed := true;
      }
    }

    /** `timedout`: unless already killed, kills and records `Timed out`. */
    method TimedOut()
      modifies `signalled, `killed, `failures
      ensures old(killed) ==> killed && signalled == old(signalled) && failures == old(failures)
      ensures !old(killed) ==> failures == old(failures) + ["Timed out"]
      ensures !old(killed) && proc.Some? ==> killed && signalled == old(signalled) + [proc.value]
      ensures !old(killed) && proc.None? ==> !killed && signalled == old(signalled)
    {
      if !killed {
        Kill();
        failures := failures + ["Timed out"];
      }
    }

    /** `interrupted`: unless already killed, kills and records `Interrupted`. */
    method Interrupted()
      modifies `signalled, `killed, `failures
      ensures old(killed) ==> killed && signalled == old(signalled) && failures == old(failures)
      ensures !old(killed) ==> failures == old(failures) + ["Interrupted"]
      ensures !old(killed) && proc.Some? ==> killed && signalled == old(signalled) + [proc.value]
      ensures !old(killed) && proc.None? ==> !killed && signalled == old(signalled)
    {
      if !killed {
        Kill();
        failures := failures + ["Interrupted"];
      }
    }

    /** `cancel`: records `Cancelled`, every time. */
    method Cancel()
      modifies `failures
      ensures failures == old(failures) + ["Cancelled"]
    {
      failures := failures + ["Cancelled"];
    }

    /**
     * `running`, given what `proc.poll()` returns now: true while a pipe is open; then,
     * while the process has not exited, true unless it was killed; once it has exited, the
     * return code is classified and the process dropped. Without a process the method
     * returns None, which is false.
     */
    method Running(poll: Option<int>) returns (r: bool)
      modifies `returncode, `failures, `proc
      ensures stdin.Some? || stdout.Some? || stderr.Some? ==>
        r && returncode == old(returncode) && failures == old(failures) && proc == old(proc)
      ensures !(stdin.Some? || stdout.Some? || stderr.Some?) && old(proc).None? ==>
        !r && returncode == old(returncode) && failures == old(failures) && proc == None
      ensures !(stdin.Some? || stdout.Some? || stderr.Some?) && old(proc).Some? && poll.None? ==>
        r == !killed && returncode == None && failures == old(failures) && proc == old(proc)
      ensures !(stdin.Some? || stdout.Some? || stderr.Some?) && old(proc).Some? && poll.Some? ==>
        !r && returncode == poll && failures == old(failures) + ExitMessages(poll.value) && proc == None
    {
      if stdin.Some? || stdout.Some? || stderr.Some? {
        return true;
      }
      if proc.Some? {
        returncode := poll;
        if poll.None? {
          r := !killed;
        } else {
          var rc := poll.value;
          if rc < 0 {
            failures := failures + ["Killed by signal " + IntToDecimal(-rc)];
          } else if rc > 0 {
            failures := failures + ["Exited with error code " + IntToDecimal(rc)];
          }
          proc := None;
          r := false;
        }
      } else {
        r := false;
      }
    }

    /** `log_exception`: records `str(e)`, or the traceback text in verbose mode. */
    method LogException(e: OsError)
      modifies `failures
      ensures failures == old(failures) + [if verbose then e.traceback else e.text]
    {
      failures := failures + [if verbose then e.traceback else e.text];
    }

    /** `close_stdin`: drops the stdin pipe if it is open. */
    method CloseStdin()
      modifies `stdin
      ensures stdin == None
    {
      if stdin.Some? {
        stdin := None;
      }
    }

    /**
     * `handle_stdin`, given what `os.write` did if it is called: the written bytes leave the
     * buffer (`inputbuffer[k:]`); an empty buffer closes stdin; an error other than EINTR
     * closes stdin and is recorded.
     */
    method HandleStdin(w: WriteResult)
      requires Valid()
      modifies `inputbuffer, `inputWritten, `stdin, `failures
      ensures Valid()
      ensures !Truthy(old(inputbuffer)) ==>
        stdin == None && inputbuffer == old(inputbuffer) && inputWritten == old(inputWritten)
        && failures == old(failures)
      ensures Truthy(old(inputbuffer)) && w.Wrote? ==>
        var buf := old(inputbuffer).value;
        var k := if w.count <= |buf| then w.count else |buf|;
        && inputbuffer == Some(buf[k..])
        && inputWritten == old(inputWritten) + buf[..k]
        && stdin == old(stdin) && failures == old(failures)
      ensures Truthy(old(inputbuffer)) && w.WriteFailed? && w.error.errno == EINTR ==>
        inputbuffer == old(inputbuffer) && inputWritten == old(inputWritten)
        && stdin == old(stdin) && failures == old(failures)
      ensures Truthy(old(inputbuffer)) && w.WriteFailed? && w.error.errno != EINTR ==>
        inputbuffer == old(inputbuffer) && inputWritten == old(inputWritten)
        && stdin == None && failures == old(failures) + [if verbose then w.error.traceback else w.error.text]
    {
      if Truthy(inputbuffer) {
        match w
        case Wrote(count) =>
          var buf := inputbuffer.value;
          var k := if count <= |buf| then count else |buf|;
          assert buf == buf[..k] + buf[k..];
          inputWritten := inputWritten + buf[..k];
          inputbuffer := Some(buf[k..]);
        case WriteFailed(e) =>
          if e.errno != EINTR {
            CloseStdin();
            LogException(e);
          }
      } else {
        CloseStdin();
      }
    }

    /** `close_stdout`: drops the stdout pipe and closes the output file, each if open. */
    method CloseStdout()
      modifies `stdout, `outfile, `writerLog
      ensures stdout == None && outfile == None
      ensures writerLog == old(writerLog) + (if old(outfile).Some? then [CloseFile(old(outfile).value)] else [])
    {
      if stdout.Some? {
        stdout := None;
      }
      if outfile.Some? {
        writerLog := writerLog + [CloseFile(outfile.value)];
        outfile := None;
      }
    }

    /** `close_stderr`: drops the stderr pipe and closes the error file, each if open. */
    method CloseStderr()
      modifies `stderr, `errfile, `writerLog
      ensures stderr == None && errfile == None
      ensures writerLog == old(writerLog) + (if old(errfile).Some? then [CloseFile(old(errfile).value)] else [])
    {
      if stderr.Some? {
        stderr := None;
      }
      if errfile.Some? {
        writerLog := writerLog + [CloseFile(errfile.value)];
        errfile := None;
      }
    }

    /**
     * `handle_stdout`, given what `os.read` did: a chunk is kept (when `inline`), passed to
     * the writer (when there is an output file) and printed as `host: chunk` (when
     * `print_out`); an empty read closes stdout; an error other than EINTR closes stdout
     * and is recorded.
     */
    method HandleStdout(r: ReadResult, out: Stdout)
      requires Valid()
      requires r.Chunk? ==> |r.data| <= BUFFER_SIZE
      modifies `outputbuffer, `outChunks, `writerLog, `stdout, `outfile, `failures, out
      ensures Valid()
      ensures r.Chunk? && r.data != "" ==>
        && outputbuffer == (if inline then old(outputbuffer) + r.data else old(outputbuffer))
        && outChunks == old(outChunks) + [r.data]
        && writerLog == old(writerLog) + (if outfile.Some? then [WriteTo(outfile.value, r.data)] else [])
        && stdout == old(stdout) && outfile == old(outfile) && failures == old(failures)
        && out.State() == (if printOut then Printed(old(out.State()), [host + ": " + r.data], false) else old(out.State()))
      ensures r.Chunk? && r.data == "" ==>
        && outputbuffer == old(outputbuffer) && outChunks == old(outChunks)
        && stdout == None && outfile == None
        && writerLog == old(writerLog) + (if old(outfile).Some? then [CloseFile(old(outfile).value)] else [])
        && failures == old(failures)
        && out.State() == old(out.State())
      ensures r.ReadFailed? && r.error.errno == EINTR ==>
        && outputbuffer == old(outputbuffer) && outChunks == old(outChunks)
        && stdout == old(stdout) && outfile == old(outfile) && writerLog == old(writerLog)
        && failures == old(failures)
        && out.State() == old(out.State())
      ensures r.ReadFailed? && r.error.errno != EINTR ==>
        && outputbuffer == old(outputbuffer) && outChunks == old(outChunks)
        && stdout == None && outfile == None
        && writerLog == old(writerLog) + (if old(outfile).Some? then [CloseFile(old(outfile).value)] else [])
        && failures == old(failures) + [if verbose then r.error.traceback else r.error.text]
        && out.State() == old(out.State())
    {
      match r
      case Chunk(buf) =>
        if buf != "" {
          if inline {
            outputbuffer := outputbuffer + buf;
          }
          ConcatSnoc(outChunks, buf);
          ChunksFitSnoc(outChunks, buf);
          outChunks := outChunks + [buf];
          if outfile.Some? {
            writerLog := writerLog + [WriteTo(outfile.value, buf)];
          }
          assert OutputValid();
          if printOut {
            out.Print([host + ": " + buf], false);
          }
        } else {
          CloseStdout();
        }
      case ReadFailed(e) =>
        if e.errno != EINTR {
          CloseStdout();
          LogException(e);
        }
    }

    /**
     * `handle_stderr`, given what `os.read` did: as `handle_stdout`, with the error buffer
     * and the error file, and nothing printed.
     */
    method HandleStderr(r: ReadResult)
      requires Valid()
      requires r.Chunk? ==> |r.data| <= BUFFER_SIZE
      modifies `errorbuffer, `errChunks, `writerLog, `stderr, `errfile, `failures
      ensures Valid()
      ensures r.Chunk? && r.data != "" ==>
        && errorbuffer == (if inline then old(errorbuffer) + r.data else old(errorbuffer))
        && errChunks == old(errChunks) + [r.data]
        && writerLog == old(writerLog) + (if errfile.Some? then [WriteTo(errfile.value, r.data)] else [])
        && stderr == old(stderr) && errfile == old(errfile) && failures == old(failures)
      ensures r.Chunk? && r.data == "" ==>
        && errorbuffer == old(errorbuffer) && errChunks == old(errChunks)
        && stderr == None && errfile == None
        && writerLog == old(writerLog) + (if old(errfile).Some? then [CloseFile(old(errfile).value)] else [])
        && failures == old(failures)
      ensures r.ReadFailed? && r.error.errno == EINTR ==>
        && errorbuffer == old(errorbuffer) && errChunks == old(errChunks)
        && stderr == old(stderr) && errfile == old(errfile) && writerLog == old(writerLog)
        && failures == old(failures)
      ensures r.ReadFailed? && r.error.errno != EINTR ==>
        && errorbuffer == old(errorbuffer) && errChunks == old(errChunks)
        && stderr == None && errfile == None
        && writerLog == old(writerLog) + (if old(errfile).Some? then [CloseFile(old(errfile).value)] else [])
        && failures == old(failures) + [if verbose then r.error.traceback else r.error.text]
    {
      match r
      case Chunk(buf) =>
        if buf != "" {
          if inline {
            errorbuffer := errorbuffer + buf;
          }
          ConcatSnoc(errChunks, buf);
          ChunksFitSnoc(errChunks, buf);
          errChunks := errChunks + [buf];
          assert ErrorValid();
          if errfile.Some? {
            writerLog := writerLog + [WriteTo(errfile.value, buf)];
          }
        } else {
          CloseStderr();
        }
      case ReadFailed(e) =>
        if e.errno != EINTR {
          CloseStderr();
          LogException(e);
        }
    }

    /**
     * `report(n)` on a terminal without colours, with the clock reading `tstamp` (the
     * fourth field of `time.asctime()`) as a parameter.
     */
    method Report(n: int, tstamp: string, out: Stdout)
      modifies out
      ensures out.State() == ReportScreen(old(out.State()), failures, HostText(host, port), outputbuffer,
                                          errorbuffer, n, tstamp)
    {
      var error := Join(", ", failures);
      var progress := "[" + IntToDecimal(n) + "]";
      var hostText := if Truthy(port) then host + ":" + port.value else host;
      if failures != [] {
        out.Print([progress, tstamp, "[FAILURE]", hostText, error], true);
      } else {
        out.Print([progress, tstamp, "[SUCCESS]", hostText], true);
      }
      if outputbuffer != "" {
        out.Print([outputbuffer], false);
      }
      if errorbuffer != "" {
        out.Print(["Stderr:", errorbuffer], false);
      }
    }
  }

  // ---------------------------------------------------------------------------
  // Calls in sequence

  /** On a started task, a second `timedout`, or an `interrupted` after it, records nothing more. */
  method TimedOutOnce(t: Task)
    requires t.proc.Some? && !t.killed
    modifies t`signalled, t`killed, t`failures
    ensures t.killed && t.failures == old(t.failures) + ["Timed out"]
    ensures t.signalled == old(t.signalled) + [t.proc.value]
  {
    t.TimedOut();
    t.TimedOut();
    t.Interrupted();
  }

  /** On a started task, a second `interrupted`, or a `timedout` after it, records nothing more. */
  method InterruptedOnce(t: Task)
    requires t.proc.Some? && !t.killed
    modifies t`signalled, t`killed, t`failures
    ensures t.killed && t.failures == old(t.failures) + ["Interrupted"]
    ensures t.signalled == old(t.signalled) + [t.proc.value]
  {
    t.Interrupted();
    t.Interrupted();
    t.TimedOut();
  }

  /** Closing a stream twice closes its file once. */
  method CloseTwice(t: Task)
    modifies t`stdin, t`stdout, t`outfile, t`stderr, t`errfile, t`writerLog
    ensures t.stdin == None && t.stdout == None && t.stderr == None && t.outfile == None && t.errfile == None
    ensures t.writerLog == old(t.writerLog)
      + (if old(t.outfile).Some? then [CloseFile(old(t.outfile).value)] else [])
      + (if old(t.errfile).Some? then [CloseFile(old(t.errfile).value)] else [])
  {
    t.CloseStdin();
    t.CloseStdin();
    t.CloseStdout();
    t.CloseStdout();
    t.CloseStderr();
    t.CloseStderr();
  }

  // ---------------------------------------------------------------------------
  // Lemmas

  /** One more chunk read: the text grows by it. */
  lemma ConcatSnoc(chunks: seq<string>, c: string)
    ensures Concat(chunks + [c]) == Concat(chunks) + c
  {
    assert (chunks + [c])[..|chunks|] == chunks;
  }

  /** One more read of a non-empty chunk, and the chunks still fit. */
  lemma ChunksFitSnoc(chunks: seq<string>, c: string)
    requires ChunksFit(chunks) && c != "" && |c| <= BUFFER_SIZE
    ensures ChunksFit(chunks + [c])
  {
  }

  /** Reading in two runs of chunks gives the two texts one after the other. */
  lemma {:induction false} ConcatAppend(a: seq<string>, b: seq<string>)
    ensures Concat(a + b) == Concat(a) + Concat(b)
    decreases |b|
  {
    if b == [] {
      assert a + b == a;
    } else {
      var init := b[..|b| - 1];
      var last := b[|b| - 1];
      ConcatAppend(a, init);
      assert a + b == (a + init) + [last];
      ConcatSnoc(a + init, last);
      assert b == init + [last];
      ConcatSnoc(init, last);
    }
  }

  /** Chunks that fit hold at most `BUFFER_SIZE` characters each. */
  lemma {:induction false} ConcatLength(chunks: seq<string>)
    requires ChunksFit(chunks)
    ensures |Concat(chunks)| <= |chunks| * BUFFER_SIZE
    decreases |chunks|
  {
    if chunks != [] {
      ConcatLength(chunks[..|chunks| - 1]);
    }
  }

  /**
   * A zero return code records no failure; any other records exactly one, which says
   * `with error code` for an exit and `Killed by signal` for a signal.
   */
  lemma ExitMessagesCases(rc: int)
    ensures |ExitMessages(rc)| <= 1
    ensures ExitMessages(rc) == [] <==> rc == 0
    ensures rc > 0 ==> Contains(ExitMessages(rc)[0], "with error code")
    ensures rc < 0 ==> Contains(ExitMessages(rc)[0], "Killed by signal")
  {
    if rc > 0 {
      var m := ExitMessages(rc)[0];
      assert m[7..22] == "with error code";
      assert OccursAt(m, "with error code", 7);
    } else if rc < 0 {
      var m := ExitMessages(rc)[0];
      assert m[0..16] == "Killed by signal";
      assert OccursAt(m, "Killed by signal", 0);
    }
  }

  /** A message starts with `K` exactly when the return code is negative. */
  lemma ExitMessageFirst(rc: int)
    ensures rc == 0 <==> ExitMessages(rc) == []
    ensures rc != 0 ==> |ExitMessages(rc)| == 1 && ExitMessages(rc)[0] != ""
    ensures rc != 0 ==> (ExitMessages(rc)[0][0] == 'K' <==> rc < 0)
  {
  }

  lemma PrefixCancel(p: string, x: string, y: string)
    requires p + x == p + y
    ensures x == y
  {
    assert x == (p + x)[|p|..];
    assert y == (p + y)[|p|..];
  }

  /** The recorded failure determines the return code. */
  lemma ExitMessagesInjective(a: int, b: int)
    requires ExitMessages(a) == ExitMessages(b)
    ensures a == b
  {
    ExitMessageFirst(a);
    ExitMessageFirst(b);
    if a != 0 {
      if a < 0 {
        assert b < 0;
        PrefixCancel("Killed by signal ", IntToDecimal(-a), IntToDecimal(-b));
        IntToDecimalInjective(-a, -b);
      } else {
        assert b > 0;
        PrefixCancel("Exited with error code ", IntToDecimal(a), IntToDecimal(b));
        IntToDecimalInjective(a, b);
      }
    }
  }

  /**
   * From a fresh line, the buffers are written as they are, with a space before `Stderr:`
   * when the output buffer left `softspace` set.
   */
  lemma BufferPrintsText(scr: Screen, ob: string, eb: string)
    requires !scr.softspace
    ensures BufferPrints(scr, ob, eb).text ==
      scr.text + ob + (if eb == "" then "" else (if ob != "" && SetsSoftspace(ob) then " " else "") + "Stderr: " + eb)
  {
    var s := if ob != "" then Printed(scr, [ob], false) else scr;
    PrintItemsOne(scr, ob);
    assert s.text == scr.text + ob;
    assert s.softspace == (ob != "" && SetsSoftspace(ob));
    PrintItemsTwo(s, "Stderr:", eb);
  }

  /** Every item of the status line but the last leaves `softspace` set. */
  lemma StatusItemsSetSoftspace(failures: seq<string>, hostText: string, n: int, tstamp: string)
    requires tstamp != "" && NoSpace(tstamp) && hostText != "" && NoSpace(hostText)
    ensures var items := StatusItems(failures, hostText, n, tstamp);
      items != [] && forall i :: 0 <= i < |items| - 1 ==> SetsSoftspace(items[i])
  {
    assert SetsSoftspace(tstamp) && SetsSoftspace(hostText);
  }

  /** On a stdout without colours, from a fresh line: what `report` writes. */
  lemma ReportText(scr: Screen, failures: seq<string>, hostText: string, ob: string, eb: string,
                   n: int, tstamp: string)
    requires !scr.softspace
    requires tstamp != "" && NoSpace(tstamp) && hostText != "" && NoSpace(hostText)
    ensures ReportScreen(scr, failures, hostText, ob, eb, n, tstamp).text ==
      scr.text + Join(" ", StatusItems(failures, hostText, n, tstamp)) + "\n" + ob
      + (if eb == "" then "" else (if ob != "" && SetsSoftspace(ob) then " " else "") + "Stderr: " + eb)
  {
    var items := StatusItems(failures, hostText, n, tstamp);
    StatusItemsSetSoftspace(failures, hostText, n, tstamp);
    PrintPlainLine(scr, items);
    BufferPrintsText(Printed(scr, items, true), ob, eb);
  }

  /** Every recorded failure appears in the report. */
  lemma ReportNamesFailures(scr: Screen, failures: seq<string>, hostText: string, ob: string, eb: string,
                            n: int, tstamp: string, k: nat)
    requires !scr.softspace
    requires tstamp != "" && NoSpace(tstamp) && hostText != "" && NoSpace(hostText)
    requires k < |failures|
    ensures Contains(ReportScreen(scr, failures, hostText, ob, eb, n, tstamp).text, failures[k])
  {
    var items := StatusItems(failures, hostText, n, tstamp);
    var line := Join(" ", items);
    ReportText(scr, failures, hostText, ob, eb, n, tstamp);
    JoinContainsPart(", ", failures, k);
    JoinContainsPart(" ", items, 4);
    ContainsTransitive(line, items[4], failures[k]);
    ContainsAfter(scr.text, line, failures[k]);
    var rest := ReportScreen(scr, failures, hostText, ob, eb, n, tstamp).text[|scr.text + line|..];
    ContainsBefore(scr.text + line, rest, failures[k]);
    assert ReportScreen(scr, failures, hostText, ob, eb, n, tstamp).text == scr.text + line + rest;
  }
}
