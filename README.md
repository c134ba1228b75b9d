# psshlib core in Dafny

A model of the core of parallel-ssh's `psshlib` library, with proofs of what the library promises:

- **Host lists** (`psshutil.dfy`, module `PsshUtil`):
  - `[user@]host[:port]` entries and host-file lines are parsed.
  - Host files are read with blank and `#` lines skipped.
  - Whitespace-separated host strings are parsed.
  - Node names are taken from `crm_node -l` output.
- **Library front end** (`api.py`, in `api.dfy`, module `Api`):
  - the host-list expansion;
  - the `ssh` and `scp` command lines that `call`, `copy` and `slurp` build;
  - slurp's local path;
  - the output builders that collect finished tasks and turn them into the per-host result map.
- **One process's I/O state** (`task.dfy`, module `Tasks`). The class `Tasks.Task` has the fields of psshlib's `Task`, with `hasWriter` in place of `writer`. It adds `signalled`, the process groups `_kill` signalled, and `writerLog`, the calls made on the writer. Four ghost fields say what the buffers mean. Its methods:
  - start the process and kill it;
  - record timeouts, interrupts and cancellation;
  - poll the process and classify its return code;
  - write the input in partial writes and read output chunks;
  - close the pipes;
  - record exceptions;
  - print the report.
- **Default callbacks** (`callbacks.dfy`, module `Callbacks`): the status output of `finished` and the exit-status list of `result`.

Supporting modules:

- `text.dfy` (`Text`) models the Python string operations the code uses:
  - `str.split()` and `str.split(sep)`;
  - `strip`;
  - `str.join`;
  - `'%s' % n` for integers;
  - substring search.
- `console.dfy` (`Console`) models standard output as Python 2 `print` and `file.write` see it. `print` writes a space before each item while the file's `softspace` flag is set. An item leaves the flag set unless it ends in whitespace other than a blank. A newline, and `write`, clear it.
- `taskview.dfy` (`TaskView`) is the record of a finished task that `api.py` and `callbacks.py` read. It includes `exitstatus`, `quiet` and `pretty_host`, which `task.py` never sets.
- `wrappers.dfy` (`Wrappers`) provides `Option`, which stands for Python's `None`. `Truthy` is Python truthiness of an optional string.

The operating system and the clock are parameters:

- `Task.Start` receives the process id, the pipe descriptors, the files a writer opened, and the time.
- Each read, write and poll method receives what `os.read`, `os.write` or `proc.poll()` returned.
- `report` and `finished` receive the clock reading `tstamp`.

`HostTriple` fields are strings, so the model assumes the port is given as a string.

Where the code and its documentation disagree, the model follows the code. Examples:

- `read_host_files` drops the default port.
- `_expand_host_port_user` returns after its first element.
- `copy` hands a string `src` to `list.extend`.

Each of these is also in "Findings".

## Model

| member | source | states |
|---|---|---|
| PsshUtil.SplitUser | psshlib/psshutil.py:96-97 | without `@` the user is the default and the entry is unchanged; with one, the entry is `user@rest` with no `@` in the user (split at the first `@`) |
| PsshUtil.SplitPort | psshlib/psshutil.py:98-99 | without `:` the port is the default; with one, the rest is `host:port` with no `:` in the port (split at the last `:`) |
| PsshUtil.ParseHostSplits | psshlib/psshutil.py:88-100 | without `@` the user is the default and with one it is the text before the first `@`; without `:` after the user the port is the default and with one it is the text after the last `:`; reassembling host, port and user gives back the entry |
| PsshUtil.ParseUnparse | psshlib/psshutil.py:88-100 | writing a triple as `[user@]host[:port]` and parsing it gives back its host and, where written, its user and port, and the defaults elsewhere |
| PsshUtil.ParseHostRoundTrip | psshlib/psshutil.py:96-100 | `parse_host(u@h:p) == (h, p, u)` when `u` has no `@` and `p` no `:`, for any `h` |
| PsshUtil.ParseHostEntryCases | psshlib/psshutil.py:50-73 | no fields raises the IndexError of `fields[0]`; one field is `parse_host` of it; two fields reject a host field with `user@` and otherwise take the second as the user; more than two are rejected |
| PsshUtil.LegacyUserField | psshlib/psshutil.py:65-73 | the line `host[:port] user` parses as `user@host[:port]` does |
| PsshUtil.TwoFields | psshlib/psshutil.py:58 | two words joined by a blank split back into those two fields |
| PsshUtil.StrippedLineParses | psshlib/psshutil.py:39-42 | a stripped, non-blank line never reaches the IndexError case |
| PsshUtil.ReadHostFile | psshlib/psshutil.py:24-45 | the hosts collected line by line, with both `strip` calls, are the specification `HostsOfLines` of the file's lines |
| PsshUtil.HostsOfLinesHaveHosts | psshlib/psshutil.py:42-44 | at most one host per line, and no kept entry has an empty host |
| PsshUtil.HostsOfLinesAppend | psshlib/psshutil.py:37-45 | the hosts of two runs of lines are the two runs' hosts in file order |
| PsshUtil.HostsOfLinesLast | psshlib/psshutil.py:37-45 | reading one more line appends that line's hosts |
| PsshUtil.SkippedLineChangesNothing | psshlib/psshutil.py:38-41 | inserting a blank or `#` line anywhere leaves the hosts unchanged |
| PsshUtil.PlainHostLine | psshlib/psshutil.py:42-44 | a line that is a bare host name gives that host with the default port and user |
| PsshUtil.ReadHostFiles | psshlib/psshutil.py:12-21 | as written: the concatenated hosts of the files, with the default port replaced by None |
| PsshUtil.ReadHostFilesIgnoresDefaultPort | psshlib/psshutil.py:20 | as written, a bare host name gets no port even when a default port is given, unlike `read_host_file` |
| PsshUtil.ReadHostFilesWithPort | psshlib/psshutil.py:12-21 | corrected: the concatenated hosts of the files, with both defaults passed on |
| PsshUtil.HostsOfFilesDefaults | psshlib/psshutil.py:12-21 | corrected: files of bare host names give one host per file, in order, with the default port and user |
| PsshUtil.ParseHostString | psshlib/psshutil.py:76-85 | one triple per whitespace-separated entry, in order, each the `parse_host` of that entry |
| PsshUtil.NodesOfLines | psshlib/psshutil.py:123-127 | at most one node per line, each a non-empty name without whitespace, with no port or user |
| PsshUtil.NodeOfCrmLine | psshlib/psshutil.py:124-127 | a line of words `id name ...` joined by blanks gives the node `name` |
| PsshUtil.NodesOfLinesAppend | psshlib/psshutil.py:123-127 | the nodes of two runs of lines are the two runs' nodes in order |
| PsshUtil.NodesOfOutputAppend | psshlib/psshutil.py:123 | the nodes of two outputs joined by a newline are the nodes of each, in order |
| PsshUtil.GetPcmkNodes | psshlib/psshutil.py:102-128 | without `crm_node`, on an I/O error or on a non-zero exit code the list is empty; otherwise it is the nodes of the output's lines |
| Api.ExpandHostPortUser | psshlib/api.py:65-78 | as written: None exactly for an empty list; otherwise the expansion of the first element alone (a triple, or a 0-tuple or longer tuple returned unchanged) |
| Api.ExpandFirstOnly | psshlib/api.py:70-78 | as written, the result is the expansion of the first element only |
| Api.ExpandDropsLaterHosts | psshlib/api.py:70-78 | as written, two host names give one triple, for the first host |
| Api.ExpandHostList | psshlib/api.py:65-78 | corrected: one entry per element |
| Api.ExpandHostListAt | psshlib/api.py:70-78 | corrected: entry `i` is the per-element rule applied to element `i` |
| Api.ExpandElement | psshlib/api.py:71-78 | a name becomes `(name, None, None)`; a tuple keeps its items in front, and a 1-, 2- or 3-tuple is padded with None to three; a 0-tuple or a longer tuple comes back unchanged |
| Api.ExpandElementIdempotent | psshlib/api.py:71-78 | expanding an expanded element changes nothing |
| Api.BuildCallCmd | psshlib/api.py:102-117 | the list grown by the loop and the appends is the specification `CallCmd` |
| Api.CallCmdLayout | psshlib/api.py:102-117 | the ssh command is `ssh host -o NumberOfPasswordPrompts=1 -o SendEnv=...` followed by `-o opt` per option, `-l user` if the user is truthy, `-p port` if the port is truthy, the extra arguments, and the command line if truthy; its length counts exactly these |
| Api.CallCmdFlags | psshlib/api.py:109-112 | `-l` (`-p`) occurs in the command exactly when the user (port) is truthy |
| Api.OptionArgsPairs | psshlib/api.py:106-108 | the options become `-o opt` pairs, in order |
| Api.OptionArgsMembers | psshlib/api.py:106-108 | the option arguments add nothing but `-o` and the options |
| Api.BuildScpHead | psshlib/api.py:173-182 | the shared scp prefix grown by the loop, or the AttributeError raised on the way, is the specification `ScpHeadOf`: `options` is read first, then `extra` |
| Api.ScpHeadLayout | psshlib/api.py:173-182 | the scp prefix is `scp -qC`, then one `-o opt` pair per option in order, and it ends with the extra arguments |
| Api.ScpFlags | psshlib/api.py:177-180 | `-r` occurs exactly when recursive, and `-P` exactly when the port is truthy |
| Api.CopyCmd | psshlib/api.py:172-188 | `_build_copy_cmd` returns a command exactly when `opts` has both `options` and `extra`; it raises AttributeError for `options` when that is missing, and otherwise for `extra` |
| Api.BuildCopyCmd | psshlib/api.py:172-188 | the copy command, or the AttributeError, is the specification `CopyCmd` |
| Api.CopyCmdLayout | psshlib/api.py:172-188 | the copy command built from the attribute values starts `scp -qC`, ends with `[user@]host:dst`, and has what `extend(src)` adds just before it |
| Api.CopyCmdFlags | psshlib/api.py:172-188 | `-r` and `-P` occur in the copy command built from the attribute values exactly when recursive and when the port is truthy |
| Api.ExtendedJoin | psshlib/api.py:183 | what `cmd.extend(src)` adds for a string path is one argument per character, and these join back to the path |
| Api.ExtendSplitsPath | psshlib/api.py:183 | as written, a path of two or more characters does not reach scp as one argument |
| Api.IntendedCopyCmdPath | psshlib/api.py:172-188 | corrected: the copy command with `src` taken as one path and the options read from `Options` is the scp prefix, the path whole, then `[user@]host:dst` |
| Api.IntendedScpOptions | psshlib/api.py:172-182 | corrected: read from `Options` as `call` reads them (psshlib/api.py:137-138), `ssh_options` become the `-o` pairs right after `scp -qC`, `ssh_extra` comes right before the source arguments, and the target ends the command |
| Api.IntendedDefaultCopy | psshlib/api.py:172-188 | corrected: with `Options()` and no port, copying one path is `scp -qC -r path [user@]host:dst` |
| Api.SlurpCmd | psshlib/api.py:257-273 | `_build_slurp_cmd` returns a command exactly when `opts` has both `options` and `extra`; it raises AttributeError for `options` when that is missing, and otherwise for `extra` |
| Api.BuildSlurpCmd | psshlib/api.py:257-273 | the slurp command, or the AttributeError, is the specification `SlurpCmd` |
| Api.SlurpCmdLayout | psshlib/api.py:257-273 | the slurp command built from the attribute values starts `scp -qC` and ends with `[user@]host:src` and then the local path |
| Api.SlurpCmdFlags | psshlib/api.py:257-273 | `-r` and `-P` occur in the slurp command built from the attribute values exactly when recursive and when the port is truthy |
| Api.SlurpHostCmd | psshlib/api.py:295-300 | `slurp`'s per-host step raises AttributeError for `localdir` when `opts` lacks it; it builds a command exactly when `localdir`, `options` and `extra` are all present, and that command ends with `[user@]host:src` and the host's local path |
| Api.OptionsInstanceRaises | psshlib/api.py:45-62 | as written, an `Options` instance, `Options()` included, has no `options`, so both scp builders raise AttributeError for `options`, and `slurp` raises for `localdir` first |
| Api.RemoteTargetHasColon | psshlib/api.py:184-187 | the remote argument always contains the `:` that makes it remote for scp |
| Api.RemoteTargetParses | psshlib/api.py:184-187 | parsing the remote argument `user@host:path` as a host entry gives back host, path and user |
| Api.LocalPath | psshlib/api.py:296-299 | the slurp local path always ends in `host/dst` (test/api.py:70) |
| Api.LocalPathInHostDir | psshlib/api.py:296-299 | the slurp local path is the host's directory (`localdir/host` or `host`, as made at api.py:249-252) followed by `/dst` |
| Api.OutputBuilder.constructor | psshlib/api.py:82-83 | a builder starts with no finished tasks |
| Api.OutputBuilder.ForCopy | psshlib/api.py:154-155 | the copy builder ignores `dst` and starts with no finished tasks |
| Api.OutputBuilder.Finished | psshlib/api.py:85-87 | `finished` appends the task and changes nothing else |
| Api.OutputBuilder.Result | psshlib/api.py:89-99 | the map filled by the loop is the specification `Results` of the finished tasks |
| Api.OutcomeOf | psshlib/api.py:93-98 | a task with failures gives an `Error`, and any other gives `Done` with its exit status; each buffer is kept unless it is empty, when the manager's directory stands in |
| Api.ResultsKeys | psshlib/api.py:92-98 | the keys of the result are exactly the hosts of the finished tasks |
| Api.ResultsLastWins | psshlib/api.py:92-98 | the entry of a host is the outcome of its last finished task |
| Api.ErrorNamesFailures | psshlib/api.py:93-94 | a task with failures gives an `Error` whose message names every failure (test/api.py:46-48) |
| Tasks.Task.constructor | psshlib/task.py:17-46 | the initial state: no process, no failures, not killed, the input as the input buffer, empty buffers, no pipes or files; `print_out` and `inline` are false when missing |
| Tasks.Task.Start | psshlib/task.py:48-82 | records whether there is a writer and, with one, each of the two files it opened (either may be None); records the process and the time; keeps the stdin pipe exactly when there is input; opens stdout and stderr |
| Tasks.Task.Kill | psshlib/task.py:84-88 | with a process, its group is signalled and the task marked killed; without one nothing changes |
| Tasks.Task.TimedOut | psshlib/task.py:90-94 | unless already killed, kills and appends exactly `Timed out`; a killed task is left as it is |
| Tasks.Task.Interrupted | psshlib/task.py:96-100 | unless already killed, kills and appends exactly `Interrupted`; a killed task is left as it is |
| Tasks.Task.Cancel | psshlib/task.py:102-104 | appends exactly one `Cancelled`, always |
| Tasks.TimedOutOnce | psshlib/task.py:90-100 | on a started task, `timedout` twice and then `interrupted` record one `Timed out`, kill once and leave it killed |
| Tasks.InterruptedOnce | psshlib/task.py:90-100 | on a started task, `interrupted` twice and then `timedout` record one `Interrupted` and kill once |
| Tasks.Task.Running | psshlib/task.py:110-129 | true while a pipe is open; then, with the process still running, `not killed`; once it exits, the return code is stored, its failure message appended and the process dropped, and the result is false; without a process, false |
| Tasks.ExitMessages | psshlib/task.py:122-127 | a return code appends at most one message, and none exactly when it is 0 |
| Tasks.ExitMessagesCases | psshlib/task.py:122-127 | return code 0 appends nothing; any other appends exactly one message, which says `with error code` for a positive code (test/api.py:48) and `Killed by signal` for a negative one |
| Tasks.ExitMessagesInjective | psshlib/task.py:122-127 | the appended message determines the return code |
| Tasks.Task.LogException | psshlib/task.py:202-210 | appends exactly one failure: `str(e)`, or the traceback text in verbose mode |
| Tasks.Task.HandleStdin | psshlib/task.py:131-142 | writing `k` bytes drops the first `k` from the buffer (all of it if `k` is larger); the written part and the rest still make up the input (`Valid`); an empty buffer closes stdin; EINTR changes nothing; another error closes stdin and appends one failure |
| Tasks.Task.CloseStdin | psshlib/task.py:144-148 | stdin is closed, whether or not it was open |
| Tasks.Task.HandleStdout | psshlib/task.py:150-166 | a chunk is added to the output buffer with `inline` (keeping the buffer the concatenation of every chunk read); it is sent to the output file if any, and printed as `host: chunk` with a trailing comma when `print_out`; an empty read closes stdout; EINTR changes nothing; another error closes stdout and appends one failure |
| Tasks.Task.CloseStdout | psshlib/task.py:168-175 | stdout and the output file are closed; the writer is asked to close the file once, only if it was open |
| Tasks.Task.HandleStderr | psshlib/task.py:177-191 | as for stdout, with the error buffer and error file, and nothing printed |
| Tasks.Task.CloseStderr | psshlib/task.py:193-200 | stderr and the error file are closed; the writer is asked to close the file once, only if it was open |
| Tasks.CloseTwice | psshlib/task.py:144-148 | closing each stream twice closes everything and closes each open file once |
| Tasks.ConcatSnoc | psshlib/task.py:156 | one more chunk extends the buffer by that chunk |
| Tasks.ChunksFitSnoc | psshlib/task.py:153-154 | a non-empty read of at most `BUFFER_SIZE` keeps every chunk within that bound |
| Tasks.ConcatAppend | psshlib/task.py:153-156 | the buffer of two runs of reads is the two texts in order, whatever the chunking |
| Tasks.ConcatLength | psshlib/task.py:13 | a buffer made of chunks of at most `BUFFER_SIZE` (65536) characters is at most the number of chunks times `BUFFER_SIZE` characters long |
| Tasks.Task.Report | psshlib/task.py:212-239 | what `report` prints is the specification `ReportScreen` |
| Tasks.StatusItemsSetSoftspace | psshlib/task.py:231-234 | each status-line item but the last leaves `softspace` set, so the items are joined by single blanks |
| Tasks.BufferPrintsText | psshlib/task.py:235-238 | `print outputbuffer,` writes the buffer as is; `print stderr, errorbuffer,` writes `Stderr: ` and the buffer, after a blank when the output buffer is non-empty and does not end in whitespace other than a blank (Python 2 softspace) |
| Tasks.ReportText | psshlib/task.py:212-239 | from a fresh line: `[n] time [FAILURE] host errors` or `[n] time [SUCCESS] host`, with `host:port` as the host when the port is truthy, a newline, the output buffer, then `Stderr: ` and the error buffer |
| Tasks.ReportNamesFailures | psshlib/task.py:214-232 | every recorded failure appears in the report |
| Console.Stdout.Print | psshlib/task.py:232-238 | a `print` statement writes its items in order with softspace blanks, then the newline unless it ends with a comma |
| Console.PrintPlainLine | psshlib/task.py:232-234 | items that leave `softspace` set print as their blank-joined text and a newline |
| Console.Stdout.Write | psshlib/callbacks.py:46 | `sys.stdout.write` appends the text as is and clears `softspace` |
| Callbacks.Progress | psshlib/callbacks.py:28 | `[n]` is one non-empty word |
| Callbacks.Finished | psshlib/callbacks.py:14-54 | what `finished` writes is the specification `FinishedOutput` |
| Callbacks.ReportWritesText | psshlib/callbacks.py:33-54 | from a fresh line: the status line and a newline unless quiet, then the output buffer, then `Stderr: ` and the error buffer if non-empty |
| Callbacks.FinishedText | psshlib/callbacks.py:33-54 | `quiet` suppresses only the status line; stdout's buffer is written before stderr's |
| Callbacks.StatusLine | psshlib/callbacks.py:34-37 | the status line starts with the progress word `[n]` and a blank |
| Callbacks.StatusLineFields | psshlib/callbacks.py:19-37 | the line's fields are `[n]`, the time, `[FAILURE]` exactly when there are failures (else `[SUCCESS]`), the host, then the words of `', '.join(failures)` |
| Callbacks.Result | psshlib/callbacks.py:60 | at most one exit status per saved task |
| Callbacks.ResultOne | psshlib/callbacks.py:60 | a saved task gives its exit status exactly when it is done |
| Callbacks.ResultAppend | psshlib/callbacks.py:60 | the result keeps the order of `save_tasks` |
| Callbacks.ResultAllDone | psshlib/callbacks.py:60 | when every saved task is done, the result is their exit statuses in order |
| Callbacks.ResultNoneDone | psshlib/callbacks.py:60 | when no saved task is done, the result is empty |
| Text.SplitWhitespaceJoin | psshlib/psshutil.py:58 | splitting words joined by blanks gives back the words |
| Text.StripIdempotent | psshlib/psshutil.py:33-39 | stripping an already stripped line changes nothing |
| Text.JoinSplitOn | psshlib/psshutil.py:123 | joining the pieces of `split('\n')` with newlines gives back the text |
| Text.IntToDecimalInjective | psshlib/task.py:123-126 | distinct codes print differently |

## Left out

- The batch engine (`Manager`, the IOMap poll loop, the parallelism limit, `FatalError` and `sys.exit`) is not part of this model. So `call`, `copy` and `slurp` are represented by the pieces they assemble: the expansion, the command builders, the local path and the builders' `result`.
- The directory creation in `call`, `copy`, `slurp` and `_slurp_make_local_dirs` (`os.makedirs`, `os.mkdir`) is file-system I/O. Only the directory name is modelled (`SlurpLocalDir`).
- `open` and the line iteration of `read_host_file`, and the processes `get_pcmk_nodes` runs, are replaced by their results: the file's lines and `CrmNodeRun`. The messages written to `sys.stderr` for bad lines and for `crm_node` failures are not modelled.
- `Task.start`'s environment (`PSSH_NODENUM`, `SSH_ASKPASS`, `DISPLAY`), `Popen`, `os.setsid` and the IOMap registrations are process I/O. `Start` records only their effect on the task's state.
- `_kill`'s `os.kill`: the model records the process group it signals, in `signalled`.
- The IOMap `unregister` calls and the file `close` calls at psshlib/task.py:146-147, 170-171 and 196-197 are not modelled: those objects are outside the model. The writer's `open_files` result is an input, and the writer's `write` and `close` calls are recorded in `writerLog`.
- The colour branches of `report` and `finished` depend on the terminal; only the plain-text branch is modelled. `sys.stdout.flush` is not modelled, since it changes no text.
- `time.asctime()` and `time.time()` are parameters (`tstamp`, `now`).
- Tasks.Task.LogException: the verbose traceback text is built from `sys.exc_info()`. The model takes it as the `traceback` field of `OsError` rather than formatting it.
- `callbacks.py` writes bytes through `sys.stdout.buffer` when it exists. Both routes are modelled as `sys.stdout.write` of the text, the `AttributeError` fallback at psshlib/callbacks.py:46 and 54.
- `Task.__init__` takes `(host, port, cmd, opts, stdin)` (psshlib/task.py:17). `api.py` calls it as `Task(host, port, user, cmd, stdin=..., verbose=..., ...)` (psshlib/api.py:139-145), a signature task.py does not have. The model follows task.py.
- `task.py` never sets `exitstatus`, `quiet` or `pretty_host`, which `api.py` and `callbacks.py` read. `TaskView.FinishedTask` therefore carries them as given values.
- `copy` constructs `_CopyOutputBuilder()` without the `dst` that its `__init__` requires (psshlib/api.py:154 vs 208). In Python that raises a TypeError before any task runs. The model's `ForCopy` constructor takes `dst` and ignores it, as `__init__` does.
- `_build_copy_cmd` and `_build_slurp_cmd` read `opts.options` and `opts.extra`, and `slurp` reads `opts.localdir`; `Options` (psshlib/api.py:45-62) defines none of them. `ScpOpts` holds each as present or missing, and the builders raise the AttributeError for a missing one (see "Findings"). `localdir` has no counterpart in `Options`, so the corrected commands keep the slurp directory as given.
- `opts.localdir` is also read first at psshlib/api.py:249, inside `_slurp_make_local_dirs`, which is file-system I/O and not modelled; `SlurpHostCmd` raises the same AttributeError at psshlib/api.py:296.
- Tasks.Task.Elapsed: `time.time()` is the parameter `now`, so the elapsed time is only the difference `now - timestamp`; no further property is stated about it.
- `Error` has no `__str__`, so `str(result)` in test/api.py:48 would print the object, not its message. The model reads `Error.msg`.
- The test at test/api.py:68 unpacks four values from a slurp result that the builder makes with three (psshlib/api.py:239-241). The model follows the builder.

## Findings

| source | as written | input that shows it | evidently intended | confidence | as-written member | corrected member |
|---|---|---|---|---|---|---|
| psshlib/psshutil.py:20 | `read_host_files` calls `read_host_file(path, default_user=default_user)` and drops `default_port` | one host file holding the line `web1` with default port `"2222"`: the host gets no port | the default port is passed on, as `read_host_file`'s own signature and docstring intend | not executed | PsshUtil.ReadHostFilesIgnoresDefaultPort | PsshUtil.HostsOfFilesDefaults |
| psshlib/api.py:70-78 | `_expand_host_port_user` returns from inside its loop, so it returns one tuple for the first element (or None for an empty list) | `["a", "b"]` gives `("a", None, None)`; the caller's `for host, port, user in ...` then unpacks that tuple's items | one `(host, port, user)` triple per element, as the docstring says | not executed | Api.ExpandDropsLaterHosts | Api.ExpandHostListAt |
| psshlib/api.py:183 | `cmd.extend(src)` with a string `src` adds one argument per character | `_build_copy_cmd("h", None, None, "/etc/hosts", "/d", opts)`, with an `opts` whose `options` and `extra` are `[]`, passes `/`, `e`, `t`, ... to scp (`copy` itself fails earlier: the TypeError of psshlib/api.py:208 and the AttributeError of psshlib/api.py:174) | a single path becomes one argument | not executed | Api.ExtendSplitsPath | Api.IntendedCopyCmdPath |
| psshlib/api.py:174-182 | `_build_copy_cmd` and `_build_slurp_cmd` read `opts.options` and `opts.extra`, which the `Options` class does not define | `_build_copy_cmd("h", None, None, ["f"], "/d", Options())` raises AttributeError for `options` | the builders read `ssh_options` and `ssh_extra`, as `call` does at psshlib/api.py:137-138 | not executed | Api.OptionsInstanceRaises | Api.IntendedScpOptions |
