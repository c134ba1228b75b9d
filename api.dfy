/**
 * The library interface (psshlib/api.py): normalising host elements, building the `ssh`
 * and `scp` argument vectors, the slurp local paths, and folding finished tasks into the
 * `host -> Error | (rc, out, err)` map.
 */
module Api {
  import opened Wrappers
  import opened Text
  import opened TaskView
  import opened PsshUtil

  // ---------------------------------------------------------------------------
  // Host elements

  /** An element of the host list given to `call`, `copy` and `slurp`: a host name, or a tuple. */
  datatype HostElement =
    | Name(name: string)
    | Tuple(items: seq<Option<string>>)

  /**
   * The rule `_expand_host_port_user` applies to one element: a name, or a tuple of one to
   * three items, is padded with None to a (host, port, user) triple that keeps the given
   * items in front; an empty or a longer tuple comes back unchanged.
   */
  function ExpandElement(v: HostElement): (r: seq<Option<string>>)
    ensures v.Name? ==> |r| == 3 && r[0] == Some(v.name) && r[1] == None && r[2] == None
    ensures v.Tuple? ==> |r| >= |v.items| && r[..|v.items|] == v.items
                         && forall k :: |v.items| <= k < |r| ==> r[k] == None
    ensures v.Tuple? ==> |r| == if 1 <= |v.items| <= 3 then 3 else |v.items|
  {
    match v
    case Name(s) => [Some(s), None, None]
    case Tuple(items) =>
      if |items| == 1 then [items[0], None, None]
      else if |items| == 2 then items + [None]
      else items
  }

  /**
   * `_expand_host_port_user` as written: the `return` inside the loop ends it on the first
   * element, so only that element's tuple comes back; an empty list gives None.
   */
  function ExpandHostPortUser(lst: seq<HostElement>): (r: Option<seq<Option<string>>>)
    ensures r.None? <==> lst == []
  {
    if lst == [] then None else Some(ExpandElement(lst[0]))
  }

  /** What the docstring promises: one (host, port, user) tuple per element, in order. */
  function ExpandHostList(lst: seq<HostElement>): (r: seq<seq<Option<string>>>)
    ensures |r| == |lst|
    decreases |lst|
  {
    if lst == [] then [] else ExpandHostList(lst[..|lst| - 1]) + [ExpandElement(lst[|lst| - 1])]
  }

  // ---------------------------------------------------------------------------
  // Argument vectors

  /** The `'-o', opt` pairs for the options, in order. */
  function OptionArgs(options: seq<string>): seq<string>
    decreases |options|
  {
    if options == [] then [] else OptionArgs(options[..|options| - 1]) + ["-o", options[|options| - 1]]
  }

  /** A flag and its value when the value is truthy, nothing otherwise. */
  function FlagArgs(flag: string, value: Option<string>): seq<string> {
    if Truthy(value) then [flag, value.value] else []
  }

  /** The fixed start of every `ssh` command line. */
  function SshPrefix(host: string): seq<string> {
    ["ssh", host, "-o", "NumberOfPasswordPrompts=1", "-o", "SendEnv=PSSH_NODENUM PSSH_HOST"]
  }

  /** The command line `_build_call_cmd` builds. */
  function CallCmd(host: string, port: Option<string>, user: Option<string>, cmdline: Option<string>,
                   options: seq<string>, extra: seq<string>): seq<string>
  {
    SshPrefix(host) + OptionArgs(options) + FlagArgs("-l", user) + FlagArgs("-p", port) + extra
      + (if Truthy(cmdline) then [cmdline.value] else [])
  }

  /** `_build_call_cmd`; a None `options` or `extra` is the empty list. */
  method BuildCallCmd(host: string, port: Option<string>, user: Option<string>, cmdline: Option<string>,
                      options: seq<string>, extra: seq<string>)
    returns (cmd: seq<string>)
    ensures cmd == CallCmd(host, port, user, cmdline, options, extra)
  {
    cmd := ["ssh", host, "-o", "NumberOfPasswordPrompts=1", "-o", "SendEnv=PSSH_NODENUM PSSH_HOST"];
    for i := 0 to |options|
      invariant cmd == SshPrefix(host) + OptionArgs(options[..i])
    {
      assert options[..i + 1][..i] == options[..i];
      cmd := cmd + ["-o", options[i]];
    }
    assert options[..|options|] == options;
    ghost var head := cmd;
    if Truthy(user) {
      cmd := cmd + ["-l", user.value];
    }
    assert cmd == head + FlagArgs("-l", user);
    if Truthy(port) {
      cmd := cmd + ["-p", port.value];
    }
    assert cmd == head + FlagArgs("-l", user) + FlagArgs("-p", port);
    cmd := cmd + extra;
    ghost var body := cmd;
    if Truthy(cmdline) {
      cmd := cmd + [cmdline.value];
    }
    assert cmd == body + (if Truthy(cmdline) then [cmdline.value] else []);
  }

  /**
   * The `src` argument of `copy`. `cmd.extend(src)` adds the items of a list, but the
   * characters of a string, one argument each.
   */
  datatype SrcArg =
    | Paths(paths: seq<string>)
    | Path(path: string)

  /** What `cmd.extend(src)` adds. */
  function Extended(src: SrcArg): (r: seq<string>)
    ensures src.Path? ==> |r| == |src.path| && forall i :: 0 <= i < |r| ==> r[i] == [src.path[i]]
  {
    match src
    case Paths(ps) => ps
    case Path(s) => seq(|s|, i requires 0 <= i < |s| => [s[i]])
  }

  /** An attribute looked up on `opts`: missing, so that reading it raises AttributeError, or its value. */
  datatype Attr<T> = Unset | Set(value: T)

  /**
   * What the `scp` builders and `slurp` find on `opts`. `options`, `extra` and `localdir`
   * may be missing; `recursive` is a class attribute of `Options`. A None list and the
   * empty list build the same command.
   */
  datatype ScpOpts = ScpOpts(options: Attr<seq<string>>, recursive: bool, extra: Attr<seq<string>>,
                             localdir: Attr<Option<string>>)

  /** The `options`, `recursive` and `extra` values once read from `opts`. */
  datatype ScpArgs = ScpArgs(options: seq<string>, recursive: bool, extra: seq<string>)

  /** A value built from `opts`, or the AttributeError raised for the attribute `opts` lacks. */
  datatype Built<T> = Built(value: T) | AttributeError(attr: string)

  /** The attributes in the order the builders read them: `options` first, then `extra`. */
  function ReadScpArgs(opts: ScpOpts): Built<ScpArgs> {
    if opts.options.Unset? then AttributeError("options")
    else if opts.extra.Unset? then AttributeError("extra")
    else Built(ScpArgs(opts.options.value, opts.recursive, opts.extra.value))
  }

  /** The attributes of the `Options` class that the command builders concern. */
  datatype Options = Options(sshOptions: seq<string>, sshExtra: seq<string>, recursive: bool)

  /** `Options()`: no ssh options, no extra arguments, recursive. */
  function DefaultOptions(): Options {
    Options([], [], true)
  }

  /** An `Options` instance as the `scp` builders see it: it has no `options`, `extra` or `localdir`. */
  function ScpView(o: Options): ScpOpts {
    ScpOpts(Unset, o.recursive, Unset, Unset)
  }

  /** `user@host:path`, or `host:path` without a user. */
  function RemoteTarget(user: Option<string>, host: string, path: string): string {
    if Truthy(user) then user.value + "@" + host + ":" + path else host + ":" + path
  }

  /** What both `scp` builders put before their paths. */
  function ScpHead(port: Option<string>, a: ScpArgs): seq<string> {
    ["scp", "-qC"] + OptionArgs(a.options) + FlagArgs("-P", port)
      + (if a.recursive then ["-r"] else []) + a.extra
  }

  /** The head of an `scp` command, or the AttributeError reading `opts` raises. */
  function ScpHeadOf(port: Option<string>, opts: ScpOpts): Built<seq<string>> {
    match ReadScpArgs(opts)
    case AttributeError(name) => AttributeError(name)
    case Built(a) => Built(ScpHead(port, a))
  }

  /** The command line `_build_copy_cmd` builds from the attribute values. */
  function CopyArgs(host: string, port: Option<string>, user: Option<string>, src: SrcArg, dst: string,
                    a: ScpArgs): seq<string>
  {
    ScpHead(port, a) + Extended(src) + [RemoteTarget(user, host, dst)]
  }

  /** What `_build_copy_cmd` returns or raises. */
  function CopyCmd(host: string, port: Option<string>, user: Option<string>, src: SrcArg, dst: string,
                   opts: ScpOpts): (r: Built<seq<string>>)
    ensures r.Built? <==> opts.options.Set? && opts.extra.Set?
    ensures opts.options.Unset? ==> r == AttributeError("options")
    ensures opts.options.Set? && opts.extra.Unset? ==> r == AttributeError("extra")
  {
    match ReadScpArgs(opts)
    case AttributeError(name) => AttributeError(name)
    case Built(a) => Built(CopyArgs(host, port, user, src, dst, a))
  }

  /** The command line `_build_slurp_cmd` builds from the attribute values. */
  function SlurpArgs(host: string, port: Option<string>, user: Option<string>, src: string, dst: string,
                     a: ScpArgs): seq<string>
  {
    ScpHead(port, a) + [RemoteTarget(user, host, src), dst]
  }

  /** What `_build_slurp_cmd` returns or raises. */
  function SlurpCmd(host: string, port: Option<string>, user: Option<string>, src: string, dst: string,
                    opts: ScpOpts): (r: Built<seq<string>>)
    ensures r.Built? <==> opts.options.Set? && opts.extra.Set?
    ensures opts.options.Unset? ==> r == AttributeError("options")
    ensures opts.options.Set? && opts.extra.Unset? ==> r == AttributeError("extra")
  {
    match ReadScpArgs(opts)
    case AttributeError(name) => AttributeError(name)
    case Built(a) => Built(SlurpArgs(host, port, user, src, dst, a))
  }

  /** The part both `scp` builders share, up to the paths. */
  method BuildScpHead(port: Option<string>, opts: ScpOpts) returns (r: Built<seq<string>>)
    ensures r == ScpHeadOf(port, opts)
  {
    var cmd := ["scp", "-qC"];
    if opts.options.Unset? {
      return AttributeError("options");
    }
    var options := opts.options.value;
    for i := 0 to |options|
      invariant cmd == ["scp", "-qC"] + OptionArgs(options[..i])
    {
      assert options[..i + 1][..i] == options[..i];
      cmd := cmd + ["-o", options[i]];
    }
    assert options[..|options|] == options;
    if Truthy(port) {
      cmd := cmd + ["-P", port.value];
    }
    if opts.recursive {
      cmd := cmd + ["-r"];
    }
    if opts.extra.Unset? {
      return AttributeError("extra");
    }
    cmd := cmd + opts.extra.value;
    var a := ScpArgs(options, opts.recursive, opts.extra.value);
    assert ReadScpArgs(opts) == Built(a);
    assert cmd == ScpHead(port, a);
    r := Built(cmd);
  }

  /** `_build_copy_cmd`. */
  method BuildCopyCmd(host: string, port: Option<string>, user: Option<string>, src: SrcArg, dst: string,
                      opts: ScpOpts)
    returns (r: Built<seq<string>>)
    ensures r == CopyCmd(host, port, user, src, dst, opts)
  {
    var head := BuildScpHead(port, opts);
    if head.AttributeError? {
      return AttributeError(head.attr);
    }
    var cmd := head.value + Extended(src);
    if Truthy(user) {
      cmd := cmd + [user.value + "@" + host + ":" + dst];
    } else {
      cmd := cmd + [host + ":" + dst];
    }
    assert ReadScpArgs(opts) == Built(ScpArgs(opts.options.value, opts.recursive, opts.extra.value));
    r := Built(cmd);
  }

  /** `_build_slurp_cmd`. */
  method BuildSlurpCmd(host: string, port: Option<string>, user: Option<string>, src: string, dst: string,
                       opts: ScpOpts)
    returns (r: Built<seq<string>>)
    ensures r == SlurpCmd(host, port, user, src, dst, opts)
  {
    var head := BuildScpHead(port, opts);
    if head.AttributeError? {
      return AttributeError(head.attr);
    }
    var cmd := head.value;
    if Truthy(user) {
      cmd := cmd + [user.value + "@" + host + ":" + src];
    } else {
      cmd := cmd + [host + ":" + src];
    }
    cmd := cmd + [dst];
    var a := ScpArgs(opts.options.value, opts.recursive, opts.extra.value);
    assert ReadScpArgs(opts) == Built(a);
    assert cmd == SlurpArgs(host, port, user, src, dst, a);
    r := Built(cmd);
  }

  /** The directory `_slurp_make_local_dirs` creates for a host. */
  function SlurpLocalDir(localdir: Option<string>, host: string): string {
    if Truthy(localdir) then localdir.value + "/" + host else host
  }

  /** The local path `slurp` gives `_build_slurp_cmd` for a host: it always ends in `host/dst`. */
  function LocalPath(localdir: Option<string>, host: string, dst: string): (r: string)
    ensures var suffix := host + "/" + dst; |r| >= |suffix| && r[|r| - |suffix|..] == suffix
  {
    var suffix := host + "/" + dst;
    var r := if Truthy(localdir) then localdir.value + "/" + host + "/" + dst else host + "/" + dst;
    assert r == (if Truthy(localdir) then localdir.value + "/" else "") + suffix;
    r
  }

  /**
   * What `slurp` does for one host before it makes the task: it reads `opts.localdir` for
   * the local path, then builds the slurp command for that path.
   */
  function SlurpHostCmd(host: string, port: Option<string>, user: Option<string>, src: string, dst: string,
                        opts: ScpOpts): (r: Built<seq<string>>)
    ensures opts.localdir.Unset? ==> r == AttributeError("localdir")
    ensures r.Built? <==> opts.localdir.Set? && opts.options.Set? && opts.extra.Set?
    ensures r.Built? ==> var cmd := r.value;
      && |cmd| >= 2 && cmd[|cmd| - 2] == RemoteTarget(user, host, src)
      && cmd[|cmd| - 1] == LocalPath(opts.localdir.value, host, dst)
  {
    match opts.localdir
    case Unset => AttributeError("localdir")
    case Set(localdir) => SlurpCmd(host, port, user, src, LocalPath(localdir, host, dst), opts)
  }

  // ---------------------------------------------------------------------------
  // Results

  /** What the result map holds for a host: an `Error`, or `(exitstatus, out, err)`. */
  datatype HostOutcome =
    | Error(msg: string)
    | Done(exitstatus: int, out: Option<string>, err: Option<string>)

  /** The entry of one finished task; `buffer or dir` is the buffer unless it is empty. */
  function OutcomeOf(task: FinishedTask, outdir: Option<string>, errdir: Option<string>): (r: HostOutcome)
    ensures r.Error? <==> task.failures != []
    ensures r.Done? ==> && r.exitstatus == task.exitstatus
                        && (if task.outputbuffer == "" then r.out == outdir else r.out == Some(task.outputbuffer))
                        && (if task.errorbuffer == "" then r.err == errdir else r.err == Some(task.errorbuffer))
  {
    if task.failures != [] then Error(Join(", ", task.failures))
    else Done(task.exitstatus,
              if task.outputbuffer != "" then Some(task.outputbuffer) else outdir,
              if task.errorbuffer != "" then Some(task.errorbuffer) else errdir)
  }

  /** The map `result` builds: the tasks in order, a later task overwriting an earlier one for its host. */
  function Results(tasks: seq<FinishedTask>, outdir: Option<string>, errdir: Option<string>): map<string, HostOutcome>
    decreases |tasks|
  {
    if tasks == [] then map[]
    else
      var last := tasks[|tasks| - 1];
      Results(tasks[..|tasks| - 1], outdir, errdir)[last.host := OutcomeOf(last, outdir, errdir)]
  }

  /**
   * `_CallOutputBuilder`, `_CopyOutputBuilder` and `_SlurpOutputBuilder`, whose `finished`
   * and `result` are the same code. `manager.outdir` and `manager.errdir` are parameters.
   */
  class OutputBuilder {
    var finishedTasks: seq<FinishedTask>

    /** `_CallOutputBuilder()` and `_SlurpOutputBuilder()`. */
    constructor()
      ensures finishedTasks == []
    {
      finishedTasks := [];
    }

    /** `_CopyOutputBuilder(dst)`: `dst` is not used. */
    constructor ForCopy(dst: string)
      ensures finishedTasks == []
    {
      finishedTasks := [];
    }

    /** `finished(task, n)`: the task is appended; `n` is not used. */
    method Finished(task: FinishedTask, n: int)
      modifies this
      ensures finishedTasks == old(finishedTasks) + [task]
    {
      finishedTasks := finishedTasks + [task];
    }

    /** `result(manager)`. */
    method Result(outdir: Option<string>, errdir: Option<string>) returns (ret: map<string, HostOutcome>)
      ensures ret == Results(finishedTasks, outdir, errdir)
    {
      ret := map[];
      for i := 0 to |finishedTasks|
        invariant ret == Results(finishedTasks[..i], outdir, errdir)
      {
        var task := finishedTasks[i];
        assert finishedTasks[..i + 1][..i] == finishedTasks[..i];
        if task.failures != [] {
          ret := ret[task.host := Error(Join(", ", task.failures))];
        } else {
          ret := ret[task.host := Done(task.exitstatus,
                                       if task.outputbuffer != "" then Some(task.outputbuffer) else outdir,
                                       if task.errorbuffer != "" then Some(task.errorbuffer) else errdir)];
        }
      }
      assert finishedTasks[..|finishedTasks|] == finishedTasks;
    }
  }

  /** The intended handling of `src`: a single path is one argument, a list one argument per path. */
  function SourceArgs(src: SrcArg): (r: seq<string>)
    ensures src.Path? ==> r == [src.path]
    ensures src.Paths? ==> r == src.paths
  {
    match src
    case Paths(ps) => ps
    case Path(s) => [s]
  }

  /** The intended `scp` attributes: the ssh options and arguments `call` passes to `ssh`. */
  function IntendedScpArgs(o: Options): ScpArgs {
    ScpArgs(o.sshOptions, o.recursive, o.sshExtra)
  }

  /** The copy command with `src` handled as intended and the options read from `Options`. */
  function IntendedCopyCmd(host: string, port: Option<string>, user: Option<string>, src: SrcArg, dst: string,
                           o: Options): seq<string>
  {
    ScpHead(port, IntendedScpArgs(o)) + SourceArgs(src) + [RemoteTarget(user, host, dst)]
  }

  /** The slurp command with the options read from `Options`. */
  function IntendedSlurpCmd(host: string, port: Option<string>, user: Option<string>, src: string, dst: string,
                            o: Options): seq<string>
  {
    SlurpArgs(host, port, user, src, dst, IntendedScpArgs(o))
  }

  /** With `src` handled as intended, a single path reaches scp whole, just before the target. */
  lemma IntendedCopyCmdPath(host: string, port: Option<string>, user: Option<string>, path: string, dst: string,
                            o: Options)
    ensures var cmd := IntendedCopyCmd(host, port, user, Path(path), dst, o);
      var head := ScpHead(port, IntendedScpArgs(o));
      && |cmd| == |head| + 2
      && cmd[..|cmd| - 2] == head
      && cmd[|cmd| - 2] == path
      && cmd[|cmd| - 1] == RemoteTarget(user, host, dst)
  {
    var cmd := IntendedCopyCmd(host, port, user, Path(path), dst, o);
    assert cmd == ScpHead(port, IntendedScpArgs(o)) + [path, RemoteTarget(user, host, dst)];
  }

  // ---------------------------------------------------------------------------
  // Lemmas: the `opts` attributes

  /**
   * An `Options` instance, the default one included, lacks `options`: both `scp` builders
   * raise AttributeError on it, and `slurp` raises on the missing `localdir` even earlier.
   */
  lemma OptionsInstanceRaises(o: Options, host: string, port: Option<string>, user: Option<string>,
                              src: SrcArg, path: string, dst: string)
    ensures CopyCmd(host, port, user, src, dst, ScpView(o)) == AttributeError("options")
    ensures SlurpCmd(host, port, user, path, dst, ScpView(o)) == AttributeError("options")
    ensures SlurpHostCmd(host, port, user, path, dst, ScpView(o)) == AttributeError("localdir")
  {
  }

  /**
   * Read from `Options`, the ssh options reach scp as `-o` pairs right after `scp -qC`,
   * and the extra arguments right before the paths, as `call` passes them to `ssh`.
   */
  lemma IntendedScpOptions(host: string, port: Option<string>, user: Option<string>, src: SrcArg, dst: string,
                           o: Options)
    ensures var cmd := IntendedCopyCmd(host, port, user, src, dst, o);
      var n := |ScpHead(port, IntendedScpArgs(o))|;
      && |cmd| == n + |SourceArgs(src)| + 1
      && n >= 2 + 2 * |o.sshOptions| + |o.sshExtra|
      && cmd[..2] == ["scp", "-qC"]
      && (forall i :: 0 <= i < |o.sshOptions| ==> cmd[2 + 2 * i] == "-o" && cmd[3 + 2 * i] == o.sshOptions[i])
      && cmd[n - |o.sshExtra|..n] == o.sshExtra
      && cmd[n..] == SourceArgs(src) + [RemoteTarget(user, host, dst)]
  {
    var head := ScpHead(port, IntendedScpArgs(o));
    var tail := SourceArgs(src) + [RemoteTarget(user, host, dst)];
    var cmd := IntendedCopyCmd(host, port, user, src, dst, o);
    assert cmd == head + tail;
    ScpHeadLayout(port, IntendedScpArgs(o));
    assert cmd[..|head|] == head;
    assert cmd[|head|..] == tail;
  }

  /** With `Options()` and no port, the intended copy of one path is `scp -qC -r path [user@]host:dst`. */
  lemma IntendedDefaultCopy(host: string, user: Option<string>, path: string, dst: string)
    ensures IntendedCopyCmd(host, None, user, Path(path), dst, DefaultOptions())
         == ["scp", "-qC", "-r", path, RemoteTarget(user, host, dst)]
  {
    assert OptionArgs([]) == [];
  }

  // ---------------------------------------------------------------------------
  // Lemmas: host elements

  /** Expanding an expanded element changes nothing. */
  lemma ExpandElementIdempotent(v: HostElement)
    ensures ExpandElement(Tuple(ExpandElement(v))) == ExpandElement(v)
  {
  }

  lemma {:induction false} ExpandHostListAt(lst: seq<HostElement>)
    ensures forall i :: 0 <= i < |lst| ==> ExpandHostList(lst)[i] == ExpandElement(lst[i])
    decreases |lst|
  {
    if lst != [] {
      ExpandHostListAt(lst[..|lst| - 1]);
    }
  }

  /** As written, the result is the first element's tuple of the intended list, and nothing else. */
  lemma ExpandFirstOnly(lst: seq<HostElement>)
    requires lst != []
    ensures ExpandHostPortUser(lst) == Some(ExpandHostList(lst)[0])
  {
    ExpandHostListAt(lst);
  }

  /** Two host names: the intended expansion has both, the one written returns the first host's triple only. */
  lemma ExpandDropsLaterHosts(a: string, b: string)
    ensures ExpandHostList([Name(a), Name(b)]) == [[Some(a), None, None], [Some(b), None, None]]
    ensures ExpandHostPortUser([Name(a), Name(b)]) == Some([Some(a), None, None])
  {
    ExpandHostListAt([Name(a), Name(b)]);
  }

  // ---------------------------------------------------------------------------
  // Lemmas: argument vectors

  /** One `-o` before each option, the options in order. */
  lemma {:induction false} OptionArgsPairs(options: seq<string>)
    ensures var r := OptionArgs(options);
      |r| == 2 * |options| && forall i :: 0 <= i < |options| ==> r[2 * i] == "-o" && r[2 * i + 1] == options[i]
    decreases |options|
  {
    if options != [] {
      OptionArgsPairs(options[..|options| - 1]);
    }
  }

  /** A string that is neither `-o` nor any of the options does not occur among the option arguments. */
  lemma OptionArgsMembers(options: seq<string>, x: string)
    requires x != "-o" && x !in options
    ensures x !in OptionArgs(options)
  {
    OptionArgsPairs(options);
    var r := OptionArgs(options);
    forall k | 0 <= k < |r|
      ensures r[k] != x
    {
      var i := k / 2;
      assert k == 2 * i || k == 2 * i + 1;
    }
  }

  /**
   * An `ssh` command line opens with `ssh host` and the two fixed `-o` settings, then has
   * one `-o opt` pair per option in order, then `-l user` and `-p port` for a truthy user
   * and port, then the extra arguments; the command comes last, and only when non-empty.
   */
  lemma CallCmdLayout(host: string, port: Option<string>, user: Option<string>, cmdline: Option<string>,
                      options: seq<string>, extra: seq<string>)
    ensures var cmd := CallCmd(host, port, user, cmdline, options, extra);
      var o := 6 + 2 * |options|;
      var u := if Truthy(user) then 2 else 0;
      var p := if Truthy(port) then 2 else 0;
      var c := if Truthy(cmdline) then 1 else 0;
      && |cmd| == o + u + p + |extra| + c
      && cmd[..6] == SshPrefix(host)
      && (forall i :: 0 <= i < |options| ==> cmd[6 + 2 * i] == "-o" && cmd[7 + 2 * i] == options[i])
      && (Truthy(user) ==> cmd[o] == "-l" && cmd[o + 1] == user.value)
      && (Truthy(port) ==> cmd[o + u] == "-p" && cmd[o + u + 1] == port.value)
      && cmd[o + u + p..o + u + p + |extra|] == extra
      && (Truthy(cmdline) ==> cmd[|cmd| - 1] == cmdline.value)
  {
    OptionArgsPairs(options);
    var cmd := CallCmd(host, port, user, cmdline, options, extra);
    var head := SshPrefix(host) + OptionArgs(options);
    assert cmd == head + FlagArgs("-l", user) + FlagArgs("-p", port) + extra
                  + (if Truthy(cmdline) then [cmdline.value] else []);
    forall i | 0 <= i < |options|
      ensures cmd[6 + 2 * i] == "-o" && cmd[7 + 2 * i] == options[i]
    {
      assert cmd[6 + 2 * i] == OptionArgs(options)[2 * i];
      assert cmd[7 + 2 * i] == OptionArgs(options)[2 * i + 1];
    }
  }

  /**
   * When no other argument is `-l`, the call command contains `-l` exactly when the user is
   * truthy; likewise `-p` and the port.
   */
  lemma CallCmdFlags(host: string, port: Option<string>, user: Option<string>, cmdline: Option<string>,
                     options: seq<string>, extra: seq<string>, flag: string)
    requires flag == "-l" || flag == "-p"
    requires flag != host && flag !in options && flag !in extra
    requires Truthy(cmdline) ==> cmdline.value != flag
    requires flag == "-l" && Truthy(port) ==> port.value != flag
    requires flag == "-p" && Truthy(user) ==> user.value != flag
    ensures flag in CallCmd(host, port, user, cmdline, options, extra)
        <==> Truthy(if flag == "-l" then user else port)
  {
    OptionArgsMembers(options, flag);
    assert flag !in SshPrefix(host);
  }

  /** A remote target always holds the `:` that separates the host from the path. */
  lemma RemoteTargetHasColon(user: Option<string>, host: string, path: string)
    ensures ':' in RemoteTarget(user, host, path)
  {
    var t := RemoteTarget(user, host, path);
    if Truthy(user) {
      assert t[|user.value| + 1 + |host|] == ':';
    } else {
      assert t[|host|] == ':';
    }
  }

  /**
   * The head of an `scp` command: `scp -qC`, one `-o opt` pair per option in order, then
   * `-P port`, `-r` and the extra arguments, which end it.
   */
  lemma ScpHeadLayout(port: Option<string>, a: ScpArgs)
    ensures var head := ScpHead(port, a);
      && |head| >= 2 + 2 * |a.options| + |a.extra|
      && head[..2] == ["scp", "-qC"]
      && (forall i :: 0 <= i < |a.options| ==> head[2 + 2 * i] == "-o" && head[3 + 2 * i] == a.options[i])
      && head[|head| - |a.extra|..] == a.extra
  {
    OptionArgsPairs(a.options);
    var opts := OptionArgs(a.options);
    var head := ScpHead(port, a);
    var front := ["scp", "-qC"] + opts;
    assert head == front + (FlagArgs("-P", port) + (if a.recursive then ["-r"] else [])) + a.extra;
    forall i | 0 <= i < |a.options|
      ensures head[2 + 2 * i] == "-o" && head[3 + 2 * i] == a.options[i]
    {
      assert head[2 + 2 * i] == front[2 + 2 * i] == opts[2 * i];
      assert head[3 + 2 * i] == front[3 + 2 * i] == opts[2 * i + 1];
    }
  }

  /**
   * When no option, extra argument, port or trailing argument is `-r` or `-P`, an `scp`
   * command line contains `-r` exactly when `recursive` is set and `-P` exactly when the
   * port is truthy.
   */
  lemma ScpFlags(port: Option<string>, a: ScpArgs, tail: seq<string>)
    requires "-r" !in a.options && "-r" !in a.extra && "-r" !in tail
    requires "-P" !in a.options && "-P" !in a.extra && "-P" !in tail
    requires Truthy(port) ==> port.value != "-r"
    ensures ("-r" in ScpHead(port, a) + tail) <==> a.recursive
    ensures ("-P" in ScpHead(port, a) + tail) <==> Truthy(port)
  {
    OptionArgsMembers(a.options, "-r");
    OptionArgsMembers(a.options, "-P");
  }

  /**
   * A copy command line starts with `scp -qC`, ends with the source arguments in order and
   * then the one remote `[user@]host:dst` target; `-r` and `-P` follow `recursive` and the port.
   */
  lemma CopyCmdLayout(host: string, port: Option<string>, user: Option<string>, src: SrcArg, dst: string,
                      a: ScpArgs)
    ensures var cmd := CopyArgs(host, port, user, src, dst, a);
      var e := Extended(src);
      && |cmd| >= 3 + |e|
      && cmd[..2] == ["scp", "-qC"]
      && cmd[|cmd| - 1 - |e|..|cmd| - 1] == e
      && cmd[|cmd| - 1] == RemoteTarget(user, host, dst)
  {
    var cmd := CopyArgs(host, port, user, src, dst, a);
    var head := ScpHead(port, a);
    assert cmd == head + Extended(src) + [RemoteTarget(user, host, dst)];
    assert head[..2] == ["scp", "-qC"];
  }

  lemma CopyCmdFlags(host: string, port: Option<string>, user: Option<string>, src: SrcArg, dst: string,
                     a: ScpArgs)
    requires "-r" !in a.options && "-r" !in a.extra && "-r" !in Extended(src)
    requires "-P" !in a.options && "-P" !in a.extra && "-P" !in Extended(src)
    requires Truthy(port) ==> port.value != "-r"
    ensures ("-r" in CopyArgs(host, port, user, src, dst, a)) <==> a.recursive
    ensures ("-P" in CopyArgs(host, port, user, src, dst, a)) <==> Truthy(port)
  {
    RemoteTargetHasColon(user, host, dst);
    var tail := Extended(src) + [RemoteTarget(user, host, dst)];
    assert CopyArgs(host, port, user, src, dst, a) == ScpHead(port, a) + tail;
    ScpFlags(port, a, tail);
  }

  /** A slurp command line starts with `scp -qC` and ends with the remote `[user@]host:src` and then the local `dst`. */
  lemma SlurpCmdLayout(host: string, port: Option<string>, user: Option<string>, src: string, dst: string,
                       a: ScpArgs)
    ensures var cmd := SlurpArgs(host, port, user, src, dst, a);
      && |cmd| >= 4
      && cmd[..2] == ["scp", "-qC"]
      && cmd[|cmd| - 2] == RemoteTarget(user, host, src)
      && cmd[|cmd| - 1] == dst
  {
    assert ScpHead(port, a)[..2] == ["scp", "-qC"];
  }

  lemma SlurpCmdFlags(host: string, port: Option<string>, user: Option<string>, src: string, dst: string,
                      a: ScpArgs)
    requires "-r" !in a.options && "-r" !in a.extra && dst != "-r"
    requires "-P" !in a.options && "-P" !in a.extra && dst != "-P"
    requires Truthy(port) ==> port.value != "-r"
    ensures ("-r" in SlurpArgs(host, port, user, src, dst, a)) <==> a.recursive
    ensures ("-P" in SlurpArgs(host, port, user, src, dst, a)) <==> Truthy(port)
  {
    RemoteTargetHasColon(user, host, src);
    ScpFlags(port, a, [RemoteTarget(user, host, src), dst]);
  }

  /**
   * The remote target is the `[user@]host[:port]` notation of the host list, with the path
   * in the port's place: `parse_host` reads the user, the host and the path back.
   */
  lemma RemoteTargetParses(user: Option<string>, host: string, path: string,
                           defaultUser: Option<string>, defaultPort: Option<string>)
    requires Truthy(user) ==> '@' !in user.value
    requires !Truthy(user) ==> '@' !in host && '@' !in path
    requires ':' !in path
    ensures ParseHost(RemoteTarget(user, host, path), defaultUser, defaultPort)
         == HostTriple(host, Some(path), if Truthy(user) then user else defaultUser)
  {
    var withUser := Truthy(user);
    var t := HostTriple(host, Some(path), user);
    var entry := RemoteTarget(user, host, path);
    if withUser {
      assert entry == user.value + "@" + (host + ":" + path);
    } else {
      assert entry == host + ":" + path;
    }
    assert entry == Unparse(t, withUser, true);
    ParseUnparse(t, withUser, true, defaultUser, defaultPort);
  }

  /** A host's slurp path lies in the directory `_slurp_make_local_dirs` makes for that host. */
  lemma LocalPathInHostDir(localdir: Option<string>, host: string, dst: string)
    ensures LocalPath(localdir, host, dst) == SlurpLocalDir(localdir, host) + "/" + dst
  {
  }

  /** The intended source arguments of a copy keep a single path whole, where `extend` splits it. */
  lemma ExtendSplitsPath(s: string)
    requires |s| >= 2
    ensures Extended(Path(s)) != SourceArgs(Path(s))
    ensures |Extended(Path(s))| == |s|
  {
    assert |Extended(Path(s))| != |SourceArgs(Path(s))|;
  }

  /** What `extend` adds for a path is its characters, one argument each, which join back to the path. */
  lemma {:induction false} ExtendedJoin(s: string)
    ensures var e := Extended(Path(s));
      Join("", e) == s && forall i :: 0 <= i < |e| ==> |e[i]| == 1
    decreases |s|
  {
    if |s| == 1 {
      assert Extended(Path(s)) == [[s[0]]];
    } else if |s| >= 2 {
      var t := s[1..];
      ExtendedJoin(t);
      ExtendedCons(s);
      JoinCons("", [s[0]], Extended(Path(t)));
      assert s == [s[0]] + t;
    }
  }

  /** The arguments `extend` adds for a path: its first character, then those of the rest. */
  lemma ExtendedCons(s: string)
    requires s != []
    ensures Extended(Path(s)) == [[s[0]]] + Extended(Path(s[1..]))
  {
    var e := Extended(Path(s));
    var joined := [[s[0]]] + Extended(Path(s[1..]));
    forall i | 0 <= i < |e|
      ensures e[i] == joined[i]
    {
      if i > 0 {
        assert Extended(Path(s[1..]))[i - 1] == [s[1..][i - 1]];
      }
    }
  }

  // ---------------------------------------------------------------------------
  // Lemmas: results

  /** The result map has exactly the hosts of the finished tasks as keys. */
  lemma {:induction false} ResultsKeys(tasks: seq<FinishedTask>, outdir: Option<string>, errdir: Option<string>)
    ensures forall h :: h in Results(tasks, outdir, errdir) <==> exists i :: 0 <= i < |tasks| && tasks[i].host == h
    decreases |tasks|
  {
    if tasks != [] {
      var init := tasks[..|tasks| - 1];
      var last := tasks[|tasks| - 1];
      ResultsKeys(init, outdir, errdir);
      forall h
        ensures h in Results(tasks, outdir, errdir) <==> exists i :: 0 <= i < |tasks| && tasks[i].host == h
      {
        if h in Results(tasks, outdir, errdir) && h != last.host {
          assert h in Results(init, outdir, errdir);
          var i :| 0 <= i < |init| && init[i].host == h;
          assert tasks[i].host == h;
        }
        if exists i :: 0 <= i < |tasks| && tasks[i].host == h {
          var i :| 0 <= i < |tasks| && tasks[i].host == h;
          if i < |init| {
            assert init[i].host == h;
          }
        }
      }
    }
  }

  /** For a host that several tasks share, the last of them decides its entry. */
  lemma {:induction false} ResultsLastWins(tasks: seq<FinishedTask>, i: nat, outdir: Option<string>, errdir: Option<string>)
    requires i < |tasks|
    requires forall j :: i < j < |tasks| ==> tasks[j].host != tasks[i].host
    ensures tasks[i].host in Results(tasks, outdir, errdir)
    ensures Results(tasks, outdir, errdir)[tasks[i].host] == OutcomeOf(tasks[i], outdir, errdir)
    decreases |tasks|
  {
    if i < |tasks| - 1 {
      var init := tasks[..|tasks| - 1];
      assert init[i] == tasks[i];
      ResultsLastWins(init, i, outdir, errdir);
    }
  }

  /** A failed task's entry is an `Error` whose message names every failure. */
  lemma ErrorNamesFailures(task: FinishedTask, outdir: Option<string>, errdir: Option<string>)
    requires task.failures != []
    ensures OutcomeOf(task, outdir, errdir).Error?
    ensures forall k :: 0 <= k < |task.failures| ==> Contains(OutcomeOf(task, outdir, errdir).msg, task.failures[k])
  {
    forall k | 0 <= k < |task.failures|
      ensures Contains(Join(", ", task.failures), task.failures[k])
    {
      JoinContainsPart(", ", task.failures, k);
    }
  }
}
