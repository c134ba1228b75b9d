/**
 * Host-list parsing (psshlib/psshutil.py): `[user@]host[:port]` entries, the legacy
 * `host[:port] [user]` host-file lines, host files and host strings, and the node list
 * printed by `crm_node -l`.
 */
module PsshUtil {
  import opened Wrappers
  import opened Text

  /** A (host, port, user) triple; None is Python's None. */
  datatype HostTriple = HostTriple(host: string, port: Option<string>, user: Option<string>)

  /** What `parse_host_entry` gives back. */
  datatype EntryResult =
    | Parsed(triple: HostTriple)
    | Rejected   // the (None, None, None) triple returned for a bad line
    | NoFields   // `fields[0]` raises IndexError: the line has no fields

  /** `host.split('@', 1)` when the entry has an `@`: the user, and the rest. */
  function SplitUser(entry: string, defaultUser: Option<string>): (r: (Option<string>, string))
    ensures '@' !in entry ==> r == (defaultUser, entry)
    ensures '@' in entry ==> r.0.Some? && '@' !in r.0.value && entry == r.0.value + "@" + r.1
  {
    if '@' in entry then
      var i := FirstIndex(entry, '@');
      assert entry == entry[..i] + "@" + entry[i + 1..];
      (Some(entry[..i]), entry[i + 1..])
    else (defaultUser, entry)
  }

  /** `host.rsplit(':', 1)` when the rest has a `:`: the host, and the port. */
  function SplitPort(rest: string, defaultPort: Option<string>): (r: (string, Option<string>))
    ensures ':' !in rest ==> r == (rest, defaultPort)
    ensures ':' in rest ==> r.1.Some? && ':' !in r.1.value && rest == r.0 + ":" + r.1.value
  {
    if ':' in rest then
      var j := LastIndex(rest, ':');
      assert rest == rest[..j] + ":" + rest[j + 1..];
      (rest[..j], Some(rest[j + 1..]))
    else (rest, defaultPort)
  }

  /** The part of an entry after its `user@` prefix: where `parse_host` looks for the port. */
  function AfterUser(entry: string): string {
    SplitUser(entry, None).1
  }

  /** The `[user@]host[:port]` text of a triple; the flags say whether user and port are written. */
  function Unparse(t: HostTriple, withUser: bool, withPort: bool): string
    requires withUser ==> t.user.Some?
    requires withPort ==> t.port.Some?
  {
    (if withUser then t.user.value + "@" else "") + (t.host + (if withPort then ":" + t.port.value else ""))
  }

  /**
   * `parse_host`: the user is cut at the FIRST `@` and the port at the LAST `:` of what
   * follows it; a missing part takes its default. Nothing of the entry is lost.
   */
  function ParseHost(entry: string, defaultUser: Option<string>, defaultPort: Option<string>): HostTriple
  {
    var u := SplitUser(entry, defaultUser);
    var p := SplitPort(u.1, defaultPort);
    HostTriple(p.0, p.1, u.0)
  }

  /**
   * `parse_host_entry`: a one-field line is parsed as `[user@]host[:port]`; a two-field line
   * takes its user from the second field unless the first already names one; a line with
   * more than two fields is rejected.
   */
  function ParseHostEntry(line: string, defaultUser: Option<string>, defaultPort: Option<string>): EntryResult
  {
    var fields := SplitWhitespace(line);
    if |fields| > 2 then Rejected
    else if |fields| == 0 then NoFields
    else
      var t := ParseHost(fields[0], None, defaultPort);
      if |fields| == 2 && t.user.Some? then Rejected
      else
        var user := if |fields| == 2 then Some(fields[1]) else t.user;
        Parsed(t.(user := if user.None? then defaultUser else user))
  }

  /** The hosts one line of a host file contributes: none for blank, `#`, bad or host-less lines. */
  function HostsOfLine(line: string, defaultUser: Option<string>, defaultPort: Option<string>): seq<HostTriple>
  {
    var l := Strip(line);
    if l == [] || l[0] == '#' then []
    else
      match ParseHostEntry(l, defaultUser, defaultPort)
      case Parsed(t) => if t.host != [] then [t] else []
      case _ => []
  }

  /** The hosts of a file, line by line in file order. */
  function HostsOfLines(lines: seq<string>, defaultUser: Option<string>, defaultPort: Option<string>): seq<HostTriple>
  {
    if lines == [] then []
    else HostsOfLines(lines[..|lines| - 1], defaultUser, defaultPort) + HostsOfLine(lines[|lines| - 1], defaultUser, defaultPort)
  }

  /** The hosts of several files, file after file. */
  function HostsOfFiles(files: seq<seq<string>>, defaultUser: Option<string>, defaultPort: Option<string>): seq<HostTriple>
  {
    if files == [] then []
    else HostsOfFiles(files[..|files| - 1], defaultUser, defaultPort) + HostsOfLines(files[|files| - 1], defaultUser, defaultPort)
  }

  /**
   * `read_host_file` on the lines the file yields (opening and reading the file is not
   * modelled): both of its loops, the stripping one and the filtering one.
   */
  method ReadHostFile(fileLines: seq<string>, defaultUser: Option<string>, defaultPort: Option<string>)
    returns (hosts: seq<HostTriple>)
    ensures hosts == HostsOfLines(fileLines, defaultUser, defaultPort)
  {
    var lines: seq<string> := [];
    for i := 0 to |fileLines|
      invariant |lines| == i
      invariant forall j :: 0 <= j < i ==> lines[j] == Strip(fileLines[j])
    {
      lines := lines + [Strip(fileLines[i])];
    }
    hosts := [];
    for i := 0 to |lines|
      invariant hosts == HostsOfLines(fileLines[..i], defaultUser, defaultPort)
    {
      HostsOfLinesLast(fileLines[..i + 1], defaultUser, defaultPort);
      assert fileLines[..i + 1][..i] == fileLines[..i];
      var line := Strip(lines[i]);
      StripIdempotent(fileLines[i]);
      if line == [] || line[0] == '#' {
        continue;
      }
      StripEnds(fileLines[i]);
      StrippedLineParses(line, defaultUser, defaultPort);
      var r := ParseHostEntry(line, defaultUser, defaultPort);
      assert !r.NoFields?;  // `fields[0]` cannot fail on a stripped, non-empty line
      if r.Parsed? && r.triple.host != [] {
        hosts := hosts + [r.triple];
      }
    }
    assert fileLines[..|lines|] == fileLines;
  }

  /**
   * `read_host_files` as written: every file is read in order, but `default_port` is not
   * passed on, so each file is read with no default port.
   */
  method ReadHostFiles(files: seq<seq<string>>, defaultUser: Option<string>, defaultPort: Option<string>)
    returns (hosts: seq<HostTriple>)
    ensures hosts == HostsOfFiles(files, defaultUser, None)
  {
    hosts := [];
    for i := 0 to |files|
      invariant hosts == HostsOfFiles(files[..i], defaultUser, None)
    {
      assert files[..i + 1][..i] == files[..i];
      var more := ReadHostFile(files[i], defaultUser, None);
      hosts := hosts + more;
    }
    assert files[..|files|] == files;
  }

  /** `read_host_files` with `default_port` passed on to every file, as its signature intends. */
  method ReadHostFilesWithPort(files: seq<seq<string>>, defaultUser: Option<string>, defaultPort: Option<string>)
    returns (hosts: seq<HostTriple>)
    ensures hosts == HostsOfFiles(files, defaultUser, defaultPort)
  {
    hosts := [];
    for i := 0 to |files|
      invariant hosts == HostsOfFiles(files[..i], defaultUser, defaultPort)
    {
      assert files[..i + 1][..i] == files[..i];
      var more := ReadHostFile(files[i], defaultUser, defaultPort);
      hosts := hosts + more;
    }
    assert files[..|files|] == files;
  }

  /** `parse_host_string`: one triple per whitespace-separated entry, in order. */
  method ParseHostString(hostString: string, defaultUser: Option<string>, defaultPort: Option<string>)
    returns (hosts: seq<HostTriple>)
    ensures |hosts| == |SplitWhitespace(hostString)|
    ensures forall i :: 0 <= i < |hosts| ==>
      hosts[i] == ParseHost(SplitWhitespace(hostString)[i], defaultUser, defaultPort)
  {
    hosts := [];
    var entries := SplitWhitespace(hostString);
    for i := 0 to |entries|
      invariant |hosts| == i
      invariant forall j :: 0 <= j < i ==> hosts[j] == ParseHost(entries[j], defaultUser, defaultPort)
    {
      hosts := hosts + [ParseHost(entries[i], defaultUser, defaultPort)];
    }
  }

  /** How running `crm_node -l` went (the subprocess calls themselves are not modelled). */
  datatype CrmNodeRun =
    | NotInstalled                     // `which crm_node` did not exit with 0
    | ReadFailed                       // `communicate` raised IOError
    | Exited(rc: int, output: string)  // the return code and the captured output

  /** The node one line of `crm_node -l` output names: its second field, if it has one. */
  function NodesOfLine(line: string): seq<HostTriple>
  {
    var a := SplitWhitespace(line);
    if |a| < 2 then [] else [HostTriple(a[1], None, None)]
  }

  function NodesOfLines(lines: seq<string>): (r: seq<HostTriple>)
    ensures |r| <= |lines|
    ensures forall i :: 0 <= i < |r| ==> r[i].host != [] && NoSpace(r[i].host) && r[i].port == r[i].user == None
  {
    if lines == [] then [] else NodesOfLines(lines[..|lines| - 1]) + NodesOfLine(lines[|lines| - 1])
  }

  /** `get_pcmk_nodes`: nothing unless `crm_node -l` ran and exited with 0. */
  method GetPcmkNodes(run: CrmNodeRun) returns (hosts: seq<HostTriple>)
    ensures run.Exited? && run.rc == 0 ==> hosts == NodesOfLines(SplitOn(run.output, '\n'))
    ensures !(run.Exited? && run.rc == 0) ==> hosts == []
  {
    hosts := [];
    if !run.Exited? || run.rc != 0 {
      return;
    }
    var lines := SplitOn(run.output, '\n');
    for i := 0 to |lines|
      invariant hosts == NodesOfLines(lines[..i])
    {
      assert lines[..i + 1][..i] == lines[..i];
      var a := SplitWhitespace(lines[i]);
      if |a| < 2 {
        continue;
      }
      hosts := hosts + [HostTriple(a[1], None, None)];
    }
    assert lines[..|lines|] == lines;
  }

  // ---------------------------------------------------------------------------
  // Lemmas

  /**
   * `parse_host` cuts the user at the FIRST `@` and the port at the LAST `:` of what
   * follows it; a missing part takes its default; nothing of the entry is lost.
   */
  lemma ParseHostSplits(entry: string, defaultUser: Option<string>, defaultPort: Option<string>)
    ensures var r := ParseHost(entry, defaultUser, defaultPort);
      && ('@' !in entry ==> r.user == defaultUser)
      && ('@' in entry ==> r.user.Some? && '@' !in r.user.value)
      && (':' !in AfterUser(entry) ==> r.port == defaultPort && ':' !in r.host)
      && (':' in AfterUser(entry) ==> r.port.Some? && ':' !in r.port.value)
      && entry == Unparse(r, '@' in entry, ':' in AfterUser(entry))
  {
    var u := SplitUser(entry, defaultUser);
    var rest := AfterUser(entry);
    assert u.1 == rest;
    var p := SplitPort(rest, defaultPort);
    var r := HostTriple(p.0, p.1, u.0);
    assert ParseHost(entry, defaultUser, defaultPort) == r;
    var withUser := '@' in entry;
    var withPort := ':' in rest;
    var hostPort := r.host + (if withPort then ":" + r.port.value else "");
    assert rest == hostPort;
    if withUser {
      assert entry == r.user.value + "@" + hostPort;
    } else {
      assert entry == hostPort;
    }
  }

  /**
   * `parse_host_entry` agrees with `parse_host` on one-field lines; a two-field line takes
   * its user from the second field unless the first names one, and a line with more than
   * two fields is rejected.
   */
  lemma ParseHostEntryCases(line: string, defaultUser: Option<string>, defaultPort: Option<string>)
    ensures var fields := SplitWhitespace(line);
      var r := ParseHostEntry(line, defaultUser, defaultPort);
      && (|fields| == 0 ==> r == NoFields)
      && (|fields| == 1 ==> r == Parsed(ParseHost(fields[0], defaultUser, defaultPort)))
      && (|fields| == 2 ==> r == if '@' in fields[0] then Rejected
                                 else Parsed(ParseHost(fields[0], Some(fields[1]), defaultPort)))
      && (|fields| > 2 ==> r == Rejected)
  {
  }

  /**
   * `parse_host` inverts `Unparse`: when the user has no `@` and the port no `:`, (and
   * without a user the text has no `@` at all), the parts come back, whatever the host.
   */
  lemma ParseUnparse(t: HostTriple, withUser: bool, withPort: bool, defaultUser: Option<string>, defaultPort: Option<string>)
    requires withUser ==> t.user.Some? && '@' !in t.user.value
    requires withPort ==> t.port.Some? && ':' !in t.port.value
    requires !withUser ==> '@' !in t.host && (withPort ==> '@' !in t.port.value)
    requires !withPort ==> ':' !in t.host
    ensures ParseHost(Unparse(t, withUser, withPort), defaultUser, defaultPort)
         == HostTriple(t.host, if withPort then t.port else defaultPort, if withUser then t.user else defaultUser)
  {
    var hostPort := t.host + (if withPort then ":" + t.port.value else "");
    var entry := Unparse(t, withUser, withPort);
    if withUser {
      assert entry == t.user.value + ['@'] + hostPort;
      FirstIndexAfter(t.user.value, '@', hostPort);
      assert entry[..|t.user.value|] == t.user.value;
      assert AfterUser(entry) == hostPort;
    } else {
      assert entry == hostPort;
      assert '@' !in hostPort;
    }
    assert AfterUser(entry) == hostPort;
    if withPort {
      assert hostPort == t.host + [':'] + t.port.value;
      LastIndexBefore(t.host, ':', t.port.value);
      assert hostPort[..|t.host|] == t.host;
      assert hostPort[|t.host| + 1..] == t.port.value;
    } else {
      assert ':' !in hostPort;
    }
  }

  /** `u@h:p` parses to (h, p, u) whatever the host `h`. */
  lemma ParseHostRoundTrip(u: string, h: string, p: string, defaultUser: Option<string>, defaultPort: Option<string>)
    requires '@' !in u && ':' !in p
    ensures ParseHost(u + "@" + h + ":" + p, defaultUser, defaultPort) == HostTriple(h, Some(p), Some(u))
  {
    assert u + "@" + h + ":" + p == Unparse(HostTriple(h, Some(p), Some(u)), true, true);
    ParseUnparse(HostTriple(h, Some(p), Some(u)), true, true, defaultUser, defaultPort);
  }

  lemma TwoFields(a: string, b: string)
    requires a != [] && NoSpace(a) && b != [] && NoSpace(b)
    ensures SplitWhitespace(a + " " + b) == [a, b]
  {
    assert Join(" ", [a, b]) == a + " " + b;
    SplitWhitespaceJoin([a, b]);
  }

  /** The legacy line `host[:port] user` names the same triple as the entry `user@host[:port]`. */
  lemma LegacyUserField(hostPort: string, user: string, defaultUser: Option<string>, defaultPort: Option<string>)
    requires hostPort != [] && NoSpace(hostPort) && '@' !in hostPort
    requires user != [] && NoSpace(user) && '@' !in user
    ensures ParseHostEntry(hostPort + " " + user, defaultUser, defaultPort)
         == ParseHostEntry(user + "@" + hostPort, defaultUser, defaultPort)
  {
    TwoFields(hostPort, user);
    var modern := user + "@" + hostPort;
    assert modern == user + ['@'] + hostPort;
    FirstIndexAfter(user, '@', hostPort);
    assert modern[..|user|] == user;
    assert modern[|user| + 1..] == hostPort;
    assert NoSpace(modern);
    SplitWhitespaceWord(modern);
  }

  /** The last line of a file adds its own hosts after those of the lines before it. */
  lemma HostsOfLinesLast(lines: seq<string>, defaultUser: Option<string>, defaultPort: Option<string>)
    requires lines != []
    ensures HostsOfLines(lines, defaultUser, defaultPort)
         == HostsOfLines(lines[..|lines| - 1], defaultUser, defaultPort) + HostsOfLine(lines[|lines| - 1], defaultUser, defaultPort)
  {
  }

  /** A stripped, non-empty line has at least one field, so `fields[0]` never fails on it. */
  lemma StrippedLineParses(line: string, defaultUser: Option<string>, defaultPort: Option<string>)
    requires line != [] && !IsSpace(line[0])
    ensures !ParseHostEntry(line, defaultUser, defaultPort).NoFields?
  {
    assert |SplitWhitespace(line)| >= 1;
  }

  /** Every host `read_host_file` keeps is non-empty: a host-less entry is dropped (`if host:`). */
  lemma {:induction false} HostsOfLinesHaveHosts(lines: seq<string>, defaultUser: Option<string>, defaultPort: Option<string>)
    ensures var r := HostsOfLines(lines, defaultUser, defaultPort);
      |r| <= |lines| && forall i :: 0 <= i < |r| ==> r[i].host != []
    decreases |lines|
  {
    if lines != [] {
      HostsOfLinesHaveHosts(lines[..|lines| - 1], defaultUser, defaultPort);
    }
  }

  /** The hosts of two pieces of a file are the hosts of each, in order. */
  lemma {:induction false} HostsOfLinesAppend(a: seq<string>, b: seq<string>, defaultUser: Option<string>, defaultPort: Option<string>)
    ensures HostsOfLines(a + b, defaultUser, defaultPort)
         == HostsOfLines(a, defaultUser, defaultPort) + HostsOfLines(b, defaultUser, defaultPort)
    decreases |b|
  {
    if b == [] {
      assert a + b == a;
    } else {
      var b' := b[..|b| - 1];
      assert (a + b)[..|a + b| - 1] == a + b';
      assert (a + b)[|a + b| - 1] == b[|b| - 1];
      HostsOfLinesAppend(a, b', defaultUser, defaultPort);
    }
  }

  /** A blank or `#` line anywhere in a host file changes nothing. */
  lemma SkippedLineChangesNothing(a: seq<string>, line: string, b: seq<string>, defaultUser: Option<string>, defaultPort: Option<string>)
    requires Strip(line) == [] || Strip(line)[0] == '#'
    ensures HostsOfLines(a + [line] + b, defaultUser, defaultPort) == HostsOfLines(a + b, defaultUser, defaultPort)
  {
    assert HostsOfLine(line, defaultUser, defaultPort) == [];
    assert [line][..0] == [];
    assert HostsOfLines([line], defaultUser, defaultPort) == [];
    HostsOfLinesAppend(a + [line], b, defaultUser, defaultPort);
    HostsOfLinesAppend(a, [line], defaultUser, defaultPort);
    HostsOfLinesAppend(a, b, defaultUser, defaultPort);
  }

  /** A bare host name: one field, not a comment, no user and no port. */
  predicate PlainName(name: string) {
    name != [] && NoSpace(name) && name[0] != '#' && '@' !in name && ':' !in name
  }

  /** A line holding one plain host name yields that host with both defaults. */
  lemma PlainHostLine(name: string, defaultUser: Option<string>, defaultPort: Option<string>)
    requires PlainName(name)
    ensures HostsOfLines([name], defaultUser, defaultPort) == [HostTriple(name, defaultPort, defaultUser)]
  {
    StripOfStripped(name);
    SplitWhitespaceWord(name);
    ParseUnparse(HostTriple(name, None, None), false, false, defaultUser, defaultPort);
    assert HostsOfLines([name], defaultUser, defaultPort) == HostsOfLines([], defaultUser, defaultPort) + HostsOfLine(name, defaultUser, defaultPort);
  }

  /** As written, `read_host_files` gives a port-less entry no port even when a default port is given. */
  lemma ReadHostFilesIgnoresDefaultPort(name: string, defaultUser: Option<string>, defaultPort: Option<string>)
    requires PlainName(name)
    requires defaultPort.Some?
    ensures HostsOfFiles([[name]], defaultUser, None) == [HostTriple(name, None, defaultUser)]
    ensures HostsOfFiles([[name]], defaultUser, None) != HostsOfFiles([[name]], defaultUser, defaultPort)
  {
    PlainHostLine(name, defaultUser, None);
    PlainHostLine(name, defaultUser, defaultPort);
    assert [[name]][..0] == [];
    assert HostsOfFiles([[name]], defaultUser, None) == HostsOfLines([name], defaultUser, None);
    assert HostsOfFiles([[name]], defaultUser, defaultPort) == HostsOfLines([name], defaultUser, defaultPort);
  }

  /** With the port passed on, the plain entry of every one-line file gets both defaults. */
  lemma {:induction false} HostsOfFilesDefaults(files: seq<seq<string>>, defaultUser: Option<string>, defaultPort: Option<string>)
    requires forall k :: 0 <= k < |files| ==> |files[k]| == 1 && PlainName(files[k][0])
    ensures var r := HostsOfFiles(files, defaultUser, defaultPort);
      |r| == |files| && forall k :: 0 <= k < |files| ==> r[k] == HostTriple(files[k][0], defaultPort, defaultUser)
    decreases |files|
  {
    if files != [] {
      var init := files[..|files| - 1];
      var last := files[|files| - 1];
      assert forall k :: 0 <= k < |init| ==> init[k] == files[k];
      HostsOfFilesDefaults(init, defaultUser, defaultPort);
      assert last == [last[0]];
      PlainHostLine(last[0], defaultUser, defaultPort);
      var r0 := HostsOfFiles(init, defaultUser, defaultPort);
      var r := HostsOfFiles(files, defaultUser, defaultPort);
      assert r == r0 + [HostTriple(last[0], defaultPort, defaultUser)];
      forall k | 0 <= k < |files|
        ensures r[k] == HostTriple(files[k][0], defaultPort, defaultUser)
      {
        if k < |init| {
          assert r[k] == r0[k];
        }
      }
    }
  }

  /** Two outputs of `crm_node -l` joined by a newline list the nodes of each, in order. */
  lemma {:induction false} NodesOfLinesAppend(a: seq<string>, b: seq<string>)
    ensures NodesOfLines(a + b) == NodesOfLines(a) + NodesOfLines(b)
    decreases |b|
  {
    if b == [] {
      assert a + b == a;
    } else {
      var b' := b[..|b| - 1];
      assert (a + b)[..|a + b| - 1] == a + b';
      assert (a + b)[|a + b| - 1] == b[|b| - 1];
      NodesOfLinesAppend(a, b');
    }
  }

  lemma NodesOfOutputAppend(a: string, b: string)
    ensures NodesOfLines(SplitOn(a + "\n" + b, '\n')) == NodesOfLines(SplitOn(a, '\n')) + NodesOfLines(SplitOn(b, '\n'))
  {
    assert a + "\n" + b == a + ['\n'] + b;
    SplitOnAround(a, '\n', b);
    NodesOfLinesAppend(SplitOn(a, '\n'), SplitOn(b, '\n'));
  }

  /** A `crm_node -l` line of two or more words (`id name ...`) names its second word as the node. */
  lemma NodeOfCrmLine(words: seq<string>)
    requires |words| >= 2
    requires forall i :: 0 <= i < |words| ==> words[i] != [] && NoSpace(words[i])
    ensures NodesOfLine(Join(" ", words)) == [HostTriple(words[1], None, None)]
  {
    SplitWhitespaceJoin(words);
  }
}
