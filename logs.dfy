/**
 * Log access over the archive's tree: where a container's log lives, which
 * containers of a pod have logs, which nodes were gathered, and the two ways
 * of keeping only the last lines of a log.
 */
module Logs {
  import opened Wrappers
  import opened Text
  import opened Seqs
  import opened FileTree
  import opened Loader
  import opened Provider

  // ---------------------------------------------------------------- tails

  /**
   * `TailLines`: the last `n` "\n"-separated parts of the content, joined
   * back; the content itself when it has no more than `n` parts. A negative
   * `n` makes the Go slice expression panic.
   */
  function TailLines(content: string, n: int): (r: string)
    requires n >= 0
    ensures |Split(content, '\n')| <= n ==> r == content
  {
    var lines := Split(content, '\n');
    if |lines| <= n then content else Join(lines[|lines| - n..], "\n")
  }

  /** The tail is a suffix of the content. */
  lemma TailLinesSuffix(content: string, n: int)
    requires n >= 0
    ensures HasSuffix(content, TailLines(content, n))
  {
    var lines := Split(content, '\n');
    JoinSplit(content, '\n');
    if n < |lines| {
      if n == 0 {
        assert TailLines(content, n) == "";
      } else {
        var k := |lines| - n;
        JoinSplitAt(lines, k, "\n");
        assert content == Join(lines[..k], "\n") + "\n" + TailLines(content, n);
      }
    }
  }

  /** The tail consists of exactly the last `n` parts of the content, or all of them. */
  lemma TailLinesParts(content: string, n: int)
    requires n > 0
    ensures Split(TailLines(content, n), '\n') == LastN(Split(content, '\n'), n)
  {
    var lines := Split(content, '\n');
    if n < |lines| {
      var tail := lines[|lines| - n..];
      assert forall i :: 0 <= i < |tail| ==> '\n' !in tail[i] by {
        forall i | 0 <= i < |tail| ensures '\n' !in tail[i] {
          assert tail[i] == lines[|lines| - n + i];
        }
      }
      SplitJoin(tail, '\n');
    }
  }

  /** `bufio.ScanLines` drops one trailing carriage return from each line. */
  function DropCR(line: string): (r: string)
    ensures r == line || (HasSuffix(line, "\r") && r + "\r" == line)
  {
    if |line| > 0 && line[|line| - 1] == '\r' then line[..|line| - 1] else line
  }

  /**
   * The tokens `bufio.Scanner` yields with `ScanLines`: the "\n"-separated
   * lines without a final empty one, each with a trailing "\r" dropped.
   */
  function ScanLines(content: string): (tokens: seq<string>)
    ensures |tokens| <= |Split(content, '\n')|
    ensures forall i :: 0 <= i < |tokens| ==> tokens[i] == DropCR(Split(content, '\n')[i])
    ensures |tokens| == (if Split(content, '\n')[|Split(content, '\n')| - 1] == "" then |Split(content, '\n')| - 1
                         else |Split(content, '\n')|)
  {
    var parts := Split(content, '\n');
    var lines := if parts[|parts| - 1] == "" then parts[..|parts| - 1] else parts;
    seq(|lines|, i requires 0 <= i < |lines| => DropCR(lines[i]))
  }

  /**
   * The window loop of `tailLinesFromGzip` over the decompressed content: it
   * keeps at most `n` lines and ends holding the last `n` scanned lines.
   */
  method TailWindow(content: string, n: int) returns (r: string)
    ensures n == 0 ==> r == content
    ensures n != 0 ==> r == Join(LastN(ScanLines(content), n), "\n")
    ensures n < 0 ==> r == ""
  {
    if n == 0 {
      return content;
    }
    var lines := SlideWindow(ScanLines(content), n);
    r := Join(lines, "\n");
  }

  // ---------------------------------------------------------------- paths

  datatype PodLogOptions = PodLogOptions(namespace: string, pod: string, container: string, logType: string, tailLines: int)

  datatype LogError = LogNotFound(path: Path) | LogReadFailed(cause: FsError) | PodNotFound(namespace: string, pod: string) | DirReadFailed(cause: FsError)

  /** The pod directory: containerDir/namespaces/<ns>/pods/<pod>. */
  function PodDir(containerDir: Path, namespace: string, pod: string): (p: Path)
    ensures p == containerDir + ["namespaces", namespace, "pods", pod]
  {
    containerDir + ["namespaces", namespace, "pods", pod]
  }

  /** The container log path: the container's name appears twice, then "logs" and "<logType>.log". */
  function PodLogPath(containerDir: Path, opts: PodLogOptions): (p: Path)
    ensures |p| == |containerDir| + 8 && containerDir <= p
    ensures Base(p) == opts.logType + ".log"
    ensures p == PodDir(containerDir, opts.namespace, opts.pod) + [opts.container, opts.container, "logs", opts.logType + ".log"]
  {
    PodDir(containerDir, opts.namespace, opts.pod) + [opts.container, opts.container, "logs", opts.logType + ".log"]
  }

  /** `GetPodLog`: the container's log, cut to its last lines only when a positive tail is asked for. */
  method GetPodLog(p: Provider, opts: PodLogOptions) returns (r: Result<string, LogError>)
    ensures var path := PodLogPath(ContainerDir(p.root, p.path), opts);
            (Lookup(p.root, path).None? ==> r == Err(LogNotFound(path))) &&
            (Lookup(p.root, path).Some? && ReadFile(p.root, path).Err? ==> r == Err(LogReadFailed(ReadFile(p.root, path).error))) &&
            (ReadFile(p.root, path).Ok? ==>
               var text := ReadFile(p.root, path).value.text;
               r == Ok(if opts.tailLines > 0 then TailLines(text, opts.tailLines) else text))
  {
    var found := FindContainerDir(p.root, p.path);
    var containerDir := if found.Ok? then found.value else p.path;
    assert containerDir == ContainerDir(p.root, p.path);
    var logPath := PodLogPath(containerDir, opts);
    if Lookup(p.root, logPath).None? {
      return Err(LogNotFound(logPath));
    }
    var data := ReadFile(p.root, logPath);
    if data.Err? {
      return Err(LogReadFailed(data.error));
    }
    var content := data.value.text;
    if opts.tailLines > 0 {
      content := TailLines(content, opts.tailLines);
    }
    return Ok(content);
  }

  /** The names of the entries of `podDir` that are directories with a "<name>/<name>/logs" below them, in order. */
  function ContainersWithLogs(root: Node, podDir: Path, entries: seq<Node>): (cs: seq<string>)
    ensures |cs| <= |entries|
    ensures forall c :: c in cs <==>
              exists e :: e in entries && e.Dir? && e.name == c && Lookup(root, podDir + [c, c, "logs"]).Some?
  {
    if |entries| == 0 then []
    else
      var init := ContainersWithLogs(root, podDir, entries[..|entries| - 1]);
      var e := entries[|entries| - 1];
      assert entries == entries[..|entries| - 1] + [e];
      if e.Dir? && Lookup(root, podDir + [e.name, e.name, "logs"]).Some? then init + [e.name] else init
  }

  /** `ListPodContainers`: the pod's containers that have a logs directory. */
  method ListPodContainers(p: Provider, namespace: string, pod: string) returns (r: Result<seq<string>, LogError>)
    ensures var podDir := PodDir(ContainerDir(p.root, p.path), namespace, pod);
            (Lookup(p.root, podDir).None? ==> r == Err(PodNotFound(namespace, pod))) &&
            (Lookup(p.root, podDir).Some? && ReadDir(p.root, podDir).Err? ==> r == Err(DirReadFailed(ReadDir(p.root, podDir).error))) &&
            (ReadDir(p.root, podDir).Ok? ==> r == Ok(ContainersWithLogs(p.root, podDir, ReadDir(p.root, podDir).value)))
  {
    var found := FindContainerDir(p.root, p.path);
    var containerDir := if found.Ok? then found.value else p.path;
    assert containerDir == ContainerDir(p.root, p.path);
    var podDir := PodDir(containerDir, namespace, pod);
    if Lookup(p.root, podDir).None? {
      return Err(PodNotFound(namespace, pod));
    }
    var listing := ReadDir(p.root, podDir);
    if listing.Err? {
      return Err(DirReadFailed(listing.error));
    }
    var entries := listing.value;
    var containers: seq<string> := [];
    for i := 0 to |entries|
      invariant containers == ContainersWithLogs(p.root, podDir, entries[..i])
    {
      assert entries[..i + 1][..i] == entries[..i];
      var entry := entries[i];
      if entry.Dir? {
        var name := entry.name;
        if Lookup(p.root, podDir + [name, name, "logs"]).Some? {
          containers := containers + [name];
        }
      }
    }
    assert entries[..|entries|] == entries;
    return Ok(containers);
  }

  /** The names of the directory entries among `entries`, in order. */
  function SubdirNames(entries: seq<Node>): (names: seq<string>)
    ensures |names| <= |entries|
    ensures forall x :: x in names <==> x in DirNames(entries)
  {
    if |entries| == 0 then []
    else
      var init := SubdirNames(entries[..|entries| - 1]);
      var e := entries[|entries| - 1];
      assert entries == entries[..|entries| - 1] + [e];
      if e.Dir? then init + [e.name] else init
  }

  /** `ListNodes`: the sub-directories of "nodes", or none when it is absent. */
  method ListNodes(p: Provider) returns (r: Result<seq<string>, LogError>)
    ensures var nodesDir := ContainerDir(p.root, p.path) + ["nodes"];
            (Lookup(p.root, nodesDir).None? ==> r == Ok([])) &&
            (Lookup(p.root, nodesDir).Some? && ReadDir(p.root, nodesDir).Err? ==> r == Err(DirReadFailed(ReadDir(p.root, nodesDir).error))) &&
            (ReadDir(p.root, nodesDir).Ok? ==> r == Ok(SubdirNames(ReadDir(p.root, nodesDir).value)))
  {
    var found := FindContainerDir(p.root, p.path);
    var containerDir := if found.Ok? then found.value else p.path;
    assert containerDir == ContainerDir(p.root, p.path);
    var nodesDir := containerDir + ["nodes"];
    if Lookup(p.root, nodesDir).None? {
      return Ok([]);
    }
    var listing := ReadDir(p.root, nodesDir);
    if listing.Err? {
      return Err(DirReadFailed(listing.error));
    }
    var entries := listing.value;
    var nodes: seq<string> := [];
    for i := 0 to |entries|
      invariant nodes == SubdirNames(entries[..i])
    {
      assert entries[..i + 1][..i] == entries[..i];
      if entries[i].Dir? {
        nodes := nodes + [entries[i].name];
      }
    }
    assert entries[..|entries|] == entries;
    return Ok(nodes);
  }
}
