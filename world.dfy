/** The machine the image-preparation code drives: every external command goes through
    `run_command`, which returns the tool's (stdout, stderr) and never raises. */
module Machine {
  import opened Text

  /** An argument vector handed to `run_command`. */
  type Cmd = seq<string>

  /** What `run_command` returns: (stdout, stderr). A command that fails to start
      gives (None, None) in the source; here it is ("", ""). */
  datatype Reply = Reply(out: string, err: string)

  /** Text files of the host, including those under a mounted guest: path to lines. */
  type FileSystem = map<string, seq<string>>

  /** The parts of the outside world the model cannot see, given as oracles:
      the reply of a tool given every command issued before it, the matches of a
      shell glob, and the regular-expression tests of the stream editor. */
  datatype Env = Env(
    respond: (seq<Cmd>, Cmd) -> Reply,
    glob: (FileSystem, string) -> seq<string>,
    matches: (string, string) -> bool,
    subst: (string, string, string) -> string)

  /** The observable state: the commands issued so far, in order, and the files. */
  datatype World = World(log: seq<Cmd>, fs: FileSystem)

  /** `run_command(cmd, dry_run=dry)`: a dry run returns ('', '') and issues nothing. */
  function Run(env: Env, w: World, cmd: Cmd, dry: bool): (res: (Reply, World))
    ensures dry ==> res == (Reply("", ""), w)
    ensures !dry ==> res.1 == w.(log := w.log + [cmd]) && res.0 == env.respond(w.log, cmd)
  {
    if dry then (Reply("", ""), w) else (env.respond(w.log, cmd), w.(log := w.log + [cmd]))
  }

  /** Issues commands whose replies the caller ignores. */
  function Issue(w: World, cmds: seq<Cmd>, dry: bool): World {
    if dry then w else w.(log := w.log + cmds)
  }

  /** An in-place edit by an external tool: the command is issued and the file
      takes its new contents. */
  function Edit(w: World, cmd: Cmd, path: string, lines: seq<string>, dry: bool): World {
    if dry then w else World(w.log + [cmd], w.fs[path := lines])
  }

  /** Python's `os.path.join(a, b)`: an absolute `b` discards `a`. */
  function PathJoin(a: string, b: string): string {
    if |b| > 0 && b[0] == '/' then b
    else if a == "" || a[|a| - 1] == '/' then a + b
    else a + "/" + b
  }

  /** Index of the last `c` in `s`, or -1 (Python's `str.rfind`). */
  function LastIndex(s: string, c: char): (r: int)
    ensures -1 <= r < |s|
    ensures r >= 0 ==> s[r] == c
    ensures forall k :: r < k < |s| ==> s[k] != c
  {
    if s == [] then -1
    else if s[|s| - 1] == c then |s| - 1
    else LastIndex(s[..|s| - 1], c)
  }

  /** Python's `os.path.splitext(p)`: the extension runs from the last '.' of the
      last path component, unless that component is only dots up to it. */
  function SplitExt(p: string): (r: (string, string))
    ensures r.0 + r.1 == p
    ensures r.1 == "" || (r.1[0] == '.' && forall k :: 0 < k < |r.1| ==> r.1[k] != '.' && r.1[k] != '/')
  {
    var sep := LastIndex(p, '/');
    var dot := LastIndex(p, '.');
    if dot > sep && exists k | sep + 1 <= k < dot :: p[k] != '.' then
      assert p[..dot] + p[dot..] == p;
      (p[..dot], p[dot..])
    else (p, "")
  }

  /** `_check_mount_path`: drops one leading '/', leaves "" unchanged. */
  function CheckMountPath(p: string): (r: string)
    ensures p == [] || p[0] != '/' ==> r == p
    ensures p != [] && p[0] == '/' ==> "/" + r == p
  {
    if p == "" then p
    else if p[0] == '/' then p[1..]
    else p
  }

  /** `r` names the mount root itself or something below it, read lexically:
      ".." components are not resolved. */
  predicate Under(r: string, root: string) {
    root != [] && StartsWith(r, root) && (root[|root| - 1] == '/' || |r| == |root| || r[|root|] == '/')
  }

  /** The path a batch helper edits for a rule path: `os.path.join(mount_point,
      _check_mount_path(path))` lies lexically under the mount root unless the rule path starts
      with two slashes. */
  lemma GuestPathUnderRoot(root: string, p: string)
    requires root != ""
    requires !StartsWith(p, "//")
    ensures Under(PathJoin(root, CheckMountPath(p)), root)
  {
    if |p| >= 2 {
      assert p[..2] == [p[0], p[1]];
    }
  }

  /** A rule path with two leading slashes escapes the guest: "//etc/shadow" under
      "/mnt" resolves to the host's own "/etc/shadow". */
  lemma DoubleSlashEscapesRoot()
    ensures CheckMountPath("//etc/shadow") == "/etc/shadow"
    ensures PathJoin("/mnt", CheckMountPath("//etc/shadow")) == "/etc/shadow"
    ensures !Under(PathJoin("/mnt", CheckMountPath("//etc/shadow")), "/mnt")
  {
    assert "//etc/shadow"[1..] == "/etc/shadow";
    var r := PathJoin("/mnt", CheckMountPath("//etc/shadow"));
    assert r[..4][1] == 'e';
  }
}
