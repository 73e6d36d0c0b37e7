/** Attaching an image to the mount point: the mount-table scan of
    `check_mounted`, the filesystem probe `_get_parted_fs_type`, and the strategies
    `mount_qcow`, `mount_raw`, `mount_raw_with_offsets` and
    `_detect_and_mount_image`. */
module Mount {
  import opened Outcomes
  import opened Text
  import opened Machine
  import opened Fdisk
  import opened Devices

  // ---------------------------------------------------------------------------
  // check_mounted

  /** A character of the `[\w/]` class. */
  predicate IsDeviceChar(c: char) { IsWordChar(c) || c == '/' }

  /** The longest suffix of `t` made of device characters: the part of the first
      word the `device` group captures right before " on ". */
  function DeviceSuffix(t: string): (r: string)
    ensures |r| <= |t| && r == t[|t| - |r|..]
    ensures forall i :: 0 <= i < |r| ==> IsDeviceChar(r[i])
    ensures |r| < |t| ==> !IsDeviceChar(t[|t| - |r| - 1])
    decreases |t|
  {
    if t == [] || !IsDeviceChar(t[|t| - 1]) then []
    else DeviceSuffix(t[..|t| - 1]) + [t[|t| - 1]]
  }

  /** The last index below `hi`, and at least 2, of a "type" word, or -1: the greedy
      `.*` of the location runs to the last " type". */
  function LastType(t: seq<string>, hi: nat): (j: int)
    requires hi <= |t|
    ensures j == -1 || (2 <= j < hi && t[j] == "type")
    ensures forall k :: 2 <= k < hi && j < k ==> t[k] != "type"
    decreases hi
  {
    if hi <= 2 then -1
    else if t[hi - 1] == "type" then hi - 1
    else LastType(t, hi - 1)
  }

  /** One matched line of the `mount` listing. */
  datatype MountEntry = MountEntry(device: string, location: string)

  /** `(?P<device>[\w/]+) on (?P<location>.*) type` on one line, over its words. */
  function MountLine(line: string): (r: Option<MountEntry>)
    ensures r.Some? ==> r.value.device != "" && |Tokens(line)| >= 3 && Tokens(line)[1] == "on"
  {
    var t := Tokens(line);
    if |t| < 3 || t[1] != "on" then None
    else
      var d := DeviceSuffix(t[0]);
      var j := LastType(t, |t|);
      if d == "" || j < 2 then None
      else Some(MountEntry(d, Join(" ", t[2..j])))
  }

  /** The line is a mount of `mp`. */
  predicate MountedAt(line: string, mp: string) {
    MountLine(line).Some? && MountLine(line).value.location == mp
  }

  /** The device of the last line that mounts `mp`, scanning `lines` in order. */
  function DeviceAt(lines: seq<string>, mp: string): Option<string> {
    if lines == [] then None
    else if MountedAt(lines[|lines| - 1], mp) then Some(MountLine(lines[|lines| - 1]).value.device)
    else DeviceAt(lines[..|lines| - 1], mp)
  }

  /** The last line that mounts `mp` decides the device. */
  lemma {:induction false} LastMatchWins(lines: seq<string>, mp: string, i: nat)
    requires i < |lines| && MountedAt(lines[i], mp)
    requires forall k :: i < k < |lines| ==> !MountedAt(lines[k], mp)
    ensures DeviceAt(lines, mp) == Some(MountLine(lines[i]).value.device)
    decreases |lines|
  {
    if i < |lines| - 1 {
      var p := lines[..|lines| - 1];
      assert forall k :: i < k < |p| ==> p[k] == lines[k];
      LastMatchWins(p, mp, i);
    }
  }

  /** No device is found exactly when no line mounts `mp`. */
  lemma {:induction false} NoMatchNoDevice(lines: seq<string>, mp: string)
    ensures DeviceAt(lines, mp).None? <==> forall k :: 0 <= k < |lines| ==> !MountedAt(lines[k], mp)
    decreases |lines|
  {
    if lines != [] {
      var p := lines[..|lines| - 1];
      NoMatchNoDevice(p, mp);
      assert forall k :: 0 <= k < |p| ==> p[k] == lines[k];
    }
  }

  /** The mount point as `mount` prints it: one trailing '/' dropped. */
  function MountTarget(mp: string): (r: string)
    ensures EndsWith(mp, "/") ==> r + "/" == mp
    ensures !EndsWith(mp, "/") ==> r == mp
  {
    if mp != "" && EndsWith(mp, "/") then mp[..|mp| - 1] else mp
  }

  /** The reference of `check_mounted(mp)`. */
  function CheckMountedSpec(env: Env, w: World, mp: string): (Option<string>, World) {
    var (rep, w1) := Run(env, w, ["mount"], false);
    (DeviceAt(SplitStr(rep.out, "\n"), MountTarget(mp)), w1)
  }

  /** `check_mounted(mp)`: scans every line of `mount`, keeping the device of each
      line whose location is the mount point. */
  method CheckMounted(env: Env, w: World, mp: string) returns (dev: Option<string>, w': World)
    ensures (dev, w') == CheckMountedSpec(env, w, mp)
    ensures w' == w.(log := w.log + [["mount"]])
  {
    var target := mp;
    if target != "" && EndsWith(target, "/") {
      target := target[..|target| - 1];
    }
    var res := Run(env, w, ["mount"], false);
    w' := res.1;
    var lines := SplitStr(res.0.out, "\n");
    dev := None;
    var i := 0;
    while i < |lines|
      invariant 0 <= i <= |lines|
      invariant dev == DeviceAt(lines[..i], target)
    {
      var e := MountLine(lines[i]);
      if e.Some? && e.value.location == target {
        dev := Some(e.value.device);
      }
      assert lines[..i + 1][..i] == lines[..i];
      i := i + 1;
    }
    assert lines[..i] == lines;
  }

  // ---------------------------------------------------------------------------
  // _get_parted_fs_type

  function PartedCmd(path: string): Cmd { ["parted", "-sm", path, "print"] }

  /** `_get_parted_fs_type(path)`: nothing for an empty listing, an error, an
      unlabelled disk or an I/O error; else xfs before ext3 before ext4; otherwise
      parted is run again for the message and the probe raises. */
  function PartedFsType(env: Env, w: World, path: string): (res: (Outcome<Option<string>>, World))
    ensures var rep := env.respond(w.log, PartedCmd(path));
      var unusable := rep.out == "" || rep.err != "" || Contains(rep.out, "unrecognised disk label") ||
        Contains(rep.out, "Input/output error");
      && (res.0 == Ok(None) <==> unusable)
      && (res.0 == Ok(Some("xfs")) <==> !unusable && Contains(rep.out, "xfs"))
      && (res.0 == Ok(Some("ext3")) <==> !unusable && !Contains(rep.out, "xfs") && Contains(rep.out, "ext3"))
      && (res.0 == Ok(Some("ext4")) <==>
           !unusable && !Contains(rep.out, "xfs") && !Contains(rep.out, "ext3") && Contains(rep.out, "ext4"))
      && (res.0.Raised? <==>
           !unusable && !Contains(rep.out, "xfs") && !Contains(rep.out, "ext3") && !Contains(rep.out, "ext4"))
      && res.1.log == w.log + (if res.0.Raised? then [PartedCmd(path), PartedCmd(path)] else [PartedCmd(path)])
      && res.1.fs == w.fs
  {
    var (rep, w1) := Run(env, w, PartedCmd(path), false);
    if rep.out == "" || rep.err != "" then (Ok(None), w1)
    else if Contains(rep.out, "unrecognised disk label") then (Ok(None), w1)
    else if Contains(rep.out, "Input/output error") then (Ok(None), w1)
    else if Contains(rep.out, "xfs") then (Ok(Some("xfs")), w1)
    else if Contains(rep.out, "ext3") then (Ok(Some("ext3")), w1)
    else if Contains(rep.out, "ext4") then (Ok(Some("ext4")), w1)
    else
      var (full, w2) := Run(env, w1, PartedCmd(path), false);
      (Raised("Received 'parted output' of " + full.out + " -- Could not determine fs_type"), w2)
  }

  // ---------------------------------------------------------------------------
  // Counting the external programs a step runs

  /** How many of the commands run program `prog`. */
  function CountRuns(cmds: seq<Cmd>, prog: string): nat
    decreases |cmds|
  {
    if cmds == [] then 0
    else (if cmds[0] != [] && cmds[0][0] == prog then 1 else 0) + CountRuns(cmds[1..], prog)
  }

  lemma {:induction false} CountRunsConcat(a: seq<Cmd>, b: seq<Cmd>, prog: string)
    ensures CountRuns(a + b, prog) == CountRuns(a, prog) + CountRuns(b, prog)
    decreases |a|
  {
    if a != [] {
      assert (a + b)[0] == a[0];
      assert (a + b)[1..] == a[1..] + b;
      CountRunsConcat(a[1..], b, prog);
    } else {
      assert a + b == b;
    }
  }

  lemma {:induction false} ProbesRunNoXfs(kind: Kind, lo: nat, hi: nat)
    ensures CountRuns(Probes(kind, lo, hi), "xfs_admin") == 0
    decreases hi - lo
  {
    if lo < hi {
      ProbesRunNoXfs(kind, lo + 1, hi);
      CountRunsConcat([Probe(kind, lo)], Probes(kind, lo + 1, hi), "xfs_admin");
    }
  }

  /** `w'` is `w` with more commands issued and the same files. */
  predicate Extends(w: World, w': World) {
    w'.fs == w.fs && |w.log| <= |w'.log| && w'.log[..|w.log|] == w.log
  }

  /** The commands a step appended to the log. */
  function Added(w: World, w': World): seq<Cmd>
    requires |w.log| <= |w'.log|
  {
    w'.log[|w.log|..]
  }

  /** The step from `w` to `w'` issued `n` runs of `prog`. */
  predicate RunsIn(w: World, w': World, prog: string, n: nat) {
    Extends(w, w') && CountRuns(Added(w, w'), prog) == n
  }

  lemma RunsInAppend(w: World, cmds: seq<Cmd>, prog: string)
    ensures RunsIn(w, w.(log := w.log + cmds), prog, CountRuns(cmds, prog))
  {
    assert Added(w, w.(log := w.log + cmds)) == cmds;
  }

  /** A later world keeps every command of an earlier one in place. */
  lemma ExtendsKeeps(w1: World, w2: World, k: int)
    requires Extends(w1, w2) && 0 <= k < |w1.log|
    ensures w2.log[k] == w1.log[k]
  {
    assert w2.log[..|w1.log|][k] == w2.log[k];
  }

  lemma ExtendsTrans(w1: World, w2: World, w3: World)
    requires Extends(w1, w2) && Extends(w2, w3)
    ensures Extends(w1, w3)
  {
    assert w3.log[..|w1.log|] == w3.log[..|w2.log|][..|w1.log|];
  }

  lemma RunsInTrans(w1: World, w2: World, w3: World, prog: string, m: nat, n: nat)
    requires RunsIn(w1, w2, prog, m) && RunsIn(w2, w3, prog, n)
    ensures RunsIn(w1, w3, prog, m + n)
  {
    assert w3.log[..|w1.log|] == w3.log[..|w2.log|][..|w1.log|];
    assert Added(w1, w3) == Added(w1, w2) + Added(w2, w3);
    CountRunsConcat(Added(w1, w2), Added(w2, w3), prog);
  }

  // ---------------------------------------------------------------------------
  // mount_qcow

  /** Where and how `mount_qcow` mounts: the mount source, the byte offset of the
      fallback mount, and the probed filesystem type. */
  datatype Placement = Placement(from: string, offset: nat, fs: Option<string>)

  /** Past the partition lookup: the qcow offset of the partition, its mount source
      and the filesystem type there. */
  function PlaceOnPartition(env: Env, w: World, part: Record, nbd: string): (res: (Outcome<Placement>, World))
    ensures RunsIn(w, res.1, "xfs_admin", 0)
    ensures res.0.Ok? && res.0.value.fs.Some? ==> res.0.value.fs.value in {"xfs", "ext3", "ext4"}
  {
    match QcowOffset(part)
    case Raised(m) => (Raised(m), w)
    case Ok(off) =>
      match MountFrom(part, nbd)
      case Raised(m) => (Raised(m), w)
      case Ok(from) =>
        var (fs, w1) := PartedFsType(env, w, from);
        assert w1.log == w.log + (if fs.Raised? then [PartedCmd(from), PartedCmd(from)] else [PartedCmd(from)]);
        CountRunsConcat([PartedCmd(from)], [PartedCmd(from)], "xfs_admin");
        RunsInAppend(w, if fs.Raised? then [PartedCmd(from), PartedCmd(from)] else [PartedCmd(from)], "xfs_admin");
        if fs.Raised? then (Raised(fs.msg), w1) else (Ok(Placement(from, off as nat, fs.value)), w1)
  }

  /** The body of the `try` in `mount_qcow`: the partition listing of the nbd
      device, its first partition (`None.get` raises), then the placement on it. */
  function ProbeTry(env: Env, w: World, nbd: string): (res: (Outcome<Placement>, World))
    ensures RunsIn(w, res.1, "xfs_admin", 0)
    ensures res.0.Ok? && res.0.value.fs.Some? ==> res.0.value.fs.value in {"xfs", "ext3", "ext4"}
  {
    var (p, w1) := FdiskGetPartition(env, w, nbd);
    RunsInAppend(w, [["fdisk", "-l", nbd]], "xfs_admin");
    if p.Raised? then (Raised(p.msg), w1)
    else if p.value.None? then (Raised("AttributeError: 'NoneType' object has no attribute 'get'"), w1)
    else
      var (t, w2) := PlaceOnPartition(env, w1, p.value.value, nbd);
      RunsInTrans(w, w1, w2, "xfs_admin", 0, 0);
      (t, w2)
  }

  /** The placement after the `try`: its result, or on any exception the nbd device
      itself, offset 0 and no filesystem type. */
  function QcowPlacement(env: Env, w: World, nbd: string): (res: (Placement, World))
    ensures res.1 == ProbeTry(env, w, nbd).1
    ensures ProbeTry(env, w, nbd).0.Ok? ==> res.0 == ProbeTry(env, w, nbd).0.value
    ensures ProbeTry(env, w, nbd).0.Raised? ==> res.0 == Placement(nbd, 0, None)
  {
    var (t, w1) := ProbeTry(env, w, nbd);
    (if t.Ok? then t.value else Placement(nbd, 0, None), w1)
  }

  /** The mount command of `attempt_mount`: options, when given, as one `-o` word. */
  function MountCmd(from: string, mp: string, opts: string): Cmd {
    if opts != "" then ["mount", "-o " + opts, from, mp] else ["mount", from, mp]
  }

  /** `attempt_mount(from, mp, opts)`: the mount succeeds exactly when it prints
      nothing on stderr. */
  function AttemptMount(env: Env, w: World, from: string, mp: string, opts: string): (res: (bool, World))
    ensures res.1 == w.(log := w.log + [MountCmd(from, mp, opts)])
    ensures res.0 <==> env.respond(w.log, MountCmd(from, mp, opts)).err == ""
  {
    var (rep, w1) := Run(env, w, MountCmd(from, mp, opts), false);
    (rep.err == "", w1)
  }

  /** The options of the fallback mount. */
  function OffsetOptions(offset: nat): string {
    "offset=" + NatToString(offset) + ",nouuid"
  }

  /** `_init_xfs(from)`, run only for an xfs placement. */
  function XfsInit(w: World, pl: Placement): World {
    if pl.fs == Some("xfs") then Issue(w, [["xfs_admin", pl.from]], false) else w
  }

  /** What `mount_qcow` does once the placement is known: xfs initialisation, the
      direct mount, the offset mount on the nbd device if that failed, and detaching
      the device if both failed. */
  function QcowMountSteps(env: Env, w: World, nbd: string, pl: Placement, mp: string): (res: ((bool, Option<string>), World))
    ensures Extends(w, res.1)
  {
    var w1 := XfsInit(w, pl);
    var (ok1, w2) := AttemptMount(env, w1, pl.from, mp, "");
    if ok1 then ((true, Some(nbd)), w2)
    else
      var (ok2, w3) := AttemptMount(env, w2, nbd, mp, OffsetOptions(pl.offset));
      if ok2 then ((true, Some(nbd)), w3)
      else ((false, None), Issue(w3, [["qemu-nbd", "-d", nbd]], false))
  }

  /** The mounting steps in order: a successful direct mount stops there; a failed
      one is retried on the nbd device with "offset=N,nouuid"; when that fails too the
      device is detached and the result is (False, None). */
  lemma QcowMountOrder(env: Env, w: World, nbd: string, pl: Placement, mp: string)
    ensures var w1 := XfsInit(w, pl);
      var direct := MountCmd(pl.from, mp, "");
      var retry := MountCmd(nbd, mp, OffsetOptions(pl.offset));
      var ok1 := env.respond(w1.log, direct).err == "";
      var ok2 := env.respond(w1.log + [direct], retry).err == "";
      var res := QcowMountSteps(env, w, nbd, pl, mp);
      && (ok1 ==> res == ((true, Some(nbd)), w1.(log := w1.log + [direct])))
      && (!ok1 && ok2 ==> res == ((true, Some(nbd)), w1.(log := w1.log + [direct, retry])))
      && (!ok1 && !ok2 ==> res == ((false, None), w1.(log := w1.log + [direct, retry, ["qemu-nbd", "-d", nbd]])))
  {
    var w1 := XfsInit(w, pl);
    var direct := MountCmd(pl.from, mp, "");
    var retry := MountCmd(nbd, mp, OffsetOptions(pl.offset));
    assert w1.log + [direct] + [retry] == w1.log + [direct, retry];
    assert w1.log + [direct] + [retry] + [["qemu-nbd", "-d", nbd]] == w1.log + [direct, retry, ["qemu-nbd", "-d", nbd]];
  }

  /** The steps initialise xfs once for an xfs placement and never otherwise. */
  lemma QcowStepsXfsOnce(env: Env, w: World, nbd: string, pl: Placement, mp: string)
    ensures RunsIn(w, QcowMountSteps(env, w, nbd, pl, mp).1, "xfs_admin", if pl.fs == Some("xfs") then 1 else 0)
  {
    QcowMountOrder(env, w, nbd, pl, mp);
    var w1 := XfsInit(w, pl);
    if pl.fs == Some("xfs") {
      RunsInAppend(w, [["xfs_admin", pl.from]], "xfs_admin");
    } else {
      RunsInAppend(w, [], "xfs_admin");
      assert w.(log := w.log + []) == w;
    }
    var direct := MountCmd(pl.from, mp, "");
    var retry := MountCmd(nbd, mp, OffsetOptions(pl.offset));
    var w' := QcowMountSteps(env, w, nbd, pl, mp).1;
    var tail := w'.log[|w1.log|..];
    assert tail == [direct] || tail == [direct, retry] || tail == [direct, retry, ["qemu-nbd", "-d", nbd]];
    assert w' == w1.(log := w1.log + tail);
    RunsInAppend(w1, tail, "xfs_admin");
    if |tail| >= 2 {
      CountRunsConcat([tail[0]], tail[1..], "xfs_admin");
      CountRunsConcat([tail[1]], tail[2..], "xfs_admin");
      if |tail| == 3 {
        assert tail[2..][1..] == [];
      }
    } else {
      assert tail[1..] == [];
    }
    RunsInTrans(w, w1, w', "xfs_admin", if pl.fs == Some("xfs") then 1 else 0, 0);
  }

  /** `_get_next_nbd()` then `qemu-nbd -c nbd image`. */
  function QcowAttach(env: Env, w: World, image: string): (res: (Outcome<string>, World))
    ensures RunsIn(w, res.1, "xfs_admin", 0)
  {
    var (n, w1) := NextFree(env, w, Nbd, 1);
    LowestFreeSlot(env, w, Nbd);
    var j := FirstFree(env, w, Nbd, 1);
    ProbesRunNoXfs(Nbd, 1, if j < EndSlot(Nbd) then j + 1 else EndSlot(Nbd));
    RunsInAppend(w, Probes(Nbd, 1, if j < EndSlot(Nbd) then j + 1 else EndSlot(Nbd)), "xfs_admin");
    if n.Raised? then (Raised(n.msg), w1)
    else
      RunsInAppend(w1, [["qemu-nbd", "-c", n.value, image]], "xfs_admin");
      RunsInTrans(w, w1, w1.(log := w1.log + [["qemu-nbd", "-c", n.value, image]]), "xfs_admin", 0, 0);
      (Ok(n.value), Issue(w1, [["qemu-nbd", "-c", n.value, image]], false))
  }

  /** The reference of `mount_qcow(image, mp)`: raises only when no nbd device is
      free; otherwise (True, nbd) when a mount succeeded, else (False, None). */
  function MountQcowSpec(env: Env, w: World, image: string, mp: string): (res: (Outcome<(bool, Option<string>)>, World))
    ensures Extends(w, res.1)
  {
    var (n, w1) := QcowAttach(env, w, image);
    if n.Raised? then (Raised(n.msg), w1)
    else
      var (pl, w2) := QcowPlacement(env, w1, n.value);
      var (r, w3) := QcowMountSteps(env, w2, n.value, pl, mp);
      ExtendsTrans(w, w1, w2);
      ExtendsTrans(w, w2, w3);
      (Ok(r), w3)
  }

  /** The placement `mount_qcow` settles on, when a device was free. */
  function QcowPlacementOf(env: Env, w: World, image: string): Option<Placement> {
    var (n, w1) := QcowAttach(env, w, image);
    if n.Raised? then None else Some(QcowPlacement(env, w1, n.value).0)
  }

  /** `mount_qcow` raises exactly when every nbd device is in use; the device it
      reports on success is the lowest free one. */
  lemma MountQcowDevice(env: Env, w: World, image: string, mp: string)
    ensures var j := FirstFree(env, w, Nbd, 1);
      var r := MountQcowSpec(env, w, image, mp).0;
      && (r.Raised? <==> j == EndSlot(Nbd))
      && (r.Ok? && r.value.0 ==> r.value.1 == Some(DeviceName(Nbd, j)))
      && (r.Ok? && !r.value.0 ==> r.value.1 == None)
  {
    LowestFreeSlot(env, w, Nbd);
  }

  /** Over the whole of `mount_qcow`, `_init_xfs` runs exactly once when the probed
      filesystem is xfs and never otherwise. */
  lemma MountQcowXfsOnce(env: Env, w: World, image: string, mp: string)
    ensures var pl := QcowPlacementOf(env, w, image);
      RunsIn(w, MountQcowSpec(env, w, image, mp).1, "xfs_admin",
        if pl.Some? && pl.value.fs == Some("xfs") then 1 else 0)
  {
    var (a, w1) := QcowAttach(env, w, image);
    if a.Ok? {
      var (pl, w2) := QcowPlacement(env, w1, a.value);
      QcowStepsXfsOnce(env, w2, a.value, pl, mp);
      RunsInTrans(w, w1, w2, "xfs_admin", 0, 0);
      RunsInTrans(w, w2, QcowMountSteps(env, w2, a.value, pl, mp).1, "xfs_admin", 0,
        if pl.fs == Some("xfs") then 1 else 0);
    }
  }

  /** `mount_qcow(image, mp)`. */
  method MountQcow(env: Env, w: World, image: string, mp: string) returns (r: Outcome<(bool, Option<string>)>, w': World)
    ensures (r, w') == MountQcowSpec(env, w, image, mp)
  {
    var n;
    n, w' := GetNextNbd(env, w);
    if n.Raised? {
      return Raised(n.msg), w';
    }
    var nbd := n.value;
    w' := Issue(w', [["qemu-nbd", "-c", nbd, image]], false);
    var probe := ProbeTry(env, w', nbd);
    w' := probe.1;
    var from, offset, fs := nbd, 0, None;
    if probe.0.Ok? {
      from, offset, fs := probe.0.value.from, probe.0.value.offset, probe.0.value.fs;
    }
    if fs == Some("xfs") {
      w' := Issue(w', [["xfs_admin", from]], false);
    }
    var attempt := AttemptMount(env, w', from, mp, "");
    if !attempt.0 {
      attempt := AttemptMount(env, attempt.1, nbd, mp, OffsetOptions(offset));
    }
    var ok := attempt.0;
    w' := attempt.1;
    if ok {
      return Ok((true, Some(nbd))), w';
    }
    w' := Issue(w', [["qemu-nbd", "-d", nbd]], false);
    return Ok((false, None)), w';
  }

  // ---------------------------------------------------------------------------
  // mount_raw

  function LoopMountCmd(image: string, mp: string): Cmd { ["mount", "-o", "loop", image, mp] }

  function OffsetLoopCmd(image: string, mp: string, offset: nat): Cmd {
    ["mount", "-o", "loop,offset=" + NatToString(offset), image, mp]
  }

  /** Past the listing of `mount_raw_with_offsets`: raising for the empty parse or
      an offset that cannot be computed, else the loop mount at that offset, which
      raises when it reports an error. */
  function OffsetMountOn(env: Env, w: World, image: string, mp: string, st: FdiskStats): (res: (Outcome<Reply>, World))
    ensures Extends(w, res.1)
  {
    if st.NoOutput? then (Raised("Cannot mount " + image + " as a raw image. Is it a QCOW?"), w)
    else
      match RawOffset(st)
      case Raised(m) => (Raised(m), w)
      case Ok(off) =>
        var (rep, w1) := Run(env, w, OffsetLoopCmd(image, mp, off as nat), false);
        assert w1.log[..|w.log|] == w.log;
        if rep.err != "" then (Raised("Could not auto-mount the RAW partition"), w1) else (Ok(rep), w1)
  }

  /** The reference of `mount_raw_with_offsets(image, mp)`: the listing of the
      image, then the offset mount it calls for. */
  function OffsetMountSpec(env: Env, w: World, image: string, mp: string): (res: (Outcome<Reply>, World))
    ensures Extends(w, res.1)
  {
    var (st, w1) := FdiskImage(env, w, image);
    if st.Raised? then (Raised(st.msg), w1)
    else
      var (r, w2) := OffsetMountOn(env, w1, image, mp, st.value);
      ExtendsTrans(w, w1, w2);
      (r, w2)
  }

  /** For a listing whose first partition has a start sector (every parsed listing
      with a partition has one, `Fdisk.ParsedRawOffset`), the offset mount is issued
      at unit size times start sector, and its streams are returned exactly when it
      reports no error. */
  lemma OffsetMountAtPartition(env: Env, w: World, image: string, mp: string, st: FdiskStats)
    requires HasOffsetFields(st)
    ensures var off := st.disk["unit_byte_size"].n * st.devices[0]["start"].n;
      var rep := env.respond(w.log, OffsetLoopCmd(image, mp, off));
      var res := OffsetMountOn(env, w, image, mp, st);
      && res.1 == w.(log := w.log + [OffsetLoopCmd(image, mp, off)])
      && (res.0.Ok? <==> rep.err == "")
      && (res.0.Ok? ==> res.0.value == rep)
  {
  }

  /** An empty listing makes `mount_raw_with_offsets` raise before any mount. */
  lemma OffsetMountNeedsListing(env: Env, w: World, image: string, mp: string)
    ensures OffsetMountOn(env, w, image, mp, NoOutput) == (Raised("Cannot mount " + image + " as a raw image. Is it a QCOW?"), w)
  {
  }

  /** `mount_raw_with_offsets(image, mp)`. */
  method MountRawWithOffsets(env: Env, w: World, image: string, mp: string) returns (r: Outcome<Reply>, w': World)
    ensures (r, w') == OffsetMountSpec(env, w, image, mp)
  {
    var listing := FdiskImage(env, w, image);
    w' := listing.1;
    if listing.0.Raised? {
      return Raised(listing.0.msg), w';
    }
    var st := listing.0.value;
    if st.NoOutput? {
      return Raised("Cannot mount " + image + " as a raw image. Is it a QCOW?"), w';
    }
    var offset := RawOffset(st);
    if offset.Raised? {
      return Raised(offset.msg), w';
    }
    var res := Run(env, w', OffsetLoopCmd(image, mp, offset.value as nat), false);
    w' := res.1;
    if res.0.err != "" {
      return Raised("Could not auto-mount the RAW partition"), w';
    }
    return Ok(res.0), w';
  }

  /** What `mount_raw` returns: True, the streams of the offset mount, or the pair
      of `mount_qcow`. */
  datatype MountValue = Flag(b: bool) | Streams(reply: Reply) | Pair(ok: bool, dev: Option<string>)

  /** The reference of `mount_raw(image, mp, attempt_qcow)`. */
  function MountRawSpec(env: Env, w: World, image: string, mp: string, attemptQcow: bool): (res: (Outcome<MountValue>, World))
    ensures Extends(w, res.1)
  {
    var (rep, w1) := Run(env, w, LoopMountCmd(image, mp), false);
    assert Extends(w, w1);
    if Contains(rep.err, "specify the filesystem") then
      var (o, w2) := OffsetMountSpec(env, w1, image, mp);
      ExtendsTrans(w, w1, w2);
      if o.Ok? then (Ok(Streams(o.value)), w2)
      else if !attemptQcow then (Raised(o.msg), w2)
      else
        var (q, w3) := MountQcowSpec(env, w2, image, mp);
        ExtendsTrans(w, w2, w3);
        (if q.Ok? then Ok(Pair(q.value.0, q.value.1)) else Raised(q.msg), w3)
    else (Ok(Flag(true)), w1)
  }

  /** Unless the loop mount asks for the filesystem type, `mount_raw` reports
      success, whatever else the mount printed on stderr. */
  lemma RawTrueOnOtherErrors(env: Env, w: World, image: string, mp: string, attemptQcow: bool)
    requires !Contains(env.respond(w.log, LoopMountCmd(image, mp)).err, "specify the filesystem")
    ensures MountRawSpec(env, w, image, mp, attemptQcow) == (Ok(Flag(true)), w.(log := w.log + [LoopMountCmd(image, mp)]))
  {
  }

  /** When the loop mount asks for the filesystem type, the offset mount is tried;
      if that raises, `mount_raw` re-raises unless asked to try qcow, in which case
      the result is that of `mount_qcow`. */
  lemma RawRetryThenQcow(env: Env, w: World, image: string, mp: string, attemptQcow: bool)
    requires Contains(env.respond(w.log, LoopMountCmd(image, mp)).err, "specify the filesystem")
    ensures var w1 := w.(log := w.log + [LoopMountCmd(image, mp)]);
      var (o, w2) := OffsetMountSpec(env, w1, image, mp);
      var (q, w3) := MountQcowSpec(env, w2, image, mp);
      var res := MountRawSpec(env, w, image, mp, attemptQcow);
      && (o.Ok? ==> res == (Ok(Streams(o.value)), w2))
      && (o.Raised? && !attemptQcow ==> res == (Raised(o.msg), w2))
      && (o.Raised? && attemptQcow ==> res.1 == w3 && (res.0.Raised? <==> q.Raised?))
      && (o.Raised? && attemptQcow && q.Ok? ==> res.0 == Ok(Pair(q.value.0, q.value.1)))
  {
  }

  /** `mount_raw(image, mp, attempt_qcow)`. */
  method MountRaw(env: Env, w: World, image: string, mp: string, attemptQcow: bool) returns (r: Outcome<MountValue>, w': World)
    ensures (r, w') == MountRawSpec(env, w, image, mp, attemptQcow)
  {
    var res := Run(env, w, LoopMountCmd(image, mp), false);
    w' := res.1;
    if Contains(res.0.err, "specify the filesystem") {
      var o;
      o, w' := MountRawWithOffsets(env, w', image, mp);
      if o.Ok? {
        return Ok(Streams(o.value)), w';
      }
      if !attemptQcow {
        return Raised(o.msg), w';
      }
      var q;
      q, w' := MountQcow(env, w', image, mp);
      if q.Raised? {
        return Raised(q.msg), w';
      }
      return Ok(Pair(q.value.0, q.value.1)), w';
    }
    return Ok(Flag(true)), w';
  }

  // ---------------------------------------------------------------------------
  // _detect_and_mount_image

  /** `_get_type_by_metadata(image)`: "qcow" when `file` mentions qcow in any case. */
  function TypeByMetadata(env: Env, w: World, image: string): (res: (string, World))
    ensures res.1 == w.(log := w.log + [["file", image]])
    ensures res.0 == "qcow" <==> Contains(Lower(env.respond(w.log, ["file", image]).out), "qcow")
    ensures res.0 in {"qcow", "img"}
  {
    var (rep, w1) := Run(env, w, ["file", image], false);
    (if Contains(Lower(rep.out), "qcow") then "qcow" else "img", w1)
  }

  /** `_mount_by_file_metadata(image, mp)`: mounts as qcow when `file` says so,
      raises otherwise. */
  function ByMetadata(env: Env, w: World, image: string, mp: string): (Outcome<(bool, Option<string>)>, World) {
    var (t, w1) := TypeByMetadata(env, w, image);
    if t == "qcow" then MountQcowSpec(env, w1, image, mp)
    else (Raised("The type of image could not be determined by output of 'file'"), w1)
  }

  /** The result of `_detect_and_mount_image`: the value of the mount and the
      nbd device, if any. */
  type Detected = (MountValue, Option<string>)

  /** The guess by file extension, once the metadata route raised: the result of
      `mount_qcow` for .qcow/.qcow2, `(mount_raw(attempt_qcow=True), None)` for
      .raw/.img, and an exception for any other extension. */
  function ByExtension(env: Env, w: World, image: string, mp: string): (res: (Outcome<Detected>, World))
    ensures Extends(w, res.1)
  {
    var ext := SplitExt(image).1;
    if ext == ".qcow" || ext == ".qcow2" then
      var (q, w1) := MountQcowSpec(env, w, image, mp);
      (if q.Ok? then Ok((Flag(q.value.0), q.value.1)) else Raised(q.msg), w1)
    else if ext == ".raw" || ext == ".img" then
      var (r, w1) := MountRawSpec(env, w, image, mp, true);
      (if r.Ok? then Ok((r.value, None)) else Raised(r.msg), w1)
    else (Raised("The type of image could not be determined based on the extension:" + ext), w)
  }

  /** The reference of `_detect_and_mount_image(image, mp)`: the metadata route
      first; if it raises, the extension guess, from the state the metadata route
      left behind. */
  function DetectSpec(env: Env, w: World, image: string, mp: string): (Outcome<Detected>, World) {
    var (m, w1) := ByMetadata(env, w, image, mp);
    if m.Ok? then (Ok((Flag(m.value.0), m.value.1)), w1)
    else ByExtension(env, w1, image, mp)
  }

  /** `file` is always run first, whichever route mounts the image. */
  lemma FileRunsFirst(env: Env, w: World, image: string, mp: string)
    ensures var res := DetectSpec(env, w, image, mp);
      |res.1.log| > |w.log| && res.1.log[|w.log|] == ["file", image]
  {
    var w1 := w.(log := w.log + [["file", image]]);
    var res := DetectSpec(env, w, image, mp);
    var (m, w2) := ByMetadata(env, w, image, mp);
    assert Extends(w1, w2);
    assert Extends(w2, res.1);
    ExtendsTrans(w1, w2, res.1);
    ExtendsKeeps(w1, res.1, |w.log|);
  }

  /** `file` is always run first; a qcow verdict with a free nbd device decides the
      result through `mount_qcow`, and nothing of the extension is looked at. */
  lemma MetadataFirst(env: Env, w: World, image: string, mp: string)
    ensures var res := DetectSpec(env, w, image, mp);
      |res.1.log| > |w.log| && res.1.log[|w.log|] == ["file", image]
    ensures var w1 := w.(log := w.log + [["file", image]]);
      var q := MountQcowSpec(env, w1, image, mp);
      Contains(Lower(env.respond(w.log, ["file", image]).out), "qcow") && q.0.Ok? ==>
        DetectSpec(env, w, image, mp) == (Ok((Flag(q.0.value.0), q.0.value.1)), q.1)
  {
    FileRunsFirst(env, w, image, mp);
  }

  /** When the metadata is not qcow, an image whose extension is neither .qcow,
      .qcow2, .raw nor .img raises after running only `file`. */
  lemma UnknownExtensionRaises(env: Env, w: World, image: string, mp: string)
    requires !Contains(Lower(env.respond(w.log, ["file", image]).out), "qcow")
    requires SplitExt(image).1 !in {".qcow", ".qcow2", ".raw", ".img"}
    ensures DetectSpec(env, w, image, mp).0.Raised?
    ensures DetectSpec(env, w, image, mp).1 == w.(log := w.log + [["file", image]])
  {
  }

  /** The `except` branch of `_detect_and_mount_image`: the guess by extension. */
  method MountByExtension(env: Env, w: World, image: string, mp: string) returns (r: Outcome<Detected>, w': World)
    ensures (r, w') == ByExtension(env, w, image, mp)
  {
    w' := w;
    var ext := SplitExt(image).1;
    if ext == ".qcow" || ext == ".qcow2" {
      var q;
      q, w' := MountQcow(env, w', image, mp);
      if q.Ok? {
        return Ok((Flag(q.value.0), q.value.1)), w';
      }
      return Raised(q.msg), w';
    } else if ext == ".raw" || ext == ".img" {
      var m;
      m, w' := MountRaw(env, w', image, mp, true);
      if m.Ok? {
        return Ok((m.value, None)), w';
      }
      return Raised(m.msg), w';
    }
    return Raised("The type of image could not be determined based on the extension:" + ext), w';
  }

  /** `_detect_and_mount_image(image, mp)`. */
  method DetectAndMountImage(env: Env, w: World, image: string, mp: string) returns (r: Outcome<Detected>, w': World)
    ensures (r, w') == DetectSpec(env, w, image, mp)
  {
    var t := TypeByMetadata(env, w, image);
    w' := t.1;
    if t.0 == "qcow" {
      var q;
      q, w' := MountQcow(env, w', image, mp);
      if q.Ok? {
        return Ok((Flag(q.value.0), q.value.1)), w';
      }
    }
    r, w' := MountByExtension(env, w', image, mp);
  }

  /** The reference of `mount_image(image, mp)`: only root may mount. */
  function MountImageSpec(env: Env, w: World, image: string, mp: string, isRoot: bool): (Outcome<Detected>, World) {
    if !isRoot then (Raised("Only the root user can mount an image."), w)
    else DetectSpec(env, w, image, mp)
  }

  /** A caller that is not root gets an exception and nothing is run. */
  lemma MountImageNeedsRoot(env: Env, w: World, image: string, mp: string)
    ensures MountImageSpec(env, w, image, mp, false).0.Raised?
    ensures MountImageSpec(env, w, image, mp, false).1 == w
  {
  }

  /** `mount_image(image, mp)`; whether the caller is root is given. */
  method MountImage(env: Env, w: World, image: string, mp: string, isRoot: bool) returns (r: Outcome<Detected>, w': World)
    ensures (r, w') == MountImageSpec(env, w, image, mp, isRoot)
  {
    if !isRoot {
      return Raised("Only the root user can mount an image."), w;
    }
    r, w' := DetectAndMountImage(env, w, image, mp);
  }
}
