/** What the image code learns about a mounted guest and the ramdisk it builds for
    it: `check_distro`, `get_latest_ramdisk`, `_mkinitrd_command`,
    `rebuild_ramdisk` and `retrieve_kernel_ramdisk` with its two copies. */
module Guest {
  import opened Outcomes
  import opened Text
  import opened Machine
  import opened Chroot

  // ---------------------------------------------------------------------------
  // check_distro

  /** The command that prints the guest's release files. */
  function ReleaseCmd(root: string): Cmd {
    ["/bin/bash", "-c", "cat " + PathJoin(root, "etc/*release*")]
  }

  /** The distribution named by release text: centos wins over ubuntu, in any case. */
  function DistroOf(out: string): (d: string)
    ensures d in {"centos", "ubuntu", "unknown"}
    ensures d == "centos" <==> Contains(Lower(out), "centos")
    ensures d == "ubuntu" <==> !Contains(Lower(out), "centos") && Contains(Lower(out), "ubuntu")
  {
    if Contains(Lower(out), "centos") then "centos"
    else if Contains(Lower(out), "ubuntu") then "ubuntu"
    else "unknown"
  }

  /** `check_distro(root)`. */
  function CheckDistro(env: Env, w: World, root: string): (res: (string, World))
    ensures res.1 == w.(log := w.log + [ReleaseCmd(root)])
    ensures res.0 == DistroOf(env.respond(w.log, ReleaseCmd(root)).out)
  {
    var (rep, w1) := Run(env, w, ReleaseCmd(root), false);
    (DistroOf(rep.out), w1)
  }

  // ---------------------------------------------------------------------------
  // get_latest_ramdisk

  /** The command that lists the guest's boot directory. */
  function BootListing(root: string): Cmd {
    ["/bin/bash", "-c", "ls -Fah " + PathJoin(root, "boot/")]
  }

  /** A listing line `get_latest_ramdisk` takes as a ramdisk of `distro`: it mentions
      initrd and does not end with the ignored suffix (for centos, suffix + ".img"). */
  predicate IsRamdisk(line: string, distro: string, ignore: string) {
    Contains(line, "initrd") &&
    ((distro == "ubuntu" && !EndsWith(line, ignore)) ||
     (distro == "centos" && !EndsWith(line, ignore + ".img")))
  }

  /** The kernel version a ramdisk file name carries. */
  function RamdiskVersion(line: string, distro: string): string {
    if distro == "ubuntu" then ReplaceAll(line, "initrd.img-", "")
    else ReplaceAll(ReplaceAll(line, "initrd-", ""), ".img", "")
  }

  /** The (ramdisk, version) pair after scanning `lines` in order: the last ramdisk
      line decides, ("", "") when there is none. */
  function LastRamdisk(lines: seq<string>, distro: string, ignore: string): (string, string) {
    if lines == [] then ("", "")
    else
      var last := lines[|lines| - 1];
      if IsRamdisk(last, distro, ignore) then (last, RamdiskVersion(last, distro))
      else LastRamdisk(lines[..|lines| - 1], distro, ignore)
  }

  /** The last ramdisk line of the listing is the one chosen. */
  lemma {:induction false} LastRamdiskWins(lines: seq<string>, distro: string, ignore: string, i: nat)
    requires i < |lines| && IsRamdisk(lines[i], distro, ignore)
    requires forall k :: i < k < |lines| ==> !IsRamdisk(lines[k], distro, ignore)
    ensures LastRamdisk(lines, distro, ignore) == (lines[i], RamdiskVersion(lines[i], distro))
    decreases |lines|
  {
    if i < |lines| - 1 {
      var p := lines[..|lines| - 1];
      assert forall k :: i < k < |p| ==> p[k] == lines[k];
      LastRamdiskWins(p, distro, ignore, i);
    }
  }

  /** No ramdisk line, in particular any distribution but ubuntu and centos,
      leaves the pair empty. */
  lemma {:induction false} NoRamdiskEmpty(lines: seq<string>, distro: string, ignore: string)
    ensures LastRamdisk(lines, distro, ignore).0 == "" <==>
      forall k :: 0 <= k < |lines| ==> !IsRamdisk(lines[k], distro, ignore)
    ensures distro !in {"ubuntu", "centos"} ==> LastRamdisk(lines, distro, ignore) == ("", "")
    decreases |lines|
  {
    if lines != [] {
      var p := lines[..|lines| - 1];
      NoRamdiskEmpty(p, distro, ignore);
      assert forall k :: 0 <= k < |p| ==> p[k] == lines[k];
      var last := lines[|lines| - 1];
      if IsRamdisk(last, distro, ignore) {
        assert OccursAt(last, "initrd", Find(last, "initrd"));
      }
    }
  }

  /** The error when no usable ramdisk was found. */
  function NoRamdisk(root: string): string {
    "Could not determine the latest ramdisk. Is the ramdisk located in " + PathJoin(root, "boot/") + "?"
  }

  /** The reference of `get_latest_ramdisk(root, distro, ignore)`. */
  function LatestRamdiskSpec(env: Env, w: World, root: string, distro: string, ignore: string): (Outcome<(string, string)>, World) {
    var (rep, w1) := Run(env, w, BootListing(root), false);
    var (latest, version) := LastRamdisk(SplitStr(rep.out, "\n"), distro, ignore);
    if latest == "" || version == "" then (Raised(NoRamdisk(root)), w1)
    else (Ok((latest, version)), w1)
  }

  /** For an unknown distribution no ramdisk is ever found. */
  lemma UnknownDistroNoRamdisk(env: Env, w: World, root: string, distro: string, ignore: string)
    requires distro !in {"ubuntu", "centos"}
    ensures LatestRamdiskSpec(env, w, root, distro, ignore).0 == Raised(NoRamdisk(root))
  {
    var rep := env.respond(w.log, BootListing(root));
    NoRamdiskEmpty(SplitStr(rep.out, "\n"), distro, ignore);
  }

  /** `get_latest_ramdisk(root, distro, ignore)`. */
  method GetLatestRamdisk(env: Env, w: World, root: string, distro: string, ignore: string)
    returns (r: Outcome<(string, string)>, w': World)
    ensures (r, w') == LatestRamdiskSpec(env, w, root, distro, ignore)
  {
    var res := Run(env, w, BootListing(root), false);
    w' := res.1;
    var lines := SplitStr(res.0.out, "\n");
    var latest, version := "", "";
    var i := 0;
    while i < |lines|
      invariant 0 <= i <= |lines|
      invariant (latest, version) == LastRamdisk(lines[..i], distro, ignore)
    {
      var line := lines[i];
      if Contains(line, "initrd") {
        if distro == "ubuntu" && !EndsWith(line, ignore) {
          latest, version := line, ReplaceAll(line, "initrd.img-", "");
        } else if distro == "centos" && !EndsWith(line, ignore + ".img") {
          latest, version := line, ReplaceAll(ReplaceAll(line, "initrd-", ""), ".img", "");
        }
      }
      assert lines[..i + 1][..i] == lines[..i];
      i := i + 1;
    }
    assert lines[..i] == lines;
    if latest == "" || version == "" {
      return Raised(NoRamdisk(root)), w';
    }
    return Ok((latest, version)), w';
  }

  /** Dropping a leading `p` that does not occur again gives back the rest. */
  lemma DropPrefix(p: string, v: string)
    requires p != [] && !Contains(v, p)
    ensures ReplaceAll(p + v, p, "") == v
  {
    var s := p + v;
    assert OccursAt(s, p, 0);
    assert Find(s, p) == 0;
    assert s[|p|..] == v;
    assert Find(v, p) == -1;
    assert SplitStr(v, p) == [v];
    assert SplitStr(s, p) == [""] + [v];
    assert Join("", ["", v]) == "" + "" + Join("", [v]);
  }

  /** An ubuntu ramdisk "initrd.img-V" yields version V, so the file that
      `_copy_ramdisk` later copies is the ramdisk found. */
  lemma UbuntuRamdiskRoundTrip(v: string)
    requires !Contains(v, "initrd.img-")
    ensures RamdiskVersion("initrd.img-" + v, "ubuntu") == v
    ensures RamdiskFile(RamdiskVersion("initrd.img-" + v, "ubuntu"), "ubuntu") == Ok("initrd.img-" + v)
  {
    DropPrefix("initrd.img-", v);
  }

  // ---------------------------------------------------------------------------
  // _mkinitrd_command

  /** The modules `_mkinitrd_command` adds to the include list on every call. */
  const VirtioModules: seq<string> :=
    ["virtio_pci", "virtio_ring", "virtio_blk", "virtio_net", "virtio_balloon", "virtio"]

  /** `prefix + m` for every module, in order, concatenated. */
  function Flags(prefix: string, mods: seq<string>): string {
    if mods == [] then "" else Flags(prefix, mods[..|mods| - 1]) + prefix + mods[|mods| - 1]
  }

  lemma {:induction false} FlagsConcat(prefix: string, a: seq<string>, b: seq<string>)
    ensures Flags(prefix, a + b) == Flags(prefix, a) + Flags(prefix, b)
    decreases |b|
  {
    if b == [] {
      assert a + b == a;
    } else {
      assert (a + b)[..|a + b| - 1] == a + b[..|b| - 1];
      FlagsConcat(prefix, a, b[..|b| - 1]);
    }
  }

  /** One more flag extends the flags of a prefix of the list. */
  lemma FlagsExtend(head: string, prefix: string, mods: seq<string>, i: int)
    requires 0 <= i < |mods|
    ensures head + Flags(prefix, mods[..i]) + prefix + mods[i] == head + Flags(prefix, mods[..i + 1])
  {
    assert mods[..i + 1][..i] == mods[..i];
  }

  /** The command line `_mkinitrd_command` builds from the extended lists; an
      unknown distribution leaves `mkinitrd_str` unbound. */
  function MkinitrdLine(latest: string, version: string, distro: string, preload: seq<string>, included: seq<string>): Outcome<string> {
    if distro != "centos" && distro != "ubuntu" then Raised("UnboundLocalError: local variable 'mkinitrd_str' referenced before assignment")
    else
      Ok((if distro == "centos" then "mkinitrd" else "mkinitramfs") +
         Flags(" --preload ", preload) + Flags(" --with ", included) +
         " -f /boot/" + latest + " " + version)
  }

  /** `_mkinitrd_command(latest, version, distro, preload, included)`: extends the
      caller's lists (ahci; the virtio modules), then grows the command line. */
  method MkinitrdCommand(latest: string, version: string, distro: string, preload: seq<string>, included: seq<string>)
    returns (r: Outcome<string>, preload': seq<string>, included': seq<string>)
    ensures preload' == preload + ["ahci"] && included' == included + VirtioModules
    ensures r == MkinitrdLine(latest, version, distro, preload', included')
  {
    preload' := preload + ["ahci"];
    included' := included + VirtioModules;
    var line;
    if distro == "centos" {
      line := "mkinitrd";
    } else if distro == "ubuntu" {
      line := "mkinitramfs";
    } else {
      return Raised("UnboundLocalError: local variable 'mkinitrd_str' referenced before assignment"), preload', included';
    }
    ghost var head := line;
    var i := 0;
    while i < |preload'|
      invariant 0 <= i <= |preload'|
      invariant line == head + Flags(" --preload ", preload'[..i])
    {
      FlagsExtend(head, " --preload ", preload', i);
      line := line + " --preload " + preload'[i];
      i := i + 1;
    }
    assert preload'[..i] == preload';
    head := line;
    i := 0;
    while i < |included'|
      invariant 0 <= i <= |included'|
      invariant line == head + Flags(" --with ", included'[..i])
    {
      FlagsExtend(head, " --with ", included', i);
      line := line + " --with " + included'[i];
      i := i + 1;
    }
    assert included'[..i] == included';
    line := line + " -f /boot/" + latest + " " + version;
    return Ok(line), preload', included';
  }

  /** The modules of a list appear in the command line in list order, so the
      modules a call appends come after the caller's own. */
  lemma MkinitrdKeepsOrder(latest: string, version: string, distro: string,
                           p1: seq<string>, p2: seq<string>, i1: seq<string>, i2: seq<string>)
    requires distro in {"centos", "ubuntu"}
    ensures MkinitrdLine(latest, version, distro, p1 + p2, i1 + i2) ==
      Ok((if distro == "centos" then "mkinitrd" else "mkinitramfs") +
         Flags(" --preload ", p1) + Flags(" --preload ", p2) +
         Flags(" --with ", i1) + Flags(" --with ", i2) +
         " -f /boot/" + latest + " " + version)
  {
    FlagsConcat(" --preload ", p1, p2);
    FlagsConcat(" --with ", i1, i2);
    var head := if distro == "centos" then "mkinitrd" else "mkinitramfs";
    var a, b, c, d := Flags(" --preload ", p1), Flags(" --preload ", p2), Flags(" --with ", i1), Flags(" --with ", i2);
    assert MkinitrdLine(latest, version, distro, p1 + p2, i1 + i2).value ==
      head + (a + b) + (c + d) + " -f /boot/" + latest + " " + version;
    assert head + (a + b) == head + a + b;
    assert head + a + b + (c + d) == head + a + b + c + d;
  }

  /** The default lists are shared between calls, so the second call with the
      defaults preloads ahci twice and includes the virtio modules twice. */
  lemma DefaultListsAccumulate(latest: string, version: string)
    ensures MkinitrdLine(latest, version, "centos", ["ahci"] + ["ahci"], VirtioModules + VirtioModules) ==
      Ok("mkinitrd --preload ahci --preload ahci" + Flags(" --with ", VirtioModules) +
         Flags(" --with ", VirtioModules) + " -f /boot/" + latest + " " + version)
  {
    MkinitrdKeepsOrder(latest, version, "centos", ["ahci"], ["ahci"], VirtioModules, VirtioModules);
    assert Flags(" --preload ", ["ahci"]) == " --preload ahci" by {
      assert ["ahci"][..0] == [];
    }
    assert "mkinitrd" + " --preload ahci" + " --preload ahci" == "mkinitrd --preload ahci --preload ahci";
  }

  // ---------------------------------------------------------------------------
  // rebuild_ramdisk and retrieve_kernel_ramdisk

  /** The reference of `rebuild_ramdisk(root, preload, included, ignore)`: the
      distribution, the latest ramdisk, the command line, then mkinitrd in a chroot
      between the guest mounts, which are released in a `finally`. The lists come
      back extended when the command line was built. */
  function RebuildSpec(env: Env, w: World, root: string, preload: seq<string>, included: seq<string>, ignore: string)
    : (Outcome<()>, World, seq<string>, seq<string>)
  {
    var (distro, w1) := CheckDistro(env, w, root);
    var (found, w2) := LatestRamdiskSpec(env, w1, root, distro, ignore);
    if found.Raised? then (Raised(found.msg), w2, preload, included)
    else
      var p', i' := preload + ["ahci"], included + VirtioModules;
      match MkinitrdLine(found.value.0, found.value.1, distro, p', i')
      case Raised(m) => (Raised(m), w2, p', i')
      case Ok(line) =>
        var w3 := PrepareChrootEnv(w2, root);
        var w4 := Issue(w3, [["/usr/sbin/chroot", root, "/bin/bash", "-c", line]], false);
        (Ok(()), RemoveChrootEnv(w4, root), p', i')
  }

  /** A ramdisk is only found for ubuntu and centos, so the command line never
      fails to bind inside `rebuild_ramdisk`; whenever it is built, mkinitrd runs
      between the guest mounts and their release. */
  lemma RebuildBracketed(env: Env, w: World, root: string, preload: seq<string>, included: seq<string>, ignore: string)
    ensures var (distro, w1) := CheckDistro(env, w, root);
      var (found, w2) := LatestRamdiskSpec(env, w1, root, distro, ignore);
      var res := RebuildSpec(env, w, root, preload, included, ignore);
      && (res.0.Raised? <==> found.Raised?)
      && (found.Ok? ==>
          distro in {"centos", "ubuntu"} &&
          res.1.log == w2.log + ChrootMounts(root) +
            [["/usr/sbin/chroot", root, "/bin/bash", "-c",
              MkinitrdLine(found.value.0, found.value.1, distro, preload + ["ahci"], included + VirtioModules).value]] +
            ChrootUnmounts(root))
  {
    var (distro, w1) := CheckDistro(env, w, root);
    if distro !in {"centos", "ubuntu"} {
      UnknownDistroNoRamdisk(env, w1, root, distro, ignore);
    }
  }

  /** `rebuild_ramdisk(root, preload, included, ignore)`. */
  method RebuildRamdisk(env: Env, w: World, root: string, preload: seq<string>, included: seq<string>, ignore: string)
    returns (r: Outcome<()>, w': World, preload': seq<string>, included': seq<string>)
    ensures (r, w', preload', included') == RebuildSpec(env, w, root, preload, included, ignore)
  {
    var d := CheckDistro(env, w, root);
    var found;
    found, w' := GetLatestRamdisk(env, d.1, root, d.0, ignore);
    if found.Raised? {
      return Raised(found.msg), w', preload, included;
    }
    var line;
    line, preload', included' := MkinitrdCommand(found.value.0, found.value.1, d.0, preload, included);
    if line.Raised? {
      return Raised(line.msg), w', preload', included';
    }
    w' := PrepareChrootEnv(w', root);
    w' := Issue(w', [["/usr/sbin/chroot", root, "/bin/bash", "-c", line.value]], false);
    w' := RemoveChrootEnv(w', root);
    r := Ok(());
  }

  /** The ramdisk file name `_copy_ramdisk` derives from a version. */
  function RamdiskFile(version: string, distro: string): Outcome<string> {
    if distro == "ubuntu" then Ok("initrd.img-" + version)
    else if distro == "centos" then Ok("initrd-" + version + ".img")
    else Raised("Cannot identify distro - " + distro)
  }

  /** The reference of `retrieve_kernel_ramdisk(root, kernelDir, ramdiskDir, ignore)`:
      both files are copied out of the guest's /boot and their local paths returned. */
  function RetrieveSpec(env: Env, w: World, root: string, kernelDir: string, ramdiskDir: string, ignore: string)
    : (Outcome<(string, string)>, World)
  {
    var (distro, w1) := CheckDistro(env, w, root);
    var (found, w2) := LatestRamdiskSpec(env, w1, root, distro, ignore);
    if found.Raised? then (Raised(found.msg), w2)
    else
      var version := found.value.1;
      match RamdiskFile(version, distro)
      case Raised(m) => (Raised(m), w2)
      case Ok(name) =>
        var ramdisk := PathJoin(ramdiskDir, name);
        var kernel := PathJoin(kernelDir, "vmlinuz-" + version);
        var w3 := Issue(w2, [["/bin/cp", PathJoin(PathJoin(root, "boot"), name), ramdisk],
                             ["/bin/cp", PathJoin(PathJoin(root, "boot"), "vmlinuz-" + version), kernel]], false);
        (Ok((kernel, ramdisk)), w3)
  }

  /** When a ramdisk is found, the distribution is known, so both copies run and
      the kernel and ramdisk of the same version are returned. */
  lemma RetrieveCopiesBoth(env: Env, w: World, root: string, kernelDir: string, ramdiskDir: string, ignore: string)
    ensures var (distro, w1) := CheckDistro(env, w, root);
      var (found, w2) := LatestRamdiskSpec(env, w1, root, distro, ignore);
      var res := RetrieveSpec(env, w, root, kernelDir, ramdiskDir, ignore);
      && (res.0.Raised? <==> found.Raised?)
      && (found.Ok? ==>
          res.1 == w2.(log := w2.log +
            [["/bin/cp", PathJoin(PathJoin(root, "boot"), RamdiskFile(found.value.1, distro).value), res.0.value.1],
             ["/bin/cp", PathJoin(PathJoin(root, "boot"), "vmlinuz-" + found.value.1), res.0.value.0]]) &&
          res.0.value.0 == PathJoin(kernelDir, "vmlinuz-" + found.value.1) &&
          res.0.value.1 == PathJoin(ramdiskDir, RamdiskFile(found.value.1, distro).value))
  {
    var (distro, w1) := CheckDistro(env, w, root);
    if distro !in {"centos", "ubuntu"} {
      UnknownDistroNoRamdisk(env, w1, root, distro, ignore);
    }
  }
}
