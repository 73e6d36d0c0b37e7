/** Converting an image between virtualisation systems: `MigrationPlan.convert`
    mounts the image, runs the plan's distribution hooks (file edits, then
    commands inside the chroot bracket), fetches the kernel and ramdisk, and
    unmounts in a `finally`. The plans are the base class, whose hooks do nothing
    and whose kernel step returns None, `KVM2Xen`, which only rebuilds and
    fetches, and `Xen2KVM`, which also edits the guest. */
module Migration {
  import opened Outcomes
  import opened Text
  import opened Machine
  import opened Edits
  import opened Chroot
  import opened Mount
  import opened Guest

  /** The migration plan classes. */
  datatype Plan = BasePlan | KVM2Xen | Xen2KVM

  // ---------------------------------------------------------------------------
  // Xen2KVM.debian_mount

  const GettyFile: string := "etc/init/getty.conf"
  const GettyS0: string := "exec /sbin/getty -L 38400 ttyS0 vt102"
  const GettyS1: string := "exec /sbin/getty -L 38400 ttyS1 vt102"

  /** The upstart job written when the guest has no getty.conf. */
  const GettyScript: string :=
    "# getty - ttyS*\n# This service maintains a getty on ttyS0/S1\n# from the point the system is started until\n" +
    "# it is shut down again.\n\nstart on stopped rc RUNLEVEL=[2345]\nstop on runlevel [!2345]\n\nrespawn\n" +
    GettyS0 + "\n" + GettyS1 + "\n"

  function DebianRemoveLines(): seq<Rule> {
    [RemoveLine("atmo_boot", "etc/rc.local"), RemoveLine("sda2", "etc/fstab"), RemoveLine("sda3", "etc/fstab")]
  }

  function GettyAppends(): seq<Rule> {
    [AppendLine(GettyS0, GettyFile), AppendLine(GettyS1, GettyFile)]
  }

  /** The guest after the line removals and the hvc0 job removal of `debian_mount`. */
  function DebianPrepared(env: Env, w: World, mp: string): World {
    ApplyBatch(env, ApplyBatch(env, w, mp, DebianRemoveLines(), false), mp, [RemoveFile("etc/init/hvc0.conf")], false)
  }

  /** The reference of `Xen2KVM.debian_mount(image, mp)`: the getty lines are
      appended only when `create_file` finds the file already there. */
  function DebianMountSpec(env: Env, w: World, mp: string): World {
    var w1 := DebianPrepared(env, w, mp);
    var created := CreateFile(w1, GettyFile, mp, GettyScript);
    if created.0 then created.1 else ApplyBatch(env, created.1, mp, GettyAppends(), false)
  }

  lemma AppendKeepsLine(w: World, text: string, path: string, other: string)
    requires path in w.fs && LineExists(other, w.fs[path])
    ensures path in SedAppend(w, text, path, false).fs
    ensures LineExists(other, SedAppend(w, text, path, false).fs[path])
  {
    var i :| 0 <= i < |w.fs[path]| && Strip(w.fs[path][i]) == Strip(other);
    var w' := SedAppend(w, text, path, false);
    assert w'.fs[path][i] == w.fs[path][i];
  }

  lemma GettyAppendsRun(env: Env, w: World, mp: string)
    ensures ApplyBatch(env, w, mp, GettyAppends(), false) ==
      SedAppend(SedAppend(w, GettyS0, GuestPath(mp, GettyFile), false), GettyS1, GuestPath(mp, GettyFile), false)
  {
    assert GettyAppends()[1..][1..] == [];
  }

  /** A missing getty.conf is created from the script and nothing is appended; an
      existing one gets the two serial getty lines appended, and a non-empty one
      then holds both. */
  lemma DebianGetty(env: Env, w: World, mp: string)
    ensures var w1 := DebianPrepared(env, w, mp);
      var p := GuestPath(mp, GettyFile);
      var res := DebianMountSpec(env, w, mp);
      (p !in w1.fs ==> res == w1.(fs := w1.fs[p := SplitStr(GettyScript, "\n")])) &&
      (p in w1.fs ==> res == SedAppend(SedAppend(w1, GettyS0, p, false), GettyS1, p, false)) &&
      (p in w1.fs && w1.fs[p] != [] ==> p in res.fs && LineExists(GettyS0, res.fs[p]) && LineExists(GettyS1, res.fs[p]))
  {
    var w1 := DebianPrepared(env, w, mp);
    var p := GuestPath(mp, GettyFile);
    if p in w1.fs {
      GettyAppendsRun(env, w1, mp);
      var w2 := SedAppend(w1, GettyS0, p, false);
      if w1.fs[p] != [] {
        AppendEstablishes(w1, GettyS0, p);
        assert w2.fs[p] != [];
        AppendEstablishes(w2, GettyS1, p);
        AppendKeepsLine(w2, GettyS1, p, GettyS0);
      }
    }
  }

  /** `Xen2KVM.debian_mount(image, mp)`. */
  method DebianMount(env: Env, w: World, mp: string) returns (w': World)
    ensures w' == DebianMountSpec(env, w, mp)
  {
    w' := RunBatch(env, w, mp, DebianRemoveLines(), false);
    w' := RunBatch(env, w', mp, [RemoveFile("etc/init/hvc0.conf")], false);
    var created := CreateFile(w', GettyFile, mp, GettyScript);
    w' := created.1;
    if !created.0 {
      w' := RunBatch(env, w', mp, GettyAppends(), false);
    }
  }

  // ---------------------------------------------------------------------------
  // Xen2KVM.rhel_mount

  function RhelAppends(): seq<Rule> {
    [AppendLine("S0:2345:respawn:/sbin/agetty ttyS0 115200", "etc/inittab"),
     AppendLine("S1:2345:respawn:/sbin/agetty ttyS1 115200", "etc/inittab")]
  }

  function RhelPrepends(): seq<Rule> {
    [PrependLine("LABEL=root\t\t/\t\t\text3\tdefaults,errors=remount-ro 0 0", "etc/fstab")]
  }

  function RhelRemoveLines(): seq<Rule> {
    [RemoveLine("alias scsi", "etc/modprobe.conf"), RemoveLine("atmo_boot", "etc/rc.local")]
  }

  function RhelReplaces(): seq<Rule> {
    [ReplaceLine("^\\/dev\\/sda", "\\#\\/dev\\/sda", "etc/fstab"),
     ReplaceLine("^xvc0", "\\#xvc0", "etc/inittab"),
     ReplaceLine("xenblk", "ata_piix", "etc/modprobe.conf"),
     ReplaceLine("xennet", "8139cp", "etc/modprobe.conf")]
  }

  function RhelRanges(): seq<Rule> {
    [DeleteRange("depmod -a", "\\/usr\\/bin\\/ruby \\/usr\\/sbin\\/atmo_boot", "etc/rc.local"),
     DeleteRange("depmod -a", "\\/usr\\/bin\\/ruby \\/usr\\/sbin\\/atmo_boot", "etc/rc.d/rc.local")]
  }

  /** The reference of `Xen2KVM.rhel_mount(image, mp)`: five helper calls in turn. */
  function RhelMountSpec(env: Env, w: World, mp: string): World {
    var w1 := ApplyBatch(env, w, mp, RhelAppends(), false);
    var w2 := ApplyBatch(env, w1, mp, RhelPrepends(), false);
    var w3 := ApplyBatch(env, w2, mp, RhelRemoveLines(), false);
    var w4 := ApplyBatch(env, w3, mp, RhelReplaces(), false);
    ApplyBatch(env, w4, mp, RhelRanges(), false)
  }

  /** `rhel_mount` is a single batch: appends, prepends, line removals,
      replacements and range deletions, in that order. */
  lemma RhelMountOrder(env: Env, w: World, mp: string)
    ensures RhelMountSpec(env, w, mp) ==
      ApplyBatch(env, w, mp, RhelAppends() + RhelPrepends() + RhelRemoveLines() + RhelReplaces() + RhelRanges(), false)
  {
    var a, b, c, d, e := RhelAppends(), RhelPrepends(), RhelRemoveLines(), RhelReplaces(), RhelRanges();
    ApplyBatchConcat(env, w, mp, a + b + c + d, e, false);
    ApplyBatchConcat(env, w, mp, a + b + c, d, false);
    ApplyBatchConcat(env, w, mp, a + b, c, false);
    ApplyBatchConcat(env, w, mp, a, b, false);
  }

  /** `Xen2KVM.rhel_mount(image, mp)`. */
  method RhelMount(env: Env, w: World, mp: string) returns (w': World)
    ensures w' == RhelMountSpec(env, w, mp)
  {
    w' := RunBatch(env, w, mp, RhelAppends(), false);
    w' := RunBatch(env, w', mp, RhelPrepends(), false);
    w' := RunBatch(env, w', mp, RhelRemoveLines(), false);
    w' := RunBatch(env, w', mp, RhelReplaces(), false);
    w' := RunBatch(env, w', mp, RhelRanges(), false);
  }

  // ---------------------------------------------------------------------------
  // The hooks of each plan

  /** The file-editing hook for a distribution: only `Xen2KVM` overrides the
      do-nothing hooks, and only ubuntu and centos have one. */
  function MountHookSpec(env: Env, w: World, plan: Plan, distro: string, mp: string): World {
    if plan != Xen2KVM then w
    else if distro == "ubuntu" then DebianMountSpec(env, w, mp)
    else if distro == "centos" then RhelMountSpec(env, w, mp)
    else w
  }

  /** A shell command line run inside the guest. */
  function ChrootShell(mp: string, line: string): Cmd {
    ["/usr/sbin/chroot", mp, "/bin/bash", "-c", line]
  }

  const DebianInstall: string := "apt-get install -qy linux-image initramfs-tools grub"
  const RhelInstall: string := "yum install -qy kernel mkinitrd grub"

  /** The command a chroot hook of `Xen2KVM` runs, if any. */
  function ChrootHookCmds(plan: Plan, distro: string, mp: string): seq<Cmd> {
    if plan != Xen2KVM then []
    else if distro == "ubuntu" then [ChrootShell(mp, DebianInstall)]
    else if distro == "centos" then [ChrootShell(mp, RhelInstall)]
    else []
  }

  /** The ramdisk suffix a plan's kernel step ignores. */
  function IgnoreSuffix(plan: Plan): string
    requires plan != BasePlan
  {
    if plan == KVM2Xen then "el5" else "el5xen"
  }

  /** `get_kernel_ramdisk(mp, kernelDir, ramdiskDir)`: the base class returns None,
      which `convert` cannot unpack; the others rebuild the ramdisk and copy the
      pair out. `preload` and `included` are the contents of the default lists of
      `rebuild_ramdisk` at the call. */
  function KernelRamdiskSpec(env: Env, w: World, plan: Plan, mp: string, kernelDir: string, ramdiskDir: string,
                             preload: seq<string>, included: seq<string>): (Outcome<(string, string)>, World)
  {
    if plan == BasePlan then (Raised("TypeError: 'NoneType' object is not iterable"), w)
    else
      var rb := RebuildSpec(env, w, mp, preload, included, IgnoreSuffix(plan));
      if rb.0.Raised? then (Raised(rb.0.msg), rb.1)
      else RetrieveSpec(env, rb.1, mp, kernelDir, ramdiskDir, IgnoreSuffix(plan))
  }

  // ---------------------------------------------------------------------------
  // MigrationPlan.convert

  /** `build_imaging_dirs(upload_dir, full_image=True)`: kernel, ramdisk and mount
      directories under the upload directory. */
  function ImagingDirs(uploadDir: string): (string, string, string) {
    (PathJoin(uploadDir, "kernel"), PathJoin(uploadDir, "ramdisk"), PathJoin(uploadDir, "mount_point"))
  }

  /** Everything `convert` does inside its outer `try`, from the state after the
      mount attempt. */
  function ConvertBody(env: Env, w: World, plan: Plan, image: string, uploadDir: string,
                       mounted: Outcome<Detected>, preload: seq<string>, included: seq<string>)
    : (Outcome<(string, string, string)>, World)
  {
    var (kernelDir, ramdiskDir, mp) := ImagingDirs(uploadDir);
    if mounted.Raised? then (Raised(mounted.msg), w)
    else if Truthy(mounted.value.1) then (Raised("Encountered errors mounting image:" + mounted.value.1.value), w)
    else
      var d := CheckDistro(env, w, mp);
      var w1 := MountHookSpec(env, d.1, plan, d.0, mp);
      var w2 := RemoveChrootEnv(Issue(PrepareChrootEnv(w1, mp), ChrootHookCmds(plan, d.0, mp), false), mp);
      var kr := KernelRamdiskSpec(env, w2, plan, mp, kernelDir, ramdiskDir, preload, included);
      if kr.0.Raised? then (Raised(kr.0.msg), kr.1)
      else (Ok((image, kr.0.value.0, kr.0.value.1)), kr.1)
  }

  /** The reference of `MigrationPlan.convert(image, upload_dir)`: label, mount,
      the body, and `umount` of the mount point whatever the body did. */
  function ConvertSpec(env: Env, w: World, plan: Plan, image: string, uploadDir: string, isRoot: bool,
                       preload: seq<string>, included: seq<string>) : (Outcome<(string, string, string)>, World)
  {
    var mp := ImagingDirs(uploadDir).2;
    var w1 := Issue(w, [["e2label", image, "root"]], false);
    var m := MountImageSpec(env, w1, image, mp, isRoot);
    var body := ConvertBody(env, m.1, plan, image, uploadDir, m.0, preload, included);
    (body.0, Issue(body.1, [["umount", mp]], false))
  }

  /** Every run of `convert` ends by unmounting the mount point, also when
      mounting raised or reported an error or a later step raised; a mount error
      raises before the guest is inspected, so only the label, the mount attempt
      and the unmount are run. */
  lemma ConvertUnmounts(env: Env, w: World, plan: Plan, image: string, uploadDir: string, isRoot: bool,
                        preload: seq<string>, included: seq<string>)
    ensures var res := ConvertSpec(env, w, plan, image, uploadDir, isRoot, preload, included);
      |res.1.log| > 0 && res.1.log[|res.1.log| - 1] == ["umount", ImagingDirs(uploadDir).2]
    ensures var mp := ImagingDirs(uploadDir).2;
      var w1 := w.(log := w.log + [["e2label", image, "root"]]);
      var m := MountImageSpec(env, w1, image, mp, isRoot);
      m.0.Raised? || Truthy(m.0.value.1) ==>
        ConvertSpec(env, w, plan, image, uploadDir, isRoot, preload, included) ==
          (Raised(if m.0.Raised? then m.0.msg else "Encountered errors mounting image:" + m.0.value.1.value),
           m.1.(log := m.1.log + [["umount", mp]]))
  {
  }

  /** After a clean mount the distribution is read once and its hooks run: the
      mount hook first, then the chroot hook between the guest mounts and their
      release. The base plan then raises at the kernel step; the other plans go on
      to it from that state, and a successful body returns the image with the
      kernel and ramdisk the step copied out. */
  lemma ConvertChrootBracket(env: Env, w: World, plan: Plan, image: string, uploadDir: string,
                             mounted: Outcome<Detected>, preload: seq<string>, included: seq<string>)
    requires mounted.Ok? && !Truthy(mounted.value.1)
    ensures var (kernelDir, ramdiskDir, mp) := ImagingDirs(uploadDir);
      var d := CheckDistro(env, w, mp);
      var w1 := MountHookSpec(env, d.1, plan, d.0, mp);
      var w2 := w1.(log := w1.log + ChrootMounts(mp) + ChrootHookCmds(plan, d.0, mp) + ChrootUnmounts(mp));
      var body := ConvertBody(env, w, plan, image, uploadDir, mounted, preload, included);
      var kr := KernelRamdiskSpec(env, w2, plan, mp, kernelDir, ramdiskDir, preload, included);
      (plan == BasePlan ==> body == (Raised("TypeError: 'NoneType' object is not iterable"), w2)) &&
      body.1 == kr.1 && (body.0.Ok? <==> kr.0.Ok?) &&
      (body.0.Ok? ==> body.0.value == (image, kr.0.value.0, kr.0.value.1))
  {
    var mp := ImagingDirs(uploadDir).2;
    var d := CheckDistro(env, w, mp);
    var w1 := MountHookSpec(env, d.1, plan, d.0, mp);
    assert Issue(PrepareChrootEnv(w1, mp), ChrootHookCmds(plan, d.0, mp), false) ==
      w1.(log := w1.log + ChrootMounts(mp) + ChrootHookCmds(plan, d.0, mp));
  }

  /** `get_kernel_ramdisk(mp, kernel_dir, ramdisk_dir)` as `convert` reaches it. */
  method KernelRamdisk(env: Env, w: World, plan: Plan, mp: string, kernelDir: string, ramdiskDir: string,
                       preload: seq<string>, included: seq<string>) returns (r: Outcome<(string, string)>, w': World)
    ensures (r, w') == KernelRamdiskSpec(env, w, plan, mp, kernelDir, ramdiskDir, preload, included)
  {
    if plan == BasePlan {
      return Raised("TypeError: 'NoneType' object is not iterable"), w;
    }
    var rb, p', i';
    rb, w', p', i' := RebuildRamdisk(env, w, mp, preload, included, IgnoreSuffix(plan));
    if rb.Raised? {
      return Raised(rb.msg), w';
    }
    var kr := RetrieveSpec(env, w', mp, kernelDir, ramdiskDir, IgnoreSuffix(plan));
    r, w' := kr.0, kr.1;
  }

  /** `mount_hook` as `convert` dispatches it on the distribution. */
  method MountHook(env: Env, w: World, plan: Plan, distro: string, mp: string) returns (w': World)
    ensures w' == MountHookSpec(env, w, plan, distro, mp)
  {
    w' := w;
    if plan == Xen2KVM && distro == "ubuntu" {
      w' := DebianMount(env, w, mp);
    } else if plan == Xen2KVM && distro == "centos" {
      w' := RhelMount(env, w, mp);
    }
  }

  /** The outer `try` of `MigrationPlan.convert` after the mount attempt: the
      mount check, the hooks, the chroot bracket and the kernel step. */
  method ConvertAfterMount(env: Env, w: World, plan: Plan, image: string, uploadDir: string,
                           m: Outcome<Detected>, preload: seq<string>, included: seq<string>)
    returns (r: Outcome<(string, string, string)>, w': World)
    ensures (r, w') == ConvertBody(env, w, plan, image, uploadDir, m, preload, included)
  {
    var (kernelDir, ramdiskDir, mp) := ImagingDirs(uploadDir);
    w' := w;
    r := Ok((image, "", ""));
    if m.Raised? {
      r := Raised(m.msg);
    } else if m.value.1.Some? && m.value.1.value != "" {
      r := Raised("Encountered errors mounting image:" + m.value.1.value);
    } else {
      var d := CheckDistro(env, w', mp);
      w' := d.1;
      w' := MountHook(env, w', plan, d.0, mp);
      w' := PrepareChrootEnv(w', mp);
      w' := Issue(w', ChrootHookCmds(plan, d.0, mp), false);
      w' := RemoveChrootEnv(w', mp);
      var kr;
      kr, w' := KernelRamdisk(env, w', plan, mp, kernelDir, ramdiskDir, preload, included);
      if kr.Raised? {
        r := Raised(kr.msg);
      } else {
        r := Ok((image, kr.value.0, kr.value.1));
      }
    }
  }

  /** `MigrationPlan.convert(image, upload_dir)` for a plan; whether the caller is
      root and the default lists of `rebuild_ramdisk` are given. */
  method Convert(env: Env, w: World, plan: Plan, image: string, uploadDir: string, isRoot: bool,
                 preload: seq<string>, included: seq<string>) returns (r: Outcome<(string, string, string)>, w': World)
    ensures (r, w') == ConvertSpec(env, w, plan, image, uploadDir, isRoot, preload, included)
  {
    var mp := ImagingDirs(uploadDir).2;
    w' := Issue(w, [["e2label", image, "root"]], false);
    var m;
    m, w' := MountImage(env, w', image, mp, isRoot);
    r, w' := ConvertAfterMount(env, w', plan, image, uploadDir, m, preload, included);
    w' := Issue(w', [["umount", mp]], false);
  }
}
