/** Stripping data from a mounted guest before it is imaged: `_perform_cleaning`
    runs the batch helpers in a fixed order, and `remove_user_data`,
    `remove_atmo_data` and `remove_vm_specific_data` are the three plans built on
    it; `yum_uninstall`, `apt_uninstall`, `remove_ldap` and `reset_root_password`
    run package tools inside the chroot bracket. */
module Clean {
  import opened Outcomes
  import opened Text
  import opened Machine
  import opened Edits
  import opened Chroot
  import opened Mount
  import opened Guest

  // ---------------------------------------------------------------------------
  // _perform_cleaning

  /** The keyword arguments of `_perform_cleaning`; None where the caller passes
      nothing. Tuples read as in the source: (pattern, file), (find, replace, file),
      (from, to, file), (line, file). */
  datatype Cleaning = Cleaning(
    rm: Option<seq<string>>,
    overwrite: Option<seq<string>>,
    removeLine: Option<seq<(string, string)>>,
    replace: Option<seq<(string, string, string)>>,
    multiline: Option<seq<(string, string, string)>>,
    append: Option<seq<(string, string)>>,
    execute: Option<seq<Cmd>>)

  /** What a loop over None runs into. */
  const NotIterable: string := "TypeError: 'NoneType' object is not iterable"

  function RemoveRules(ps: seq<string>): seq<Rule> {
    seq(|ps|, i requires 0 <= i < |ps| => RemoveFile(ps[i]))
  }

  function OverwriteRules(ps: seq<string>): seq<Rule> {
    seq(|ps|, i requires 0 <= i < |ps| => Overwrite(ps[i]))
  }

  function RemoveLineRules(ts: seq<(string, string)>): seq<Rule> {
    seq(|ts|, i requires 0 <= i < |ts| => RemoveLine(ts[i].0, ts[i].1))
  }

  function ReplaceRules(ts: seq<(string, string, string)>): seq<Rule> {
    seq(|ts|, i requires 0 <= i < |ts| => ReplaceLine(ts[i].0, ts[i].1, ts[i].2))
  }

  function RangeRules(ts: seq<(string, string, string)>): seq<Rule> {
    seq(|ts|, i requires 0 <= i < |ts| => DeleteRange(ts[i].0, ts[i].1, ts[i].2))
  }

  function AppendRules(ts: seq<(string, string)>): seq<Rule> {
    seq(|ts|, i requires 0 <= i < |ts| => AppendLine(ts[i].0, ts[i].1))
  }

  /** The rules of the five unguarded helpers, in the order `_perform_cleaning`
      calls them. */
  function HeadRules(c: Cleaning): seq<Rule>
    requires c.rm.Some? && c.overwrite.Some? && c.removeLine.Some? && c.replace.Some? && c.multiline.Some?
  {
    RemoveRules(c.rm.value) + OverwriteRules(c.overwrite.value) + RemoveLineRules(c.removeLine.value) +
      ReplaceRules(c.replace.value) + RangeRules(c.multiline.value)
  }

  /** The lines `append_line_in_files` appends; it returns early on None. */
  function TailRules(c: Cleaning): seq<Rule> {
    if c.append.None? then [] else AppendRules(c.append.value)
  }

  /** The reference of `_perform_cleaning`: the helpers in order, each over its
      list; a helper that loops over None raises there, after the helpers before
      it have run. `append_line_in_files` and `execute_chroot_commands` return
      early on a falsy list. */
  function PerformCleaningSpec(env: Env, w: World, root: string, c: Cleaning, dry: bool): (Outcome<()>, World) {
    if c.rm.None? then (Raised(NotIterable), w)
    else
      var w1 := ApplyBatch(env, w, root, RemoveRules(c.rm.value), dry);
      if c.overwrite.None? then (Raised(NotIterable), w1)
      else
        var w2 := ApplyBatch(env, w1, root, OverwriteRules(c.overwrite.value), dry);
        if c.removeLine.None? then (Raised(NotIterable), w2)
        else
          var w3 := ApplyBatch(env, w2, root, RemoveLineRules(c.removeLine.value), dry);
          if c.replace.None? then (Raised(NotIterable), w3)
          else
            var w4 := ApplyBatch(env, w3, root, ReplaceRules(c.replace.value), dry);
            if c.multiline.None? then (Raised(NotIterable), w4)
            else
              var w5 := ApplyBatch(env, w4, root, RangeRules(c.multiline.value), dry);
              var w6 := if c.append.None? || c.append.value == [] then w5
                else ApplyBatch(env, w5, root, AppendRules(c.append.value), dry);
              if c.execute.None? then (Ok(()), w6) else ExecuteChrootSpec(w6, root, c.execute.value, dry)
  }

  /** With the five unguarded lists given, `_perform_cleaning` is one batch: the
      removals, truncations, single-line deletions, replacements, range deletions
      and appends in that order, followed by the chroot commands. */
  lemma PerformCleaningOrder(env: Env, w: World, root: string, c: Cleaning, dry: bool)
    requires c.rm.Some? && c.overwrite.Some? && c.removeLine.Some? && c.replace.Some? && c.multiline.Some?
    ensures var batch := ApplyBatch(env, w, root, HeadRules(c) + TailRules(c), dry);
      PerformCleaningSpec(env, w, root, c, dry) ==
        if c.execute.None? then (Ok(()), batch) else ExecuteChrootSpec(batch, root, c.execute.value, dry)
  {
    var r1, r2, r3, r4, r5 := RemoveRules(c.rm.value), OverwriteRules(c.overwrite.value),
      RemoveLineRules(c.removeLine.value), ReplaceRules(c.replace.value), RangeRules(c.multiline.value);
    ApplyBatchConcat(env, w, root, HeadRules(c), TailRules(c), dry);
    ApplyBatchConcat(env, w, root, r1 + r2 + r3 + r4, r5, dry);
    ApplyBatchConcat(env, w, root, r1 + r2 + r3, r4, dry);
    ApplyBatchConcat(env, w, root, r1 + r2, r3, dry);
    ApplyBatchConcat(env, w, root, r1, r2, dry);
  }

  /** A plan that leaves one of the five unguarded lists out fails at that helper;
      with no removal list nothing at all is done. */
  lemma MissingListRaises(env: Env, w: World, root: string, c: Cleaning, dry: bool)
    requires c.rm.None? || c.overwrite.None? || c.removeLine.None? || c.replace.None? || c.multiline.None?
    ensures PerformCleaningSpec(env, w, root, c, dry).0 == Raised(NotIterable)
    ensures c.rm.None? ==> PerformCleaningSpec(env, w, root, c, dry).1 == w
  {
  }

  /** When the plan appends a single line and runs no commands, that line is
      written after every other edit, so no range deletion of the plan can remove
      it: on a non-empty file the line is there afterwards. */
  lemma AppendComesLast(env: Env, w: World, root: string, c: Cleaning, text: string, file: string)
    requires c.rm.Some? && c.overwrite.Some? && c.removeLine.Some? && c.replace.Some? && c.multiline.Some?
    requires c.append == Some([(text, file)]) && c.execute.None?
    ensures var before := ApplyBatch(env, w, root, HeadRules(c), false);
      var after := PerformCleaningSpec(env, w, root, c, false);
      after == (Ok(()), SedAppend(before, text, GuestPath(root, file), false)) &&
      (GuestPath(root, file) in before.fs && before.fs[GuestPath(root, file)] != [] ==>
        GuestPath(root, file) in after.1.fs && LineExists(text, after.1.fs[GuestPath(root, file)]))
  {
    PerformCleaningOrder(env, w, root, c, false);
    var before := ApplyBatch(env, w, root, HeadRules(c), false);
    var r := AppendLine(text, file);
    assert TailRules(c) == [r];
    ApplyBatchConcat(env, w, root, HeadRules(c), [r], false);
    SingleAppend(env, before, root, text, file);
    if GuestPath(root, file) in before.fs && before.fs[GuestPath(root, file)] != [] {
      AppendEstablishes(before, text, GuestPath(root, file));
    }
  }

  lemma SingleAppend(env: Env, w: World, root: string, text: string, file: string)
    ensures ApplyBatch(env, w, root, [AppendLine(text, file)], false) == SedAppend(w, text, GuestPath(root, file), false)
  {
    assert [AppendLine(text, file)][1..] == [];
  }

  /** `_perform_cleaning(mounted_path, ..., dry_run)`. */
  method PerformCleaning(env: Env, w: World, root: string, c: Cleaning, dry: bool) returns (r: Outcome<()>, w': World)
    ensures (r, w') == PerformCleaningSpec(env, w, root, c, dry)
  {
    w' := w;
    if c.rm.None? {
      return Raised(NotIterable), w';
    }
    w' := RunBatch(env, w', root, RemoveRules(c.rm.value), dry);
    if c.overwrite.None? {
      return Raised(NotIterable), w';
    }
    w' := RunBatch(env, w', root, OverwriteRules(c.overwrite.value), dry);
    if c.removeLine.None? {
      return Raised(NotIterable), w';
    }
    w' := RunBatch(env, w', root, RemoveLineRules(c.removeLine.value), dry);
    if c.replace.None? {
      return Raised(NotIterable), w';
    }
    w' := RunBatch(env, w', root, ReplaceRules(c.replace.value), dry);
    if c.multiline.None? {
      return Raised(NotIterable), w';
    }
    w' := RunBatch(env, w', root, RangeRules(c.multiline.value), dry);
    if c.append.Some? && c.append.value != [] {
      w' := RunBatch(env, w', root, AppendRules(c.append.value), dry);
    }
    if c.execute.None? {
      return Ok(()), w';
    }
    r, w' := ExecuteChrootCommands(w', root, c.execute.value, dry);
  }

  // ---------------------------------------------------------------------------
  // The three plans

  function NotMounted(root: string): string {
    "Expected a mounted path at " + root
  }

  /** The guard all three plans start with: `check_mounted` must find a device. */
  function MountedGuard(env: Env, w: World, root: string): (res: (bool, World))
    ensures res.1 == w.(log := w.log + [["mount"]])
    ensures res.0 <==> CheckMountedSpec(env, w, root).0.Some?
  {
    var res := CheckMountedSpec(env, w, root);
    (res.0.Some?, res.1)
  }

  const UserDel: string := "/usr/sbin/userdel"

  /** The cloud user of a distribution: ubuntu is checked first. */
  function CloudUser(distro: string): (u: Option<string>)
    ensures u.Some? <==> Contains(distro, "ubuntu") || Contains(distro, "centos")
    ensures u == Some("centos") <==> !Contains(distro, "ubuntu") && Contains(distro, "centos")
  {
    if Contains(distro, "ubuntu") then Some("ubuntu")
    else if Contains(distro, "centos") then Some("centos")
    else None
  }

  /** The accounts `remove_user_data` deletes: the cloud user, then the author when
      one is named. */
  function UserDelCmds(cloud: string, author: Option<string>): seq<Cmd> {
    [[UserDel, "-r", cloud]] + if Truthy(author) then [[UserDel, "-r", author.value]] else []
  }

  function UserDataCleaning(execute: seq<Cmd>): Cleaning {
    Cleaning(Some(["home/*"]), Some([]), Some([]),
      Some([("users:x:100:.*", "users:x:100:", "etc/group"),
            ("AllowGroups users root.*", "", "etc/ssh/sshd_config")]),
      Some([]), None, Some(execute))
  }

  /** The reference of `remove_user_data(mounted_path, author, dry_run)`. */
  function RemoveUserDataSpec(env: Env, w: World, root: string, author: Option<string>, dry: bool): (Outcome<()>, World) {
    var g := MountedGuard(env, w, root);
    if !g.0 then (Raised(NotMounted(root)), g.1)
    else
      var d := CheckDistro(env, g.1, root);
      match CloudUser(d.0)
      case None =>
        (Raised("Encountered unknown distro " + d.0 + " -- Cannot guarantee removal of the cloud-user"), d.1)
      case Some(u) => PerformCleaningSpec(env, d.1, root, UserDataCleaning(UserDelCmds(u, author)), dry)
  }

  /** No distribution name DistroOf gives holds the other's name. */
  lemma DistroNames(d: string)
    requires d in {"centos", "ubuntu", "unknown"}
    ensures Contains(d, "ubuntu") <==> d == "ubuntu"
    ensures Contains(d, "centos") <==> d == "centos"
  {
    forall i | 0 <= i <= |d| - 6
      ensures OccursAt(d, "ubuntu", i) <==> d == "ubuntu"
      ensures OccursAt(d, "centos", i) <==> d == "centos"
    {
      assert d[i..i + 6][0] == d[i] && d[i..i + 6][1] == d[i + 1];
    }
    if d == "ubuntu" { assert OccursAt(d, "ubuntu", 0); }
    if d == "centos" { assert OccursAt(d, "centos", 0); }
  }

  /** The command deleting an account inside the guest. */
  function UserDelInChroot(root: string, user: string): Cmd {
    ["/usr/sbin/chroot", root] + [UserDel, "-r", user]
  }

  /** On a mounted guest of a known distribution, `remove_user_data` clears the
      home directories and the group and ssh entries, then deletes the cloud user
      and the author inside the chroot (nothing is run on a dry run) and succeeds;
      on an unknown distribution it raises having read the release files only. */
  lemma UserDataEffect(env: Env, w: World, root: string, author: Option<string>, dry: bool)
    requires CheckMountedSpec(env, w, root).0.Some?
    ensures var w1 := w.(log := w.log + [["mount"], ReleaseCmd(root)]);
      var distro := DistroOf(env.respond(w.log + [["mount"]], ReleaseCmd(root)).out);
      var res := RemoveUserDataSpec(env, w, root, author, dry);
      (distro == "unknown" ==> res.0.Raised? && res.1 == w1) &&
      (distro != "unknown" ==>
        var w2 := ApplyBatch(env, w1, root, HeadRules(UserDataCleaning([])), dry);
        res.0 == Ok(()) &&
        res.1 == w2.(log := w2.log + ChrootMounts(root) +
          (if dry then [] else
            [UserDelInChroot(root, distro)] + (if Truthy(author) then [UserDelInChroot(root, author.value)] else [])) +
          ChrootUnmounts(root)))
  {
    var w0 := w.(log := w.log + [["mount"]]);
    var w1 := w.(log := w.log + [["mount"], ReleaseCmd(root)]);
    assert w0.(log := w0.log + [ReleaseCmd(root)]) == w1;
    var distro := DistroOf(env.respond(w0.log, ReleaseCmd(root)).out);
    DistroNames(distro);
    if distro != "unknown" {
      UserDelIssued(root, distro, author);
      UserCleaningEffect(env, w1, root, UserDelCmds(distro, author), dry);
    }
  }

  /** The cleaning of `remove_user_data` with a list of account deletions. */
  lemma UserCleaningEffect(env: Env, w: World, root: string, cmds: seq<Cmd>, dry: bool)
    requires cmds != [] && !HasEmpty(cmds)
    ensures var w2 := ApplyBatch(env, w, root, HeadRules(UserDataCleaning([])), dry);
      PerformCleaningSpec(env, w, root, UserDataCleaning(cmds), dry) ==
        (Ok(()), w2.(log := w2.log + ChrootMounts(root) + (if dry then [] else ChrootIssued(root, cmds)) + ChrootUnmounts(root)))
  {
    var c := UserDataCleaning(cmds);
    PerformCleaningOrder(env, w, root, c, dry);
    assert HeadRules(c) == HeadRules(UserDataCleaning([]));
    assert TailRules(c) == [];
    assert HeadRules(c) + TailRules(c) == HeadRules(c);
    var batch := ApplyBatch(env, w, root, HeadRules(c), dry);
    ChrootBracket(batch, root, cmds, dry);
    assert c.execute == Some(cmds);
    assert PerformCleaningSpec(env, w, root, c, dry) == ExecuteChrootSpec(batch, root, cmds, dry);
    var o := ExecuteChrootSpec(batch, root, cmds, dry).0;
    assert o.Ok? && o.value == ();
  }

  /** The account deletions are all run through chroot. */
  lemma UserDelIssued(root: string, user: string, author: Option<string>)
    ensures !HasEmpty(UserDelCmds(user, author))
    ensures ChrootIssued(root, UserDelCmds(user, author)) ==
      [UserDelInChroot(root, user)] + (if Truthy(author) then [UserDelInChroot(root, author.value)] else [])
  {
    var cmds := UserDelCmds(user, author);
    LacksCharOf(UserDel, "chroot", 0);
    assert InChroot(root, cmds[0]) == UserDelInChroot(root, user);
    if Truthy(author) {
      assert InChroot(root, cmds[1]) == UserDelInChroot(root, author.value);
      assert cmds[1..][0] == cmds[1] && cmds[1..][1..] == [];
      assert ChrootIssued(root, cmds[1..]) == [UserDelInChroot(root, author.value)];
    } else {
      assert cmds[1..] == [];
    }
  }

  /** `remove_user_data(mounted_path, author, dry_run)`. */
  method RemoveUserData(env: Env, w: World, root: string, author: Option<string>, dry: bool) returns (r: Outcome<()>, w': World)
    ensures (r, w') == RemoveUserDataSpec(env, w, root, author, dry)
  {
    var dev;
    dev, w' := CheckMounted(env, w, root);
    if dev.None? {
      return Raised(NotMounted(root)), w';
    }
    var d := CheckDistro(env, w', root);
    w' := d.1;
    var cloud;
    if Contains(d.0, "ubuntu") {
      cloud := "ubuntu";
    } else if Contains(d.0, "centos") {
      cloud := "centos";
    } else {
      return Raised("Encountered unknown distro " + d.0 + " -- Cannot guarantee removal of the cloud-user"), w';
    }
    var execute := [[UserDel, "-r", cloud]];
    if author.Some? && author.value != "" {
      execute := execute + [[UserDel, "-r", author.value]];
    }
    assert CloudUser(d.0) == Some(cloud);
    assert execute == UserDelCmds(cloud, author);
    r, w' := PerformCleaning(env, w', root, UserDataCleaning(execute), dry);
  }

  const Includedir: string := "#includedir /etc/sudoers.d"

  function AtmoCleaning(): Cleaning {
    Cleaning(
      Some(["etc/rc.local.atmo", "usr/sbin/atmo_boot.py", "var/log/atmo/post-scripts/*",
            "var/log/atmo/*.log", "var/lib/puppet/run/*.pid", "etc/puppet/ssl", "root/.ssh"]),
      Some([]), Some([]),
      Some([(".*vncserver$", "", "etc/rc.local"), (".*shellinbaox.*", "", "etc/rc.local")]),
      Some([("## Atmosphere System", "## End Atmosphere System", "etc/sudoers"),
            ("# Begin Nagios", "# End Nagios", "etc/sudoers"),
            ("# Begin Sensu", "# End Sensu", "etc/sudoers"),
            ("## Atmosphere System", "", "etc/sudoers"),
            ("#includedir \\/etc\\/sudoers.d", "", "etc/sudoers"),
            ("## Atmosphere System", "## End Atmosphere System", "etc/ssh/sshd_config"),
            ("## Atmosphere System", "", "etc/ssh/sshd_config"),
            ("## Atmosphere System", "## End Atmosphere System", "etc/skel/.bashrc")]),
      Some([(Includedir, "etc/sudoers")]),
      None)
  }

  /** The reference of `remove_atmo_data(mounted_path, dry_run)`. */
  function RemoveAtmoDataSpec(env: Env, w: World, root: string, dry: bool): (Outcome<()>, World) {
    var g := MountedGuard(env, w, root);
    if !g.0 then (Raised(NotMounted(root)), g.1)
    else PerformCleaningSpec(env, g.1, root, AtmoCleaning(), dry)
  }

  /** The includedir line of the sudoers file is appended after every range
      deletion, so deleting from the old includedir line to the end of the file
      does not take the new one with it: on a mounted guest whose sudoers file is
      non-empty after the deletions, `remove_atmo_data` succeeds and leaves the
      line in the file. */
  lemma AtmoRestoresIncludedir(env: Env, w: World, root: string)
    requires CheckMountedSpec(env, w, root).0.Some?
    ensures var before := ApplyBatch(env, w.(log := w.log + [["mount"]]), root, HeadRules(AtmoCleaning()), false);
      var sudoers := GuestPath(root, "etc/sudoers");
      var res := RemoveAtmoDataSpec(env, w, root, false);
      res.0 == Ok(()) &&
      (sudoers in before.fs && before.fs[sudoers] != [] ==> sudoers in res.1.fs && LineExists(Includedir, res.1.fs[sudoers]))
  {
    var c := AtmoCleaning();
    assert c.append == Some([(Includedir, "etc/sudoers")]);
    AppendComesLast(env, w.(log := w.log + [["mount"]]), root, c, Includedir, "etc/sudoers");
  }

  /** `remove_atmo_data(mounted_path, dry_run)`. */
  method RemoveAtmoData(env: Env, w: World, root: string, dry: bool) returns (r: Outcome<()>, w': World)
    ensures (r, w') == RemoveAtmoDataSpec(env, w, root, dry)
  {
    var dev;
    dev, w' := CheckMounted(env, w, root);
    if dev.None? {
      return Raised(NotMounted(root)), w';
    }
    r, w' := PerformCleaning(env, w', root, AtmoCleaning(), dry);
  }

  function VmCleaning(): Cleaning {
    Cleaning(
      Some(["mnt/*", "tmp/*", "root/*", "dev/*", "proc/*"]),
      Some(["etc/udev/rules.d/70-persistent-net.rules",
            "lib/udev/rules.d/75-persistent-net-generator.rules",
            "root/.bash_history", "var/log/*"]),
      Some([]),
      Some([("HWADDR=*", "", "etc/sysconfig/network-scripts/ifcfg-eth0"),
            ("MACADDR=*", "", "etc/sysconfig/network-scripts/ifcfg-eth0"),
            ("SELINUX=.*", "SELINUX=disabled", "etc/syslinux/selinux"),
            ("SELINUX=.*", "SELINUX=disabled", "etc/selinux/config"),
            ("users:", "#users:", "etc/cloud/cloud.cfg"),
            ("[ ]* - default", "#  - default", "etc/cloud/cloud.cfg"),
            ("disable_root: true", "disable_root: false", "etc/cloud/cloud.cfg"),
            ("disable_root: 1", "disable_root: 0", "etc/cloud/cloud.cfg"),
            ("ssh_deletekeys:.*1", "ssh_deletekeys: 0", "etc/cloud/cloud.cfg"),
            ("ssh_deletekeys:.*true", "ssh_deletekeys: false", "etc/cloud/cloud.cfg")]),
      Some([]), None, None)
  }

  /** The reference of `remove_vm_specific_data(mounted_path, dry_run)`. */
  function RemoveVmSpecificDataSpec(env: Env, w: World, root: string, dry: bool): (Outcome<()>, World) {
    var g := MountedGuard(env, w, root);
    if !g.0 then (Raised(NotMounted(root)), g.1)
    else PerformCleaningSpec(env, UninstallSpec(env, g.1, root, Apt, ["avahi-daemon"]), root, VmCleaning(), dry)
  }

  /** On a mounted guest `remove_vm_specific_data` purges avahi-daemon first (also on
      a dry run, since the package step ignores the flag), then runs its batch and
      succeeds. */
  lemma VmDataEffect(env: Env, w: World, root: string, dry: bool)
    requires CheckMountedSpec(env, w, root).0.Some?
    ensures var w1 := UninstallSpec(env, w.(log := w.log + [["mount"]]), root, Apt, ["avahi-daemon"]);
      RemoveVmSpecificDataSpec(env, w, root, dry) ==
        (Ok(()), ApplyBatch(env, w1, root, HeadRules(VmCleaning()), dry))
  {
    var w1 := UninstallSpec(env, w.(log := w.log + [["mount"]]), root, Apt, ["avahi-daemon"]);
    PerformCleaningOrder(env, w1, root, VmCleaning(), dry);
    assert HeadRules(VmCleaning()) + TailRules(VmCleaning()) == HeadRules(VmCleaning());
  }

  /** `remove_vm_specific_data(mounted_path, dry_run)`. */
  method RemoveVmSpecificData(env: Env, w: World, root: string, dry: bool) returns (r: Outcome<()>, w': World)
    ensures (r, w') == RemoveVmSpecificDataSpec(env, w, root, dry)
  {
    var dev;
    dev, w' := CheckMounted(env, w, root);
    if dev.None? {
      return Raised(NotMounted(root)), w';
    }
    w' := Uninstall(env, w', root, Apt, ["avahi-daemon"]);
    r, w' := PerformCleaning(env, w', root, VmCleaning(), dry);
  }

  /** Every plan first asks `mount` whether the path is mounted and raises at once
      if it is not: nothing else is run and no file is touched. */
  lemma PlansNeedMount(env: Env, w: World, root: string, author: Option<string>, dry: bool)
    requires CheckMountedSpec(env, w, root).0.None?
    ensures RemoveUserDataSpec(env, w, root, author, dry) == (Raised(NotMounted(root)), w.(log := w.log + [["mount"]]))
    ensures RemoveAtmoDataSpec(env, w, root, dry) == (Raised(NotMounted(root)), w.(log := w.log + [["mount"]]))
    ensures RemoveVmSpecificDataSpec(env, w, root, dry) == (Raised(NotMounted(root)), w.(log := w.log + [["mount"]]))
  {
  }

  // ---------------------------------------------------------------------------
  // Package tools in the chroot

  datatype PackageTool = Yum | Apt

  /** The distribution a tool serves. */
  function ToolDistro(t: PackageTool): string {
    match t
    case Yum => "centos"
    case Apt => "ubuntu"
  }

  /** The chroot command that removes one package. */
  function PackageCmd(t: PackageTool, root: string, item: string): Cmd {
    match t
    case Yum => ["/usr/sbin/chroot", root, "yum", "-qy", "remove", item]
    case Apt => ["/usr/sbin/chroot", root, "apt-get", "-qy", "purge", item]
  }

  function PackageCmds(t: PackageTool, root: string, items: seq<string>): seq<Cmd> {
    seq(|items|, i requires 0 <= i < |items| => PackageCmd(t, root, items[i]))
  }

  /** The reference of `yum_uninstall` and `apt_uninstall`: these ignore the
      dry-run flag. */
  function UninstallSpec(env: Env, w: World, root: string, t: PackageTool, items: seq<string>): World {
    var d := CheckDistro(env, w, root);
    if !Contains(Lower(d.0), ToolDistro(t)) then d.1
    else RemoveChrootEnv(Issue(PrepareChrootEnv(d.1, root), PackageCmds(t, root, items), false), root)
  }

  /** Whether release text makes a tool act: yum on centos; apt on ubuntu, unless
      the text also names centos. */
  predicate ToolRuns(t: PackageTool, out: string) {
    match t
    case Yum => Contains(Lower(out), "centos")
    case Apt => !Contains(Lower(out), "centos") && Contains(Lower(out), "ubuntu")
  }

  lemma ToolRunsOnDistro(t: PackageTool, out: string)
    ensures Contains(Lower(DistroOf(out)), ToolDistro(t)) <==> ToolRuns(t, out)
  {
    var d := DistroOf(out);
    assert Lower(d) == d;
    DistroNames(d);
  }

  /** A tool removes packages exactly when the release text names its distribution,
      and then only inside the chroot bracket; otherwise only the release files are
      read. No file is touched. */
  lemma UninstallEffect(env: Env, w: World, root: string, t: PackageTool, items: seq<string>)
    ensures var runs := ToolRuns(t, env.respond(w.log, ReleaseCmd(root)).out);
      UninstallSpec(env, w, root, t, items) == w.(log := w.log + [ReleaseCmd(root)] +
        if runs then ChrootMounts(root) + PackageCmds(t, root, items) + ChrootUnmounts(root) else [])
  {
    ToolRunsOnDistro(t, env.respond(w.log, ReleaseCmd(root)).out);
  }

  /** One more package command extends the log by that command. */
  lemma PackageStep(start: World, w: World, t: PackageTool, root: string, items: seq<string>, i: int)
    requires 0 <= i < |items| && w == start.(log := start.log + PackageCmds(t, root, items[..i]))
    ensures w.(log := w.log + [PackageCmd(t, root, items[i])]) ==
      start.(log := start.log + PackageCmds(t, root, items[..i + 1]))
  {
    var a, c := PackageCmds(t, root, items[..i]), [PackageCmd(t, root, items[i])];
    assert PackageCmds(t, root, items[..i + 1]) == a + c;
    assert start.log + a + c == start.log + (a + c);
  }

  /** `yum_uninstall(mounted_path, items)` and `apt_uninstall(mounted_path, items)`. */
  method Uninstall(env: Env, w: World, root: string, t: PackageTool, items: seq<string>) returns (w': World)
    ensures w' == UninstallSpec(env, w, root, t, items)
  {
    var d := CheckDistro(env, w, root);
    w' := d.1;
    if !Contains(Lower(d.0), ToolDistro(t)) {
      return;
    }
    w' := PrepareChrootEnv(w', root);
    ghost var start := w';
    for i := 0 to |items|
      invariant w' == start.(log := start.log + PackageCmds(t, root, items[..i]))
    {
      PackageStep(start, w', t, root, items, i);
      var res := Run(env, w', PackageCmd(t, root, items[i]), false);
      w' := res.1;
    }
    assert items[..|items|] == items;
    w' := RemoveChrootEnv(w', root);
  }

  /** `remove_ldap(mounted_path)`: removes openldap inside the chroot bracket. */
  function RemoveLdap(w: World, root: string): (w': World)
    ensures w'.fs == w.fs
    ensures w'.log == w.log + ChrootMounts(root) + [["/usr/sbin/chroot", root, "yum", "remove", "-qy", "openldap"]] +
      ChrootUnmounts(root)
  {
    RemoveChrootEnv(Issue(PrepareChrootEnv(w, root), [["/usr/sbin/chroot", root, "yum", "remove", "-qy", "openldap"]], false), root)
  }

  /** `reset_root_password(mounted_path, new_password)`: sets the root password
      through passwd inside the chroot bracket. */
  function ResetRootPassword(w: World, root: string, password: string): (w': World)
    ensures w'.fs == w.fs
    ensures w'.log == w.log + ChrootMounts(root) +
      [["/usr/sbin/chroot", root, "/bin/bash", "-c", "echo " + password + " | passwd root --stdin"]] +
      ChrootUnmounts(root)
  {
    var cmd := ["/usr/sbin/chroot", root, "/bin/bash", "-c", "echo " + password + " | passwd root --stdin"];
    RemoveChrootEnv(Issue(PrepareChrootEnv(w, root), [cmd], false), root)
  }
}
