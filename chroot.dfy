/** The chroot bracket: `prepare_chroot_env` mounts /proc, /sys, /dev and
    /etc/resolv.conf into the guest, `remove_chroot_env` unmounts them, and
    `execute_chroot_commands` runs commands between the two, releasing in a
    `finally`. */
module Chroot {
  import opened Outcomes
  import opened Text
  import opened Machine

  /** The four mounts `prepare_chroot_env` issues, in order. */
  function ChrootMounts(mp: string): seq<Cmd> {
    [["mount", "-t", "proc", "/proc", PathJoin(mp, "proc/")],
     ["mount", "-t", "sysfs", "/sys", PathJoin(mp, "sys/")],
     ["mount", "-o", "bind", "/dev", PathJoin(mp, "dev/")],
     ["mount", "--bind", "/etc/resolv.conf", PathJoin(mp, "etc/resolv.conf")]]
  }

  /** The four unmounts `remove_chroot_env` issues, in order. */
  function ChrootUnmounts(mp: string): seq<Cmd> {
    [["umount", PathJoin(mp, "proc/")],
     ["umount", PathJoin(mp, "sys/")],
     ["umount", PathJoin(mp, "dev/")],
     ["umount", PathJoin(mp, "etc/resolv.conf")]]
  }

  /** Every directory `prepare_chroot_env` mounts is unmounted by `remove_chroot_env`. */
  lemma UnmountsMatchMounts(mp: string)
    ensures |ChrootMounts(mp)| == |ChrootUnmounts(mp)| == 4
    ensures forall i :: 0 <= i < 4 ==>
      ChrootUnmounts(mp)[i] == ["umount", ChrootMounts(mp)[i][|ChrootMounts(mp)[i]| - 1]]
  {
  }

  /** `prepare_chroot_env(mp)`; these commands ignore the dry-run flag. */
  function PrepareChrootEnv(w: World, mp: string): (w': World)
    ensures w' == w.(log := w.log + ChrootMounts(mp))
  {
    Issue(w, ChrootMounts(mp), false)
  }

  /** `remove_chroot_env(mp)`. */
  function RemoveChrootEnv(w: World, mp: string): (w': World)
    ensures w' == w.(log := w.log + ChrootUnmounts(mp))
  {
    Issue(w, ChrootUnmounts(mp), false)
  }

  /** A command is run through `/usr/sbin/chroot mp` unless its program name
      already mentions chroot. */
  function InChroot(mp: string, c: Cmd): (r: Cmd)
    requires c != []
    ensures Contains(c[0], "chroot") ==> r == c
    ensures !Contains(c[0], "chroot") ==> r == ["/usr/sbin/chroot", mp] + c
  {
    if Contains(c[0], "chroot") then c else ["/usr/sbin/chroot", mp] + c
  }

  /** The command lists in order, up to the first empty one: those the loop
      reaches before `cmd_list[0]` raises. */
  function ChrootIssued(mp: string, cmds: seq<Cmd>): seq<Cmd>
    decreases |cmds|
  {
    if cmds == [] || cmds[0] == [] then [] else [InChroot(mp, cmds[0])] + ChrootIssued(mp, cmds[1..])
  }

  /** Some command list is empty. */
  predicate HasEmpty(cmds: seq<Cmd>) {
    exists i | 0 <= i < |cmds| :: cmds[i] == []
  }

  /** The loop of `execute_chroot_commands` over the remaining command lists. */
  function ChrootLoop(w: World, mp: string, cmds: seq<Cmd>, dry: bool): (Outcome<()>, World)
    decreases |cmds|
  {
    if cmds == [] then (Ok(()), w)
    else if cmds[0] == [] then (Raised("IndexError: list index out of range"), w)
    else ChrootLoop(Issue(w, [InChroot(mp, cmds[0])], dry), mp, cmds[1..], dry)
  }

  /** The reference of `execute_chroot_commands`: nothing for no commands;
      otherwise prepare, the loop, and the release whatever the loop did. */
  function ExecuteChrootSpec(w: World, mp: string, cmds: seq<Cmd>, dry: bool): (Outcome<()>, World) {
    if cmds == [] then (Ok(()), w)
    else
      var res := ChrootLoop(PrepareChrootEnv(w, mp), mp, cmds, dry);
      (res.0, RemoveChrootEnv(res.1, mp))
  }

  /** The loop issues the reachable commands (none on a dry run) and raises exactly
      when one command list is empty. */
  lemma {:induction false} ChrootLoopEffect(w: World, mp: string, cmds: seq<Cmd>, dry: bool)
    ensures ChrootLoop(w, mp, cmds, dry).1 == w.(log := w.log + if dry then [] else ChrootIssued(mp, cmds))
    ensures ChrootLoop(w, mp, cmds, dry).0.Raised? <==> HasEmpty(cmds)
    decreases |cmds|
  {
    if cmds != [] && cmds[0] != [] {
      var w1 := Issue(w, [InChroot(mp, cmds[0])], dry);
      ChrootLoopEffect(w1, mp, cmds[1..], dry);
      assert HasEmpty(cmds) <==> HasEmpty(cmds[1..]) by {
        if HasEmpty(cmds) {
          var i :| 0 <= i < |cmds| && cmds[i] == [];
          assert cmds[1..][i - 1] == [];
        }
        if HasEmpty(cmds[1..]) {
          var i :| 0 <= i < |cmds[1..]| && cmds[1..][i] == [];
          assert cmds[i + 1] == [];
        }
      }
    } else if cmds != [] {
      assert cmds[0] == [];
    }
  }

  /** With commands, the guest mounts come first and are always released last,
      also when a command list is empty and the loop raises; between them come the
      commands, prefixed with chroot where needed. The files are not touched. */
  lemma ChrootBracket(w: World, mp: string, cmds: seq<Cmd>, dry: bool)
    requires cmds != []
    ensures ExecuteChrootSpec(w, mp, cmds, dry).1 == w.(log := w.log + ChrootMounts(mp) +
      (if dry then [] else ChrootIssued(mp, cmds)) + ChrootUnmounts(mp))
    ensures ExecuteChrootSpec(w, mp, cmds, dry).0.Raised? <==> HasEmpty(cmds)
  {
    ChrootLoopEffect(PrepareChrootEnv(w, mp), mp, cmds, dry);
  }

  /** Without an empty command list, every command is issued in order. */
  lemma {:induction false} ChrootIssuedAll(mp: string, cmds: seq<Cmd>)
    requires !HasEmpty(cmds)
    ensures |ChrootIssued(mp, cmds)| == |cmds|
    ensures forall i :: 0 <= i < |cmds| ==> ChrootIssued(mp, cmds)[i] == InChroot(mp, cmds[i])
    decreases |cmds|
  {
    if cmds != [] {
      assert forall i :: 0 <= i < |cmds| - 1 ==> cmds[1..][i] == cmds[i + 1];
      ChrootIssuedAll(mp, cmds[1..]);
      assert forall i :: 1 <= i < |cmds| ==> cmds[i] == cmds[1..][i - 1];
    }
  }

  /** `execute_chroot_commands(cmds, mp, dry_run)`. */
  method ExecuteChrootCommands(w: World, mp: string, cmds: seq<Cmd>, dry: bool) returns (r: Outcome<()>, w': World)
    ensures (r, w') == ExecuteChrootSpec(w, mp, cmds, dry)
  {
    if cmds == [] {
      return Ok(()), w;
    }
    w' := PrepareChrootEnv(w, mp);
    ghost var start := w';
    r := Ok(());
    var i := 0;
    while i < |cmds|
      invariant 0 <= i <= |cmds|
      invariant r.Ok? ==> ChrootLoop(w', mp, cmds[i..], dry) == ChrootLoop(start, mp, cmds, dry)
      invariant r.Raised? ==> (r, w') == ChrootLoop(start, mp, cmds, dry)
      decreases |cmds| - i, r.Ok?
    {
      var c := cmds[i];
      if c == [] {
        r := Raised("IndexError: list index out of range");
        break;
      }
      if !Contains(c[0], "chroot") {
        c := ["/usr/sbin/chroot", mp] + c;
      }
      assert cmds[i..][1..] == cmds[i + 1..];
      w' := Issue(w', [c], dry);
      i := i + 1;
    }
    if r.Ok? {
      assert cmds[i..] == [];
    }
    w' := RemoveChrootEnv(w', mp);
  }
}
