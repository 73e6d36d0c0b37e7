/** Finding an unused block device: `_get_next_loop` probes /dev/loop0 to
    /dev/loop6 with `losetup`, `_get_next_nbd` probes /dev/nbd1 to /dev/nbd15 with
    `fdisk -l`; each returns the first slot whose probe says it is free. */
module Devices {
  import opened Outcomes
  import opened Text
  import opened Machine

  /** The two kinds of device the image code attaches images to. */
  datatype Kind = Loop | Nbd

  /** The first slot probed. */
  function FirstSlot(kind: Kind): nat {
    match kind
    case Loop => 0
    case Nbd => 1
  }

  /** One past the last slot probed (`MAX_COUNT = 7`, `MAX_PART = 16`). */
  function EndSlot(kind: Kind): nat {
    match kind
    case Loop => 7
    case Nbd => 16
  }

  /** `'/dev/loop%s' % k` and `'/dev/nbd%s' % k`. */
  function DeviceName(kind: Kind, k: nat): string {
    match kind
    case Loop => "/dev/loop" + NatToString(k)
    case Nbd => "/dev/nbd" + NatToString(k)
  }

  /** The command that probes slot `k`. */
  function Probe(kind: Kind, k: nat): Cmd {
    match kind
    case Loop => ["losetup", DeviceName(kind, k)]
    case Nbd => ["fdisk", "-l", DeviceName(kind, k)]
  }

  /** The probe shows the slot unused: losetup's error mentions "no such device"
      in any case; fdisk prints nothing for an unattached nbd device. */
  predicate FreeReply(kind: Kind, rep: Reply) {
    match kind
    case Loop => Contains(Lower(rep.err), "no such device")
    case Nbd => rep.out == ""
  }

  /** The error raised when every slot is taken. */
  function AllInUse(kind: Kind): string {
    match kind
    case Loop => "Error: All /dev/loop* devices are in use"
    case Nbd => "Error: All /dev/nbd* devices are in use"
  }

  /** The probes of slots `lo` up to, not including, `hi`, in order. */
  function Probes(kind: Kind, lo: nat, hi: nat): seq<Cmd>
    decreases hi - lo
  {
    if lo >= hi then [] else [Probe(kind, lo)] + Probes(kind, lo + 1, hi)
  }

  /** The reference search: probe slot `k`, then the next, until one is free or the
      slots run out. */
  function NextFree(env: Env, w: World, kind: Kind, k: nat): (Outcome<string>, World)
    decreases EndSlot(kind) - k
  {
    if k >= EndSlot(kind) then (Raised(AllInUse(kind)), w)
    else
      var res := Run(env, w, Probe(kind, k), false);
      if FreeReply(kind, res.0) then (Ok(DeviceName(kind, k)), res.1)
      else NextFree(env, res.1, kind, k + 1)
  }

  /** Slot `k` answers "free" when probed after the probes of the slots before it. */
  predicate FreeAt(env: Env, w: World, kind: Kind, k: nat) {
    FreeReply(kind, env.respond(w.log + Probes(kind, FirstSlot(kind), k), Probe(kind, k)))
  }

  /** Probing one more slot appends that slot's probe. */
  lemma ProbesAppendOne(kind: Kind, lo: nat, hi: nat)
    requires lo <= hi
    ensures Probes(kind, lo, hi + 1) == Probes(kind, lo, hi) + [Probe(kind, hi)]
    decreases hi - lo
  {
    if lo < hi {
      ProbesAppendOne(kind, lo + 1, hi);
    }
  }

  /** The lowest slot at or after `k` that answers "free", or the end of the range. */
  function FirstFree(env: Env, w: World, kind: Kind, k: nat): (j: nat)
    requires k <= EndSlot(kind)
    ensures k <= j <= EndSlot(kind)
    ensures j < EndSlot(kind) ==> FreeAt(env, w, kind, j)
    ensures forall i :: k <= i < j ==> !FreeAt(env, w, kind, i)
    decreases EndSlot(kind) - k
  {
    if k == EndSlot(kind) || FreeAt(env, w, kind, k) then k else FirstFree(env, w, kind, k + 1)
  }

  /** What the search leaves when it stops at slot `j`: the device and the probes of
      the slots up to `j`, or the error and every probe. */
  function Stopped(w: World, kind: Kind, j: nat): (Outcome<string>, World) {
    if j < EndSlot(kind) then (Ok(DeviceName(kind, j)), w.(log := w.log + Probes(kind, FirstSlot(kind), j + 1)))
    else (Raised(AllInUse(kind)), w.(log := w.log + Probes(kind, FirstSlot(kind), EndSlot(kind))))
  }

  /** The search from slot `k`, once the slots before it have been probed, stops at
      the lowest free slot at or after `k`. */
  lemma {:induction false} NextFreeFrom(env: Env, w0: World, w: World, kind: Kind, k: nat)
    requires FirstSlot(kind) <= k <= EndSlot(kind)
    requires w == w0.(log := w0.log + Probes(kind, FirstSlot(kind), k))
    ensures NextFree(env, w, kind, k) == Stopped(w0, kind, FirstFree(env, w0, kind, k))
    decreases EndSlot(kind) - k
  {
    if k < EndSlot(kind) {
      var w1 := w.(log := w.log + [Probe(kind, k)]);
      ProbesAppendOne(kind, FirstSlot(kind), k);
      assert w1 == w0.(log := w0.log + Probes(kind, FirstSlot(kind), k + 1));
      if !FreeAt(env, w0, kind, k) {
        NextFreeFrom(env, w0, w1, kind, k + 1);
      }
    }
  }

  /** The whole search returns the lowest slot whose probe shows it free, having
      probed exactly the slots up to it, and raises only when no slot is free. */
  lemma LowestFreeSlot(env: Env, w: World, kind: Kind)
    ensures NextFree(env, w, kind, FirstSlot(kind)) == Stopped(w, kind, FirstFree(env, w, kind, FirstSlot(kind)))
    ensures NextFree(env, w, kind, FirstSlot(kind)).0.Raised? <==>
      forall j :: FirstSlot(kind) <= j < EndSlot(kind) ==> !FreeAt(env, w, kind, j)
  {
    assert w == w.(log := w.log + Probes(kind, FirstSlot(kind), FirstSlot(kind)));
    NextFreeFrom(env, w, w, kind, FirstSlot(kind));
  }

  /** `_get_next_loop()`. */
  method GetNextLoop(env: Env, w: World) returns (r: Outcome<string>, w': World)
    ensures (r, w') == NextFree(env, w, Loop, 0)
    ensures (r, w') == Stopped(w, Loop, FirstFree(env, w, Loop, 0))
  {
    LowestFreeSlot(env, w, Loop);
    var count := 0;
    w' := w;
    while count < 7
      invariant 0 <= count <= 7
      invariant NextFree(env, w', Loop, count) == NextFree(env, w, Loop, 0)
    {
      var dev := "/dev/loop" + NatToString(count);
      var res := Run(env, w', ["losetup", dev], false);
      w' := res.1;
      if Contains(Lower(res.0.err), "no such device") {
        return Ok(dev), w';
      }
      count := count + 1;
    }
    return Raised("Error: All /dev/loop* devices are in use"), w';
  }

  /** `_get_next_nbd()`. */
  method GetNextNbd(env: Env, w: World) returns (r: Outcome<string>, w': World)
    ensures (r, w') == NextFree(env, w, Nbd, 1)
    ensures (r, w') == Stopped(w, Nbd, FirstFree(env, w, Nbd, 1))
  {
    LowestFreeSlot(env, w, Nbd);
    var count := 1;
    w' := w;
    while count < 16
      invariant 1 <= count <= 16
      invariant NextFree(env, w', Nbd, count) == NextFree(env, w, Nbd, 1)
    {
      var res := Run(env, w', ["fdisk", "-l", "/dev/nbd" + NatToString(count)], false);
      w' := res.1;
      if res.0.out == "" {
        return Ok("/dev/nbd" + NatToString(count)), w';
      }
      count := count + 1;
    }
    return Raised("Error: All /dev/nbd* devices are in use"), w';
  }

  /** `_losetup_extract_device(loop_str)`: the last space-separated word of the
      `losetup -fv` output, stripped; output without a space is only stripped. */
  function LosetupExtractDevice(loopStr: string): (r: string)
    ensures !Contains(loopStr, " ") ==> r == Strip(loopStr)
  {
    var words := SplitStr(loopStr, " ");
    assert !Contains(loopStr, " ") ==> words == [loopStr] by {
      if !Contains(loopStr, " ") { SplitAbsent(loopStr, " "); }
    }
    Strip(words[|words| - 1])
  }

  /** The slices of `pre + " " + dev` after a cut inside `pre`, and after the space. */
  lemma SpaceCut(pre: string, dev: string, i: nat)
    requires i <= |pre|
    ensures OccursAt(pre + " " + dev, " ", |pre|)
    ensures (pre + " " + dev)[|pre| + 1..] == dev
    ensures i < |pre| ==> (pre + " " + dev)[i + 1..] == pre[i + 1..] + " " + dev
  {
    var s := pre + " " + dev;
    assert s[|pre|..|pre| + 1] == " ";
  }

  /** The last piece of a split is the text after the last separator. */
  lemma {:induction false} SplitLastPiece(pre: string, dev: string)
    requires !Contains(dev, " ")
    ensures var p := SplitStr(pre + " " + dev, " "); p[|p| - 1] == dev
    decreases |pre|
  {
    var s := pre + " " + dev;
    SpaceCut(pre, dev, 0);
    var i := Find(s, " ");
    assert i <= |pre|;
    SpaceCut(pre, dev, i);
    var tail := SplitStr(s[i + 1..], " ");
    assert SplitStr(s, " ") == [s[..i]] + tail;
    if i == |pre| {
      SplitAbsent(dev, " ");
    } else {
      SplitLastPiece(pre[i + 1..], dev);
    }
  }

  /** Whatever precedes it, the word after the last space is the device. */
  lemma LosetupExtractsLastWord(pre: string, dev: string)
    requires !Contains(dev, " ")
    ensures LosetupExtractDevice(pre + " " + dev) == Strip(dev)
  {
    SplitLastPiece(pre, dev);
  }
}
