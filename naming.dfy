/** `_format_meta_name`, defined identically by the eucalyptus and the
    VirtualBox drivers: the name under which an image is bundled or exported. */
module Naming {
  import opened Outcomes
  import opened Text

  /** The name part: every ' ' becomes '_' and every '/' becomes '-'; all other
      characters stay where they are. */
  function SanitizeName(name: string): (r: string)
    ensures |r| == |name|
    ensures forall i :: 0 <= i < |r| ==> r[i] != ' ' && r[i] != '/'
    ensures forall i :: 0 <= i < |r| ==> name[i] != ' ' && name[i] != '/' ==> r[i] == name[i]
    ensures forall i :: 0 <= i < |r| ==> (name[i] == ' ' <==> r[i] == '_' && name[i] != '_')
    ensures forall i :: 0 <= i < |r| ==> name[i] == '/' ==> r[i] == '-'
  {
    var spaced := ReplaceAll(name, " ", "_");
    ReplaceCharIsMap(name, ' ', '_');
    ReplaceCharIsMap(spaced, '/', '-');
    ReplaceAll(spaced, "/", "-")
  }

  /** Sanitising twice changes nothing more. */
  lemma SanitizeIdempotent(name: string)
    ensures SanitizeName(SanitizeName(name)) == SanitizeName(name)
  {
  }

  /** The timestamp part: the given one when truthy, else the clock reading `now`
      (formatted by the caller as `%m%d%Y_%H%M%S`). */
  function Stamp(ts: Option<string>, now: string): string {
    if Truthy(ts) then ts.value else now
  }

  /** `_format_meta_name(name, owner, timestamp_str, creator)` with the clock as
      the parameter `now`: creator, owner, sanitised name and timestamp joined by '_'. */
  function FormatMetaName(name: string, owner: string, ts: Option<string>, now: string, creator: string): (r: string)
    ensures StartsWith(r, creator + "_" + owner + "_")
    ensures EndsWith(r, "_" + Stamp(ts, now))
    ensures |r| == |creator| + |owner| + |name| + |Stamp(ts, now)| + 3
  {
    var r := creator + "_" + owner + "_" + SanitizeName(name) + "_" + Stamp(ts, now);
    assert r == (creator + "_" + owner + "_") + (SanitizeName(name) + "_" + Stamp(ts, now));
    assert r == (creator + "_" + owner + "_" + SanitizeName(name)) + ("_" + Stamp(ts, now));
    r
  }

  /** The meta name is the join at '_' of its four parts, the middle one split. */
  lemma MetaNameJoin(san: string, owner: string, day: string, time: string, creator: string)
    ensures Join("_", [creator, owner] + SplitStr(san, "_") + [day, time]) ==
      creator + "_" + owner + "_" + san + "_" + (day + "_" + time)
  {
    var mid := SplitStr(san, "_");
    JoinSplit(san, "_");
    JoinCons("_", creator, [owner]);
    assert Join("_", [creator, owner]) == creator + "_" + owner;
    JoinConcat("_", [creator, owner], mid);
    var front := Join("_", [creator, owner] + mid);
    assert front == creator + "_" + owner + "_" + san;
    JoinCons("_", day, [time]);
    assert Join("_", [day, time]) == day + "_" + time;
    JoinConcat("_", [creator, owner] + mid, [day, time]);
  }

  lemma LackAll(creator: string, owner: string, mid: seq<string>, day: string, time: string)
    requires !Contains(creator, "_") && !Contains(owner, "_")
    requires !Contains(day, "_") && !Contains(time, "_")
    requires forall k :: 0 <= k < |mid| ==> !Contains(mid[k], "_")
    ensures var pieces := [creator, owner] + mid + [day, time];
      forall k :: 0 <= k < |pieces| ==> !Contains(pieces[k], "_")
  {
    var pieces := [creator, owner] + mid + [day, time];
    forall k | 0 <= k < |pieces| ensures !Contains(pieces[k], "_") {
      if 2 <= k < |pieces| - 2 {
        assert pieces[k] == mid[k - 2];
      }
    }
  }

  /** Only the name is sanitised: a creator, owner and a timestamp `day_time`
      free of '_' come back as the outer pieces of a split at '_', and the
      pieces in between join back to the sanitised name. */
  lemma MetaNameSplit(name: string, owner: string, day: string, time: string, creator: string)
    requires !Contains(creator, "_") && !Contains(owner, "_")
    requires !Contains(day, "_") && !Contains(time, "_")
    ensures var pieces := SplitStr(FormatMetaName(name, owner, Some(day + "_" + time), "", creator), "_");
      |pieces| >= 5 &&
      pieces[..2] == [creator, owner] && pieces[|pieces| - 2..] == [day, time] &&
      Join("_", pieces[2..|pieces| - 2]) == SanitizeName(name)
  {
    var san := SanitizeName(name);
    var mid := SplitStr(san, "_");
    JoinSplit(san, "_");
    SplitPiecesLackSep(san, "_");
    var pieces := [creator, owner] + mid + [day, time];
    MetaNameJoin(san, owner, day, time, creator);
    assert day + "_" + time != "";
    assert FormatMetaName(name, owner, Some(day + "_" + time), "", creator) == Join("_", pieces);
    LackAll(creator, owner, mid, day, time);
    SplitJoinChar(pieces, '_');
    assert pieces[..2] == [creator, owner];
    assert pieces[|pieces| - 2..] == [day, time];
    assert pieces[2..|pieces| - 2] == mid;
  }
}
