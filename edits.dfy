/** In-place edits of the files of a mounted guest: the `sed` wrappers, file
    removal and truncation, file creation, and the batch helpers that apply a list
    of rules with every rule path joined under the mount point. */
module Edits {
  import opened Outcomes
  import opened Text
  import opened Machine

  /** `os.path.join(mount_point, _check_mount_path(path))`. */
  function GuestPath(root: string, p: string): string {
    PathJoin(root, CheckMountPath(p))
  }

  // ---------------------------------------------------------------------------
  // The stream editor on one file

  /** `_line_exists_in_file(needle, path)`: some line equals the needle once both
      are stripped of surrounding white space. */
  predicate LineExists(needle: string, lines: seq<string>) {
    exists i | 0 <= i < |lines| :: Strip(lines[i]) == Strip(needle)
  }

  /** `sed -i '$ a\text'`: the text becomes the new last line; an empty file has no
      last line, so nothing is added. */
  function AppendedLine(lines: seq<string>, text: string): seq<string> {
    if lines == [] then [] else lines + [text]
  }

  /** `sed -i '1i text'`: the text becomes the new first line of a non-empty file. */
  function PrependedLine(lines: seq<string>, text: string): seq<string> {
    if lines == [] then [] else [text] + lines
  }

  /** `sed_append(text, path)`: nothing when the file is missing or already holds
      the line; otherwise the line is added at the end. */
  function SedAppend(w: World, text: string, path: string, dry: bool): World {
    if path !in w.fs || LineExists(text, w.fs[path]) then w
    else Edit(w, ["/bin/sed", "-i", "$ a\\" + text, path], path, AppendedLine(w.fs[path], text), dry)
  }

  /** `sed_prepend(text, path)`: as `sed_append`, adding the line at the front. */
  function SedPrepend(w: World, text: string, path: string, dry: bool): World {
    if path !in w.fs || LineExists(text, w.fs[path]) then w
    else Edit(w, ["/bin/sed", "-i", "1i " + text, path], path, PrependedLine(w.fs[path], text), dry)
  }

  /** `sed -i '/pat/d'`: every line matching the pattern is deleted. */
  function WithoutMatches(env: Env, pat: string, lines: seq<string>): (r: seq<string>)
    ensures |r| <= |lines|
    ensures forall i :: 0 <= i < |r| ==> !env.matches(pat, r[i])
    ensures forall i :: 0 <= i < |r| ==> r[i] in lines
  {
    if lines == [] then []
    else
      var rest := WithoutMatches(env, pat, lines[1..]);
      if env.matches(pat, lines[0]) then rest else [lines[0]] + rest
  }

  /** Deleting matching lines a second time deletes nothing more. */
  lemma {:induction false} WithoutMatchesIdempotent(env: Env, pat: string, lines: seq<string>)
    ensures WithoutMatches(env, pat, WithoutMatches(env, pat, lines)) == WithoutMatches(env, pat, lines)
  {
    if lines != [] {
      WithoutMatchesIdempotent(env, pat, lines[1..]);
      var rest := WithoutMatches(env, pat, lines[1..]);
      if !env.matches(pat, lines[0]) {
        assert ([lines[0]] + rest)[1..] == rest;
      }
    }
  }

  /** A line that does not match survives. */
  lemma {:induction false} WithoutMatchesKeeps(env: Env, pat: string, lines: seq<string>, l: string)
    requires l in lines && !env.matches(pat, l)
    ensures l in WithoutMatches(env, pat, lines)
  {
    if lines[0] != l {
      WithoutMatchesKeeps(env, pat, lines[1..], l);
    }
  }

  /** `sed_delete_one(pat, path)`: deletes the matching lines of an existing file. */
  function SedDeleteOne(env: Env, w: World, pat: string, path: string, dry: bool): World {
    if path !in w.fs then w
    else Edit(w, ["/bin/sed", "-i", "/" + pat + "/d", path], path, WithoutMatches(env, pat, w.fs[path]), dry)
  }

  /** `sed -i 's/find/rep/'`: each matching line is rewritten by the substitution. */
  function Substituted(env: Env, find: string, rep: string, lines: seq<string>): (r: seq<string>)
    ensures |r| == |lines|
    ensures forall i :: 0 <= i < |lines| && !env.matches(find, lines[i]) ==> r[i] == lines[i]
    ensures forall i :: 0 <= i < |lines| && env.matches(find, lines[i]) ==> r[i] == env.subst(find, rep, lines[i])
  {
    seq(|lines|, i requires 0 <= i < |lines| =>
      if env.matches(find, lines[i]) then env.subst(find, rep, lines[i]) else lines[i])
  }

  /** `sed_replace(find, rep, path)`. */
  function SedReplace(env: Env, w: World, find: string, rep: string, path: string, dry: bool): World {
    if path !in w.fs then w
    else Edit(w, ["/bin/sed", "-i", "s/" + find + "/" + rep + "/", path], path,
      Substituted(env, find, rep, w.fs[path]), dry)
  }

  /** The closing pattern of a range: sed reads an empty regex as the last regex
      used, which is the opening pattern that started the range. */
  function RangeEnd(from: string, to: string): string {
    if to == "" then from else to
  }

  /** `sed -i '/from/,/to/d'` as sed runs it: outside a range, a line matching
      `from` is deleted and opens a range; inside, every line is deleted and one
      matching the closing pattern closes the range. */
  function RangeDeleted(env: Env, from: string, to: string, lines: seq<string>, inRange: bool): (r: seq<string>)
    ensures |r| <= |lines|
    ensures forall i :: 0 <= i < |r| ==> !env.matches(from, r[i])
  {
    if lines == [] then []
    else if inRange then RangeDeleted(env, from, to, lines[1..], !env.matches(RangeEnd(from, to), lines[0]))
    else if env.matches(from, lines[0]) then RangeDeleted(env, from, to, lines[1..], true)
    else [lines[0]] + RangeDeleted(env, from, to, lines[1..], false)
  }

  /** Once a range is open and no later line closes it, everything to the end of
      the file goes. */
  lemma {:induction false} RangeToEndOfFile(env: Env, from: string, to: string, lines: seq<string>)
    requires forall i :: 0 <= i < |lines| ==> !env.matches(RangeEnd(from, to), lines[i])
    ensures RangeDeleted(env, from, to, lines, true) == []
  {
    if lines != [] {
      RangeToEndOfFile(env, from, to, lines[1..]);
    }
  }

  /** Lines before the first opening line are kept as they are. */
  lemma {:induction false} RangeKeepsPrefix(env: Env, from: string, to: string, pre: seq<string>, rest: seq<string>)
    requires forall i :: 0 <= i < |pre| ==> !env.matches(from, pre[i])
    ensures RangeDeleted(env, from, to, pre + rest, false) == pre + RangeDeleted(env, from, to, rest, false)
  {
    if pre != [] {
      assert (pre + rest)[1..] == pre[1..] + rest;
      RangeKeepsPrefix(env, from, to, pre[1..], rest);
    } else {
      assert pre + rest == rest;
    }
  }

  /** A deletion with an empty closing pattern whose opening line occurs once cuts
      the file at that line. */
  lemma DeleteToEndOfFile(env: Env, from: string, pre: seq<string>, l: string, post: seq<string>)
    requires forall i :: 0 <= i < |pre| ==> !env.matches(from, pre[i])
    requires env.matches(from, l)
    requires forall i :: 0 <= i < |post| ==> !env.matches(from, post[i])
    ensures RangeDeleted(env, from, "", pre + [l] + post, false) == pre
  {
    assert pre + [l] + post == pre + ([l] + post);
    RangeKeepsPrefix(env, from, "", pre, [l] + post);
    RangeOpens(env, from, "", l, post);
    assert RangeEnd(from, "") == from;
    RangeToEndOfFile(env, from, "", post);
  }

  /** A line matching the opening pattern outside a range is deleted and opens one. */
  lemma RangeOpens(env: Env, from: string, to: string, l: string, post: seq<string>)
    requires env.matches(from, l)
    ensures RangeDeleted(env, from, to, [l] + post, false) == RangeDeleted(env, from, to, post, true)
  {
    assert ([l] + post)[1..] == post;
  }

  /** `sed_delete_multi(from, to, path)`. */
  function SedDeleteMulti(env: Env, w: World, from: string, to: string, path: string, dry: bool): World {
    if path !in w.fs then w
    else Edit(w, ["/bin/sed", "-i", "/" + from + "/,/" + to + "/d", path], path,
      RangeDeleted(env, from, to, w.fs[path], false), dry)
  }

  // ---------------------------------------------------------------------------
  // Guard properties of append and prepend

  /** Appending a line twice is appending it once: the second call finds the line
      (or finds the file missing or empty) and changes no file. */
  lemma AppendTwice(w: World, text: string, path: string, dry: bool)
    ensures SedAppend(SedAppend(w, text, path, dry), text, path, dry).fs == SedAppend(w, text, path, dry).fs
    ensures path in w.fs && w.fs[path] != [] ==>
      SedAppend(SedAppend(w, text, path, dry), text, path, dry) == SedAppend(w, text, path, dry)
  {
    var w1 := SedAppend(w, text, path, dry);
    if path in w.fs && !LineExists(text, w.fs[path]) && !dry && w.fs[path] != [] {
      var ls := w1.fs[path];
      assert Strip(ls[|ls| - 1]) == Strip(text);
    }
  }

  /** The same for prepending. */
  lemma PrependTwice(w: World, text: string, path: string, dry: bool)
    ensures SedPrepend(SedPrepend(w, text, path, dry), text, path, dry).fs == SedPrepend(w, text, path, dry).fs
    ensures path in w.fs && w.fs[path] != [] ==>
      SedPrepend(SedPrepend(w, text, path, dry), text, path, dry) == SedPrepend(w, text, path, dry)
  {
    var w1 := SedPrepend(w, text, path, dry);
    if path in w.fs && !LineExists(text, w.fs[path]) && !dry && w.fs[path] != [] {
      assert Strip(w1.fs[path][0]) == Strip(text);
    }
  }

  /** After a (non-dry) append to an existing, non-empty file the line is there,
      and the other files are untouched. */
  lemma AppendEstablishes(w: World, text: string, path: string)
    requires path in w.fs && w.fs[path] != []
    ensures path in SedAppend(w, text, path, false).fs
    ensures LineExists(text, SedAppend(w, text, path, false).fs[path])
    ensures forall p :: p in w.fs && p != path ==>
      p in SedAppend(w, text, path, false).fs && SedAppend(w, text, path, false).fs[p] == w.fs[p]
  {
    var w1 := SedAppend(w, text, path, false);
    if !LineExists(text, w.fs[path]) {
      var ls := w1.fs[path];
      assert Strip(ls[|ls| - 1]) == Strip(text);
    }
  }

  // ---------------------------------------------------------------------------
  // Removing and truncating files

  /** `rm -rf path`: the path and everything below it disappear. */
  function RemoveTree(fs: FileSystem, path: string): (r: FileSystem)
    ensures path !in r
    ensures forall p :: p in r <==> p in fs && p != path && !StartsWith(p, path + "/")
    ensures forall p :: p in r ==> r[p] == fs[p]
  {
    map p | p in fs && p != path && !StartsWith(p, path + "/") :: fs[p]
  }

  /** The reference of the loop in `wildcard_remove`: `rm -rf` on each match in turn. */
  function RemoveEach(w: World, paths: seq<string>, dry: bool): World
    decreases |paths|
  {
    if paths == [] then w
    else
      var w1 := if dry then w else World(w.log + [["/bin/rm", "-rf", paths[0]]], RemoveTree(w.fs, paths[0]));
      RemoveEach(w1, paths[1..], dry)
  }

  /** None of the removed paths is left. */
  lemma {:induction false} RemoveEachRemoves(w: World, paths: seq<string>)
    ensures forall i :: 0 <= i < |paths| ==> paths[i] !in RemoveEach(w, paths, false).fs
    decreases |paths|
  {
    if paths != [] {
      var w1 := World(w.log + [["/bin/rm", "-rf", paths[0]]], RemoveTree(w.fs, paths[0]));
      RemoveEachRemoves(w1, paths[1..]);
      RemoveEachShrinks(w1, paths[1..]);
      assert forall i :: 1 <= i < |paths| ==> paths[i] == paths[1..][i - 1];
    }
  }

  /** Removal never creates a file. */
  lemma {:induction false} RemoveEachShrinks(w: World, paths: seq<string>)
    ensures RemoveEach(w, paths, false).fs.Keys <= w.fs.Keys
    decreases |paths|
  {
    if paths != [] {
      var w1 := World(w.log + [["/bin/rm", "-rf", paths[0]]], RemoveTree(w.fs, paths[0]));
      RemoveEachShrinks(w1, paths[1..]);
    }
  }

  /** `wildcard_remove(pattern)`: every match of the glob is removed with `rm -rf`. */
  method WildcardRemove(env: Env, w: World, pattern: string, dry: bool) returns (w': World)
    ensures w' == RemoveEach(w, env.glob(w.fs, pattern), dry)
  {
    var matches := env.glob(w.fs, pattern);
    w' := w;
    for i := 0 to |matches|
      invariant RemoveEach(w', matches[i..], dry) == RemoveEach(w, matches, dry)
    {
      assert matches[i..][1..] == matches[i + 1..];
      if !dry {
        w' := World(w'.log + [["/bin/rm", "-rf", matches[i]]], RemoveTree(w'.fs, matches[i]));
      }
    }
  }

  /** `truncate -s0 path`. */
  function Truncate(w: World, path: string, dry: bool): World {
    if dry then w
    else World(w.log + [["/usr/bin/truncate", "-s0", path]], if path in w.fs then w.fs[path := []] else w.fs)
  }

  /** The reference of the loop in `wildcard_overwrite_file`. */
  function TruncateEach(w: World, paths: seq<string>, dry: bool): World
    decreases |paths|
  {
    if paths == [] then w else TruncateEach(Truncate(w, paths[0], dry), paths[1..], dry)
  }

  /** Truncation keeps every file and empties each named one. */
  lemma {:induction false} TruncateEachEmpties(w: World, paths: seq<string>)
    ensures TruncateEach(w, paths, false).fs.Keys == w.fs.Keys
    ensures forall i :: 0 <= i < |paths| && paths[i] in w.fs ==> TruncateEach(w, paths, false).fs[paths[i]] == []
    decreases |paths|
  {
    if paths != [] {
      var w1 := Truncate(w, paths[0], false);
      TruncateEachEmpties(w1, paths[1..]);
      if paths[0] in w.fs {
        TruncateEachKeeps(w1, paths[1..], paths[0]);
      }
      assert forall i :: 1 <= i < |paths| ==> paths[i] == paths[1..][i - 1];
    }
  }

  /** An emptied file stays empty under further truncation. */
  lemma {:induction false} TruncateEachKeeps(w: World, paths: seq<string>, p: string)
    requires p in w.fs && w.fs[p] == []
    ensures p in TruncateEach(w, paths, false).fs && TruncateEach(w, paths, false).fs[p] == []
    decreases |paths|
  {
    if paths != [] {
      TruncateEachKeeps(Truncate(w, paths[0], false), paths[1..], p);
    }
  }

  /** `wildcard_overwrite_file(pattern)`. */
  method WildcardOverwrite(env: Env, w: World, pattern: string, dry: bool) returns (w': World)
    ensures w' == TruncateEach(w, env.glob(w.fs, pattern), dry)
  {
    var matches := env.glob(w.fs, pattern);
    w' := w;
    for i := 0 to |matches|
      invariant TruncateEach(w', matches[i..], dry) == TruncateEach(w, matches, dry)
    {
      assert matches[i..][1..] == matches[i + 1..];
      if !dry {
        w' := World(w'.log + [["/usr/bin/truncate", "-s0", matches[i]]],
          if matches[i] in w'.fs then w'.fs[matches[i] := []] else w'.fs);
      }
    }
  }

  /** `overwrite_file(path)`: a path with '*' is expanded; otherwise an existing
      file is truncated and a missing one is left alone. */
  function OverwriteFile(env: Env, w: World, path: string, dry: bool): World {
    if Contains(path, "*") then TruncateEach(w, env.glob(w.fs, path), dry)
    else if path !in w.fs then w
    else Truncate(w, path, dry)
  }

  /** `create_file(path, mount_point, text)`: False when the guest file exists;
      otherwise the file is written with the text and a final newline, and True. */
  function CreateFile(w: World, path: string, root: string, text: string): (res: (bool, World))
    ensures res.0 <==> GuestPath(root, path) !in w.fs
    ensures !res.0 ==> res.1 == w
    ensures res.0 ==> res.1 == w.(fs := w.fs[GuestPath(root, path) := SplitStr(text, "\n")])
  {
    var p := GuestPath(root, path);
    if p in w.fs then (false, w) else (true, w.(fs := w.fs[p := SplitStr(text, "\n")]))
  }

  // ---------------------------------------------------------------------------
  // Rules and batches

  /** One entry of a batch-helper list, by helper:
      `remove_files`, `overwrite_files`, `remove_line_in_files`,
      `replace_line_in_files`, `remove_multiline_in_files`, `append_line_in_files`,
      `prepend_line_in_files`. Paths are relative to the mount point. */
  datatype Rule =
    | RemoveFile(path: string)
    | Overwrite(path: string)
    | RemoveLine(pat: string, path: string)
    | ReplaceLine(find: string, rep: string, path: string)
    | DeleteRange(from: string, to: string, path: string)
    | AppendLine(text: string, path: string)
    | PrependLine(text: string, path: string)

  /** The guest file a rule touches, joined under the mount point. */
  function RulePath(root: string, r: Rule): string {
    GuestPath(root, r.path)
  }

  /** One iteration of a batch helper. */
  function ApplyRule(env: Env, w: World, root: string, r: Rule, dry: bool): World {
    var p := RulePath(root, r);
    match r
    case RemoveFile(_) => RemoveEach(w, env.glob(w.fs, p), dry)
    case Overwrite(_) => OverwriteFile(env, w, p, dry)
    case RemoveLine(pat, _) => SedDeleteOne(env, w, pat, p, dry)
    case ReplaceLine(find, rep, _) => SedReplace(env, w, find, rep, p, dry)
    case DeleteRange(from, to, _) => SedDeleteMulti(env, w, from, to, p, dry)
    case AppendLine(text, _) => SedAppend(w, text, p, dry)
    case PrependLine(text, _) => SedPrepend(w, text, p, dry)
  }

  /** The rules applied one after the other, in list order. */
  function ApplyBatch(env: Env, w: World, root: string, rules: seq<Rule>, dry: bool): World
    decreases |rules|
  {
    if rules == [] then w else ApplyBatch(env, ApplyRule(env, w, root, rules[0], dry), root, rules[1..], dry)
  }

  /** Running two batches in turn is running their concatenation. */
  lemma {:induction false} ApplyBatchConcat(env: Env, w: World, root: string, a: seq<Rule>, b: seq<Rule>, dry: bool)
    ensures ApplyBatch(env, w, root, a + b, dry) == ApplyBatch(env, ApplyBatch(env, w, root, a, dry), root, b, dry)
    decreases |a|
  {
    if a == [] {
      assert a + b == b;
    } else {
      assert (a + b)[0] == a[0];
      assert (a + b)[1..] == a[1..] + b;
      ApplyBatchConcat(env, ApplyRule(env, w, root, a[0], dry), root, a[1..], b, dry);
    }
  }

  /** A dry run changes nothing. */
  lemma {:induction false} ApplyBatchDry(env: Env, w: World, root: string, rules: seq<Rule>)
    ensures ApplyBatch(env, w, root, rules, true) == w
    decreases |rules|
  {
    if rules != [] {
      RemoveEachDry(w, env.glob(w.fs, RulePath(root, rules[0])));
      TruncateEachDry(w, env.glob(w.fs, RulePath(root, rules[0])));
      ApplyBatchDry(env, w, root, rules[1..]);
    }
  }

  lemma {:induction false} RemoveEachDry(w: World, paths: seq<string>)
    ensures RemoveEach(w, paths, true) == w
    decreases |paths|
  {
    if paths != [] {
      RemoveEachDry(w, paths[1..]);
    }
  }

  lemma {:induction false} TruncateEachDry(w: World, paths: seq<string>)
    ensures TruncateEach(w, paths, true) == w
    decreases |paths|
  {
    if paths != [] {
      TruncateEachDry(w, paths[1..]);
    }
  }

  /** A batch helper (`remove_files`, `overwrite_files`, `remove_line_in_files`,
      `replace_line_in_files`, `remove_multiline_in_files`, `append_line_in_files`,
      `prepend_line_in_files`): each rule in list order, at its guest path. */
  method RunBatch(env: Env, w: World, root: string, rules: seq<Rule>, dry: bool) returns (w': World)
    ensures w' == ApplyBatch(env, w, root, rules, dry)
  {
    w' := w;
    for i := 0 to |rules|
      invariant ApplyBatch(env, w', root, rules[i..], dry) == ApplyBatch(env, w, root, rules, dry)
    {
      assert rules[i..][1..] == rules[i + 1..];
      var r := rules[i];
      var p := GuestPath(root, r.path);
      match r
      case RemoveFile(_) =>
        w' := WildcardRemove(env, w', p, dry);
      case Overwrite(_) =>
        if Contains(p, "*") {
          w' := WildcardOverwrite(env, w', p, dry);
        } else if p in w'.fs {
          w' := Truncate(w', p, dry);
        }
      case RemoveLine(pat, _) =>
        w' := SedDeleteOne(env, w', pat, p, dry);
      case ReplaceLine(find, rep, _) =>
        w' := SedReplace(env, w', find, rep, p, dry);
      case DeleteRange(from, to, _) =>
        w' := SedDeleteMulti(env, w', from, to, p, dry);
      case AppendLine(text, _) =>
        w' := SedAppend(w', text, p, dry);
      case PrependLine(text, _) =>
        w' := SedPrepend(w', text, p, dry);
    }
  }
}
