/** The Python string operations the model relies on (ASCII semantics). */
module Text {

  predicate StartsWith(s: string, p: string) {
    |p| <= |s| && s[..|p|] == p
  }

  predicate EndsWith(s: string, p: string) {
    |p| <= |s| && s[|s| - |p|..] == p
  }

  /** `p` occurs in `s` starting at index `i`. */
  predicate OccursAt(s: string, p: string, i: int) {
    0 <= i <= |s| - |p| && s[i..i + |p|] == p
  }

  /** Python's `p in s` for strings. */
  predicate Contains(s: string, p: string) {
    exists i | 0 <= i <= |s| - |p| :: OccursAt(s, p, i)
  }

  lemma OccursShift(s: string, p: string, i: int)
    requires |s| > 0 && i >= 1
    ensures OccursAt(s, p, i) <==> OccursAt(s[1..], p, i - 1)
  {
    if 0 <= i <= |s| - |p| {
      assert s[i..i + |p|] == s[1..][i - 1..i - 1 + |p|];
    }
  }

  /** Index of the first occurrence of `p` in `s`, or -1 (Python's `str.find`). */
  function Find(s: string, p: string): (r: int)
    ensures r == -1 || 0 <= r <= |s| - |p|
    ensures r == -1 <==> !Contains(s, p)
    ensures r >= 0 ==> OccursAt(s, p, r)
    ensures r >= 0 ==> forall j :: 0 <= j < r ==> !OccursAt(s, p, j)
    decreases |s|
  {
    if |s| < |p| then
      assert forall i :: !OccursAt(s, p, i);
      -1
    else if s[..|p|] == p then
      assert OccursAt(s, p, 0);
      0
    else
      var k := Find(s[1..], p);
      assert !OccursAt(s, p, 0);
      assert forall i :: i >= 1 ==> (OccursAt(s, p, i) <==> OccursAt(s[1..], p, i - 1)) by {
        forall i | i >= 1 { OccursShift(s, p, i); }
      }
      if k < 0 then
        assert forall i :: !OccursAt(s, p, i) by {
          forall i ensures !OccursAt(s, p, i) {
            if i >= 1 { assert !OccursAt(s[1..], p, i - 1); }
          }
        }
        -1
      else
        assert OccursAt(s, p, k + 1);
        k + 1
  }

  /** Python's `s.split(sep)` for a non-empty separator. */
  function SplitStr(s: string, sep: string): (r: seq<string>)
    requires sep != []
    ensures |r| >= 1
    decreases |s|
  {
    var i := Find(s, sep);
    if i < 0 then [s] else [s[..i]] + SplitStr(s[i + |sep|..], sep)
  }

  /** Python's `sep.join(parts)`. */
  function Join(sep: string, parts: seq<string>): string {
    if |parts| == 0 then ""
    else if |parts| == 1 then parts[0]
    else parts[0] + sep + Join(sep, parts[1..])
  }

  lemma JoinCons(sep: string, h: string, tail: seq<string>)
    requires |tail| >= 1
    ensures Join(sep, [h] + tail) == h + sep + Join(sep, tail)
  {
    assert ([h] + tail)[1..] == tail;
  }

  /** A found separator cuts the string into the text before it, itself and
      the text after it. */
  lemma FindCuts(s: string, sep: string)
    requires Find(s, sep) >= 0
    ensures var i := Find(s, sep); s == s[..i] + sep + s[i + |sep|..]
  {
    var i := Find(s, sep);
    CutThree(s, i, i + |sep|);
  }

  /** A string is the concatenation of its three slices at two cut points. */
  lemma CutThree(s: string, i: int, j: int)
    requires 0 <= i <= j <= |s|
    ensures s == s[..i] + s[i..j] + s[j..]
  {
    assert s[..j] == s[..i] + s[i..j];
  }

  /** One step of a split that finds the separator: the text before it, then
      the split of the text after it. */
  lemma SplitStep(s: string, sep: string)
    requires sep != [] && Find(s, sep) >= 0
    ensures var i := Find(s, sep);
      SplitStr(s, sep) == [s[..i]] + SplitStr(s[i + |sep|..], sep) &&
      s == s[..i] + sep + s[i + |sep|..]
  {
    FindCuts(s, sep);
  }

  /** Joining the pieces of a split with the same separator gives back the string. */
  lemma {:induction false} JoinSplit(s: string, sep: string)
    requires sep != []
    ensures Join(sep, SplitStr(s, sep)) == s
    decreases |s|
  {
    var i := Find(s, sep);
    if i >= 0 {
      var head, rest := s[..i], s[i + |sep|..];
      SplitStep(s, sep);
      JoinSplit(rest, sep);
      JoinCons(sep, head, SplitStr(rest, sep));
    }
  }

  /** No piece of a split contains the separator. */
  lemma {:induction false} SplitPiecesLackSep(s: string, sep: string)
    requires sep != []
    ensures forall k :: 0 <= k < |SplitStr(s, sep)| ==> !Contains(SplitStr(s, sep)[k], sep)
    decreases |s|
  {
    var i := Find(s, sep);
    if i >= 0 {
      SplitPiecesLackSep(s[i + |sep|..], sep);
      var head := s[..i];
      forall j ensures !OccursAt(head, sep, j) {
        if 0 <= j <= |head| - |sep| {
          assert head[j..j + |sep|] == s[j..j + |sep|];
          assert !OccursAt(s, sep, j);
        }
      }
    }
  }

  /** A string none of whose characters is `c` does not contain `[c]`. */
  lemma CharAbsent(s: string, c: char)
    requires forall i :: 0 <= i < |s| ==> s[i] != c
    ensures !Contains(s, [c])
  {
    forall i ensures !OccursAt(s, [c], i) {
      if 0 <= i < |s| {
        assert s[i..i + 1][0] == s[i];
      }
    }
  }

  /** A string lacking some character of `p` does not contain `p`. */
  lemma LacksCharOf(s: string, p: string, k: int)
    requires 0 <= k < |p| && forall i :: 0 <= i < |s| ==> s[i] != p[k]
    ensures !Contains(s, p)
  {
    forall i ensures !OccursAt(s, p, i) {
      if 0 <= i <= |s| - |p| {
        assert s[i..i + |p|][k] == s[i + k];
      }
    }
  }

  /** A string contains the one-character string `[c]` exactly when one of its
      characters is `c`. */
  lemma ContainsChar(s: string, c: char)
    ensures Contains(s, [c]) <==> exists i :: 0 <= i < |s| && s[i] == c
  {
    if exists i :: 0 <= i < |s| && s[i] == c {
      var i :| 0 <= i < |s| && s[i] == c;
      assert s[i..i + 1] == [c];
      assert OccursAt(s, [c], i);
    }
    if !exists i :: 0 <= i < |s| && s[i] == c {
      CharAbsent(s, c);
    }
  }

  /** Concatenating strings that lack a character gives one that lacks it. */
  lemma ConcatLacksChar(a: string, b: string, c: char)
    requires !Contains(a, [c]) && !Contains(b, [c])
    ensures !Contains(a + b, [c])
  {
    ContainsChar(a, c);
    ContainsChar(b, c);
    ContainsChar(a + b, c);
    forall i | 0 <= i < |a + b| ensures (a + b)[i] != c {
      if i < |a| { assert (a + b)[i] == a[i]; } else { assert (a + b)[i] == b[i - |a|]; }
    }
  }

  /** The first `c` of `h + [c] + t` is the one after `h` when `h` lacks it. */
  lemma FindCharAfter(h: string, c: char, t: string)
    requires !Contains(h, [c])
    ensures Find(h + [c] + t, [c]) == |h|
  {
    var s := h + [c] + t;
    assert s[|h|..|h| + 1] == [c];
    assert OccursAt(s, [c], |h|);
    var r := Find(s, [c]);
    if r < |h| {
      assert s[r..r + 1] == h[r..r + 1];
      assert OccursAt(h, [c], r);
    }
  }

  /** Splitting at a one-character separator undoes joining pieces that lack it. */
  lemma {:induction false} SplitJoinChar(pieces: seq<string>, c: char)
    requires |pieces| >= 1
    requires forall k :: 0 <= k < |pieces| ==> !Contains(pieces[k], [c])
    ensures SplitStr(Join([c], pieces), [c]) == pieces
    decreases |pieces|
  {
    if |pieces| == 1 {
      assert Find(pieces[0], [c]) == -1;
    } else {
      var h, tail := pieces[0], pieces[1..];
      assert pieces == [h] + tail;
      JoinCons([c], h, tail);
      var t := Join([c], tail);
      FindCharAfter(h, c, t);
      assert (h + [c] + t)[..|h|] == h;
      assert (h + [c] + t)[|h| + 1..] == t;
      SplitJoinChar(tail, c);
    }
  }

  /** A string without the separator splits into itself alone. */
  lemma SplitAbsent(s: string, sep: string)
    requires sep != [] && !Contains(s, sep)
    ensures SplitStr(s, sep) == [s]
  {
  }

  /** A string with the separator splits into at least two pieces. */
  lemma SplitPresent(s: string, sep: string)
    requires sep != [] && Contains(s, sep)
    ensures |SplitStr(s, sep)| >= 2
  {
    SplitStep(s, sep);
  }

  /** The last piece of a join of two or more pieces follows the last separator. */
  lemma {:induction false} JoinLast(sep: string, parts: seq<string>)
    requires |parts| >= 2
    ensures Join(sep, parts) == Join(sep, parts[..|parts| - 1]) + sep + parts[|parts| - 1]
    decreases |parts|
  {
    if |parts| > 2 {
      var tail := parts[1..];
      JoinLast(sep, tail);
      assert tail[..|tail| - 1] == parts[..|parts| - 1][1..];
      JoinCons(sep, parts[0], parts[..|parts| - 1][1..]);
      assert [parts[0]] + parts[..|parts| - 1][1..] == parts[..|parts| - 1];
    }
  }

  /** Joining two non-empty lists of pieces puts one separator between their joins. */
  lemma {:induction false} JoinConcat(sep: string, a: seq<string>, b: seq<string>)
    requires |a| >= 1 && |b| >= 1
    ensures Join(sep, a + b) == Join(sep, a) + sep + Join(sep, b)
    decreases |a|
  {
    if |a| == 1 {
      JoinCons(sep, a[0], b);
    } else {
      assert (a + b)[1..] == a[1..] + b;
      JoinCons(sep, a[0], a[1..] + b);
      JoinConcat(sep, a[1..], b);
      JoinCons(sep, a[0], a[1..]);
      assert [a[0]] + a[1..] == a;
    }
  }

  /** A pattern whose first character does not recur in it, following text that
      lacks it, is the first split point. */
  lemma SplitOnce(base: string, p: string, rest: string)
    requires p != [] && !Contains(base, p)
    requires forall k :: 1 <= k < |p| ==> p[k] != p[0]
    ensures SplitStr(base + p + rest, p) == [base] + SplitStr(rest, p)
  {
    var s := base + p + rest;
    var n := |base|;
    forall j | 0 <= j < n ensures !OccursAt(s, p, j) {
      if j + |p| <= n {
        assert base[j..j + |p|] == s[j..j + |p|];
        assert !OccursAt(base, p, j);
      } else if j + |p| <= |s| {
        assert s[n] == p[0] && s[j..j + |p|][n - j] == s[n];
      }
    }
    assert s[n..n + |p|] == p;
    assert OccursAt(s, p, n);
    assert Find(s, p) == n;
    assert s[..n] == base && s[n + |p|..] == rest;
  }

  /** Removing a pattern as in `SplitOnce` that ends the string. */
  lemma DropTrailing(base: string, p: string)
    requires p != [] && !Contains(base, p)
    requires forall k :: 1 <= k < |p| ==> p[k] != p[0]
    ensures SplitStr(base + p, p) == [base, ""]
  {
    SplitOnce(base, p, "");
    assert base + p + "" == base + p;
    assert SplitStr("", p) == [""];
  }

  /** Python's `s.replace(pat, rep)`: every non-overlapping occurrence, left to right. */
  function ReplaceAll(s: string, pat: string, rep: string): string
    requires pat != []
  {
    Join(rep, SplitStr(s, pat))
  }

  /** Replacing a trailing occurrence as in `DropTrailing` by "" removes it. */
  lemma ReplaceTrailing(base: string, p: string)
    requires p != [] && !Contains(base, p)
    requires forall k :: 1 <= k < |p| ==> p[k] != p[0]
    ensures ReplaceAll(base + p, p, "") == base
  {
    DropTrailing(base, p);
    assert Join("", [base, ""]) == base + "" + "";
  }

  /** Replacing a string that does not occur leaves the input unchanged. */
  lemma ReplaceAbsent(s: string, pat: string, rep: string)
    requires pat != [] && !Contains(s, pat)
    ensures ReplaceAll(s, pat, rep) == s
  {
  }

  /** Replaces every `a` by `b`, character by character. */
  function MapChar(s: string, a: char, b: char): (r: string)
    ensures |r| == |s|
    ensures forall i :: 0 <= i < |s| ==> r[i] == if s[i] == a then b else s[i]
  {
    seq(|s|, i requires 0 <= i < |s| => if s[i] == a then b else s[i])
  }

  lemma MapCharConcat(x: string, y: string, a: char, b: char)
    ensures MapChar(x + y, a, b) == MapChar(x, a, b) + MapChar(y, a, b)
  {
  }

  /** A string without `a` is its own character map. */
  lemma MapCharAbsent(s: string, a: char, b: char)
    requires forall k :: 0 <= k < |s| ==> s[k] != a
    ensures MapChar(s, a, b) == s
  {
  }

  /** Mapping a string cut at an `a` maps the `a` to `b` and the text before it
      to itself, when that text holds no `a`. */
  lemma MapCharAround(head: string, a: char, b: char, rest: string)
    requires forall k :: 0 <= k < |head| ==> head[k] != a
    ensures MapChar(head + [a] + rest, a, b) == head + [b] + MapChar(rest, a, b)
  {
    MapCharAbsent(head, a, b);
    MapCharConcat(head + [a], rest, a, b);
    MapCharConcat(head, [a], a, b);
  }

  /** The characters before the first `a` are not `a`. */
  lemma BeforeFindChar(s: string, a: char)
    ensures forall k :: 0 <= k < |s| && (Find(s, [a]) < 0 || k < Find(s, [a])) ==> s[k] != a
  {
    forall k | 0 <= k < |s| && (Find(s, [a]) < 0 || k < Find(s, [a])) ensures s[k] != a {
      assert !OccursAt(s, [a], k);
    }
  }

  /** Python's one-character `replace` is the character map. */
  lemma {:induction false} ReplaceCharIsMap(s: string, a: char, b: char)
    ensures ReplaceAll(s, [a], [b]) == MapChar(s, a, b)
    decreases |s|
  {
    var i := Find(s, [a]);
    BeforeFindChar(s, a);
    if i < 0 {
      MapCharAbsent(s, a, b);
    } else {
      var head, rest := s[..i], s[i + 1..];
      SplitStep(s, [a]);
      ReplaceCharIsMap(rest, a, b);
      JoinCons([b], head, SplitStr(rest, [a]));
      MapCharAround(head, a, b, rest);
    }
  }

  function LowerChar(c: char): char {
    if 'A' <= c <= 'Z' then (c as int + 32) as char else c
  }

  /** Python's `str.lower()` restricted to ASCII letters. */
  function Lower(s: string): (r: string)
    ensures |r| == |s|
  {
    seq(|s|, i requires 0 <= i < |s| => LowerChar(s[i]))
  }

  /** Lower-cased text never contains a needle that holds an upper-case letter. */
  lemma LowerLacksUpper(s: string, p: string, k: nat)
    requires k < |p| && 'A' <= p[k] <= 'Z'
    ensures !Contains(Lower(s), p)
  {
    forall i ensures !OccursAt(Lower(s), p, i) {
      if 0 <= i <= |s| - |p| {
        assert Lower(s)[i..i + |p|][k] == Lower(s)[i + k];
      }
    }
  }

  /** The characters Python's `str.strip()` removes. */
  predicate IsSpace(c: char) {
    c == ' ' || c == '\t' || c == '\n' || c == '\r' || c as int == 11 || c as int == 12
  }

  function StripLeft(s: string): (r: string)
    ensures |r| <= |s| && s[|s| - |r|..] == r
    ensures r == [] || !IsSpace(r[0])
  {
    if s != [] && IsSpace(s[0]) then StripLeft(s[1..]) else s
  }

  function StripRight(s: string): (r: string)
    ensures |r| <= |s| && s[..|r|] == r
    ensures r == [] || !IsSpace(r[|r| - 1])
  {
    if s != [] && IsSpace(s[|s| - 1]) then StripRight(s[..|s| - 1]) else s
  }

  /** Python's `str.strip()`. */
  function Strip(s: string): string {
    StripRight(StripLeft(s))
  }

  /** Number of leading characters that are not white space. */
  function WordLen(s: string): (n: nat)
    ensures n <= |s|
    ensures forall i :: 0 <= i < n ==> !IsSpace(s[i])
    ensures n < |s| ==> IsSpace(s[n])
  {
    if s == [] || IsSpace(s[0]) then 0 else 1 + WordLen(s[1..])
  }

  /** Python's `str.split()` with no argument: the maximal runs of non-space characters. */
  function Tokens(s: string): (r: seq<string>)
    ensures forall k :: 0 <= k < |r| ==> r[k] != []
    decreases |s|
  {
    if s == [] then []
    else if IsSpace(s[0]) then Tokens(s[1..])
    else
      var n := WordLen(s);
      [s[..n]] + Tokens(s[n..])
  }

  predicate IsDigit(c: char) {
    '0' <= c <= '9'
  }

  /** Python's `str.isdigit()` for ASCII text. */
  predicate IsDigits(s: string) {
    |s| > 0 && forall i :: 0 <= i < |s| ==> IsDigit(s[i])
  }

  function DigitValue(c: char): nat
    requires IsDigit(c)
  {
    c as int - '0' as int
  }

  /** Python's `int(s)` for a string of decimal digits. */
  function DigitsValue(s: string): nat
    requires forall i :: 0 <= i < |s| ==> IsDigit(s[i])
  {
    if |s| == 0 then 0 else DigitsValue(s[..|s| - 1]) * 10 + DigitValue(s[|s| - 1])
  }

  /** Python's `str(n)` for a natural number. */
  function NatToString(n: nat): string
  {
    if n < 10 then [('0' as int + n) as char]
    else NatToString(n / 10) + [('0' as int + n % 10) as char]
  }

  /** `str` and `int` are inverse on natural numbers. */
  lemma {:induction false} NatToStringRoundTrip(n: nat)
    ensures IsDigits(NatToString(n))
    ensures DigitsValue(NatToString(n)) == n
  {
    if n >= 10 {
      NatToStringRoundTrip(n / 10);
      var s := NatToString(n);
      assert s[..|s| - 1] == NatToString(n / 10);
    }
  }
}
