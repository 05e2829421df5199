/** The few Python `str` operations the parser and the coder rely on: slicing with
    clamped bounds, `strip()`, ASCII `lower()`, `in`, and `split(sep)` with its
    inverse `sep.join(...)`. */
module PyStr {
  import opened Base

  /** `str.isspace()` for one character: the Unicode whitespace Python strips. */
  predicate IsSpace(c: char) {
    ('\t' <= c <= '\r') || ('\U{001C}' <= c <= '\U{001F}') || c == ' '
    || c == '\U{0085}' || c == '\U{00A0}' || c == '\U{1680}'
    || ('\U{2000}' <= c <= '\U{200A}') || c == '\U{2028}' || c == '\U{2029}'
    || c == '\U{202F}' || c == '\U{205F}' || c == '\U{3000}'
  }

  /** `s[:n]`: Python clamps the bound to the length. */
  function Take(s: string, n: nat): (r: string)
    ensures |r| == if n <= |s| then n else |s|
    ensures r <= s
  {
    if n <= |s| then s[..n] else s
  }

  /** `s[n:]`, clamped likewise. */
  function Drop(s: string, n: nat): (r: string)
    ensures n <= |s| ==> r == s[n..]
    ensures |s| < n ==> r == []
  {
    if n <= |s| then s[n..] else []
  }

  /** Index of the first non-space character at or after `i`. */
  function SkipSpaces(s: string, i: nat): (j: nat)
    requires i <= |s|
    ensures i <= j <= |s|
    ensures forall k :: i <= k < j ==> IsSpace(s[k])
    ensures j == |s| || !IsSpace(s[j])
    decreases |s| - i
  {
    if i < |s| && IsSpace(s[i]) then SkipSpaces(s, i + 1) else i
  }

  /** Index just after the last non-space character at or after `lo`. */
  function TrimEnd(s: string, lo: nat, j: nat): (e: nat)
    requires lo <= j <= |s|
    ensures lo <= e <= j
    ensures forall k :: e <= k < j ==> IsSpace(s[k])
    ensures e == lo || !IsSpace(s[e - 1])
    decreases j
  {
    if lo < j && IsSpace(s[j - 1]) then TrimEnd(s, lo, j - 1) else j
  }

  /** `s.strip()`: `s` without its leading and trailing whitespace. */
  function Strip(s: string): (r: string)
    ensures r == [] <==> forall k :: 0 <= k < |s| ==> IsSpace(s[k])
    ensures r != [] ==> !IsSpace(r[0]) && !IsSpace(r[|r| - 1])
    ensures (s == [] || (!IsSpace(s[0]) && !IsSpace(s[|s| - 1]))) ==> r == s
    ensures exists i, j :: 0 <= i <= j <= |s| && r == s[i..j] &&
              (forall k :: 0 <= k < i ==> IsSpace(s[k])) && (forall k :: j <= k < |s| ==> IsSpace(s[k]))
  {
    var i := SkipSpaces(s, 0);
    var j := TrimEnd(s, i, |s|);
    s[i..j]
  }

  /** ASCII `lower()` of one character. */
  function LowerChar(c: char): (d: char)
    ensures 'A' <= c <= 'Z' ==> d as int == c as int + 32
    ensures !('A' <= c <= 'Z') ==> d == c
  {
    if 'A' <= c <= 'Z' then (c as int + 32) as char else c
  }

  /** `s.lower()`, restricted to ASCII letters. */
  function Lower(s: string): string {
    seq(|s|, k requires 0 <= k < |s| => LowerChar(s[k]))
  }

  /** `sub` occurs in `s` starting at index `i`. */
  predicate OccursAt(sub: string, s: string, i: nat) {
    i + |sub| <= |s| && s[i..i + |sub|] == sub
  }

  /** `sub in s`. */
  predicate Contains(s: string, sub: string) {
    exists i :: 0 <= i <= |s| && OccursAt(sub, s, i)
  }

  /** `s.find(sub, start)`: the first occurrence at or after `start`. */
  function Find(s: string, sub: string, start: nat): (r: Option<nat>)
    requires sub != []
    ensures r.Some? ==> start <= r.value && OccursAt(sub, s, r.value)
    ensures r.Some? ==> forall k :: start <= k < r.value ==> !OccursAt(sub, s, k)
    ensures r.None? ==> forall k :: start <= k ==> !OccursAt(sub, s, k)
    decreases |s| - start
  {
    if |s| < start + |sub| then None
    else if OccursAt(sub, s, start) then Some(start)
    else Find(s, sub, start + 1)
  }

  /** `s.rfind(sub)` restricted to starts below `bound`. */
  function FindLastBelow(s: string, sub: string, bound: nat): (r: Option<nat>)
    ensures r.Some? ==> r.value < bound && OccursAt(sub, s, r.value)
    ensures r.Some? ==> forall k :: r.value < k < bound ==> !OccursAt(sub, s, k)
    ensures r.None? ==> forall k :: 0 <= k < bound ==> !OccursAt(sub, s, k)
  {
    if bound == 0 then None
    else if OccursAt(sub, s, bound - 1) then Some(bound - 1)
    else FindLastBelow(s, sub, bound - 1)
  }

  /** `s.rfind(sub)`: the last occurrence. */
  function FindLast(s: string, sub: string): (r: Option<nat>)
    ensures r.Some? ==> OccursAt(sub, s, r.value)
    ensures r.Some? ==> forall k :: r.value < k ==> !OccursAt(sub, s, k)
    ensures r.None? ==> forall k :: 0 <= k ==> !OccursAt(sub, s, k)
  {
    FindLastBelow(s, sub, |s| + 1)
  }

  /** `s[start:].split(sep)`: cut at each occurrence found scanning left to right. */
  function SplitFrom(s: string, sep: string, start: nat): (parts: seq<string>)
    requires sep != [] && start <= |s|
    ensures |parts| >= 1
    decreases |s| - start
  {
    match Find(s, sep, start)
    case None => [s[start..]]
    case Some(i) => [s[start..i]] + SplitFrom(s, sep, i + |sep|)
  }

  /** `s.split(sep)`. */
  function Split(s: string, sep: string): (parts: seq<string>)
    requires sep != []
    ensures |parts| >= 1
  {
    SplitFrom(s, sep, 0)
  }

  /** `sep.join(parts)`. */
  function Join(parts: seq<string>, sep: string): string {
    if parts == [] then []
    else if |parts| == 1 then parts[0]
    else parts[0] + sep + Join(parts[1..], sep)
  }

  lemma {:induction false} SplitFromJoin(s: string, sep: string, start: nat)
    requires sep != [] && start <= |s|
    ensures Join(SplitFrom(s, sep, start), sep) == s[start..]
    decreases |s| - start
  {
    match Find(s, sep, start)
    case None =>
    case Some(i) =>
      var rest := SplitFrom(s, sep, i + |sep|);
      SplitFromJoin(s, sep, i + |sep|);
      JoinCons(s[start..i], rest, sep);
      SliceAround(s, sep, start, i);
  }

  lemma JoinCons(x: string, rest: seq<string>, sep: string)
    requires rest != []
    ensures Join([x] + rest, sep) == x + sep + Join(rest, sep)
  {
    assert ([x] + rest)[1..] == rest;
  }

  lemma SliceAround(s: string, sep: string, start: nat, i: nat)
    requires start <= i && OccursAt(sep, s, i)
    ensures s[start..] == s[start..i] + sep + s[i + |sep|..]
  {
  }

  lemma {:induction false} SplitFromParts(s: string, sep: string, start: nat)
    requires sep != [] && start <= |s|
    ensures forall p :: p in SplitFrom(s, sep, start) ==> !Contains(p, sep)
    decreases |s| - start
  {
    match Find(s, sep, start)
    case None =>
      NoOccurrenceInSlice(s, sep, start, |s|);
      assert s[start..|s|] == s[start..];
    case Some(i) =>
      SplitFromParts(s, sep, i + |sep|);
      NoOccurrenceInSlice(s, sep, start, i);
  }

  /** No occurrence starts in [start, end) of `s` fully inside the slice: then the slice
      does not contain `sep`. */
  lemma NoOccurrenceInSlice(s: string, sep: string, start: nat, end: nat)
    requires start <= end <= |s|
    requires forall k :: start <= k < end ==> !OccursAt(sep, s, k)
    requires sep != []
    ensures !Contains(s[start..end], sep)
  {
    var p := s[start..end];
    forall i | 0 <= i <= |p|
      ensures !OccursAt(sep, p, i)
    {
      if i + |sep| <= |p| {
        assert !OccursAt(sep, s, start + i);
        var here, there := p[i..i + |sep|], s[start + i..start + i + |sep|];
        forall t | 0 <= t < |here|
          ensures here[t] == there[t]
        {
          assert here[t] == p[i + t] == s[start + i + t];
        }
        assert here == there;
      }
    }
  }

  /** `sep.join(s.split(sep)) == s`, and no part contains `sep`. */
  lemma SplitJoin(s: string, sep: string)
    requires sep != []
    ensures Join(Split(s, sep), sep) == s
    ensures forall p :: p in Split(s, sep) ==> !Contains(p, sep)
  {
    SplitFromJoin(s, sep, 0);
    SplitFromParts(s, sep, 0);
  }
}
