/** The delimiter table and the splitter that cuts a line before every sigil.

    The splitting pattern is the alternation of the table's sigils in table order, so at a
    given position the FIRST sigil of the table that occurs there wins, whatever its length;
    the scan then resumes after the matched sigil. */
module Sigils {
  import opened Base
  import opened PyStr
  import opened PyDict

  /** The module-level `delimiters` table: field name and sigil, in declaration order. */
  const Delimiters: Dict<string> := [
    ("tags", "#"), ("project", "["), ("new-project", "[["), ("notes", "::"),
    ("heading", "=="), ("deadline", ">"), ("checklist-items", "*"), ("due", ">"),
    ("block", "``")
  ]

  /** The sigils a parser splits on once `block` is popped, in table order. */
  const LineSigils: seq<string> := ["#", "[", "[[", "::", "==", ">", "*", ">"]

  /** Every sigil of a usable table is non-empty. */
  ghost predicate WellFormed(table: Dict<string>) {
    UniqueKeys(table) && forall i :: 0 <= i < |table| ==> table[i].1 != []
  }

  /** The module-level table object that `Parser.__init__` receives and mutates. */
  class DelimiterTable {
    var entries: Dict<string>

    constructor ()
      ensures entries == Delimiters
    {
      entries := Delimiters;
    }
  }

  lemma DelimitersWellFormed()
    ensures WellFormed(Delimiters)
  {
    var ks := KeyList(Delimiters);
    assert ks == ["tags", "project", "new-project", "notes", "heading", "deadline",
                  "checklist-items", "due", "block"];
  }

  /** `delimiters.pop('block')` removes the last entry and leaves exactly the eight line
      sigils, in order. */
  lemma {:induction false} PoppedTable()
    ensures "block" in Keys(Delimiters)
    ensures Pop(Delimiters, "block") == Delimiters[..8]
    ensures ValueList(Pop(Delimiters, "block")) == LineSigils
    ensures "block" !in Keys(Pop(Delimiters, "block"))
    ensures WellFormed(Pop(Delimiters, "block"))
  {
    PopBlockPrefix();
    PrefixValues();
    PrefixWellFormed();
  }

  lemma PrefixValues()
    ensures "block" in Keys(Delimiters)
    ensures ValueList(Delimiters[..8]) == LineSigils
  {
    BlockKey();
    var vs := ValueList(Delimiters[..8]);
    forall i | 0 <= i < 8 ensures vs[i] == LineSigils[i] {
      assert Delimiters[..8][i] == Delimiters[i];
    }
  }

  lemma BlockKey()
    ensures "block" in Keys(Delimiters)
  {
    KeysIndex(Delimiters);
    assert Delimiters[8].0 == "block";
  }

  lemma PrefixWellFormed()
    ensures WellFormed(Delimiters[..8])
    ensures "block" !in Keys(Delimiters[..8])
  {
    var d := Delimiters;
    var p := d[..8];
    DelimitersWellFormed();
    KeysIndex(p);
    assert forall i :: 0 <= i < |p| ==> p[i] == d[i];
    assert forall i :: 0 <= i < |p| ==> p[i].0 != "block";
  }

  lemma PopBlockPrefix()
    ensures Pop(Delimiters, "block") == Delimiters[..8]
  {
    var d := Delimiters;
    assert forall i :: 0 <= i < 8 ==> d[i].0 != "block";
    PopNotFirst(d, "block", 8);
    assert d[8..] == [("block", "``")];
    assert Pop(d[8..], "block") == [];
  }

  /** Popping a key that first appears at index `n` keeps everything before it. */
  lemma {:induction false} PopNotFirst<V>(d: Dict<V>, k: string, n: nat)
    requires n <= |d|
    requires forall i :: 0 <= i < n ==> d[i].0 != k
    ensures Pop(d, k) == d[..n] + Pop(d[n..], k)
  {
    if n > 0 {
      var tail := d[1..];
      assert forall i :: 0 <= i < n - 1 ==> tail[i].0 != k by {
        forall i | 0 <= i < n - 1 ensures tail[i] == d[i + 1] { }
      }
      PopNotFirst(tail, k, n - 1);
      PopKeep(d, k);
      PrefixCons(d, n, Pop(d[n..], k));
    }
  }

  lemma PopKeep<V>(d: Dict<V>, k: string)
    requires d != [] && d[0].0 != k
    ensures Pop(d, k) == [d[0]] + Pop(d[1..], k)
  {
  }

  lemma PrefixCons<V>(d: Dict<V>, n: nat, rest: Dict<V>)
    requires 0 < n <= |d|
    ensures [d[0]] + (d[1..][..n - 1] + rest) == d[..n] + rest
    ensures d[1..][n - 1..] == d[n..]
  {
    assert d[..n] == [d[0]] + d[1..][..n - 1];
  }

  /** The index, from `i` on, of the first sigil of the table occurring at `pos`
      (`|sigils|` when none does): the alternation tries its branches in order. */
  function FirstSigilFrom(sigils: seq<string>, text: string, pos: nat, i: nat): (w: nat)
    requires i <= |sigils|
    ensures i <= w <= |sigils|
    ensures w < |sigils| ==> pos + |sigils[w]| <= |text|
    decreases |sigils| - i
  {
    if i == |sigils| then i
    else if OccursAt(sigils[i], text, pos) then i
    else FirstSigilFrom(sigils, text, pos, i + 1)
  }

  /** The branch found occurs at `pos`, and no earlier branch does. */
  lemma {:induction false} FirstSigilFromSpec(sigils: seq<string>, text: string, pos: nat, i: nat)
    requires i <= |sigils|
    ensures var w := FirstSigilFrom(sigils, text, pos, i);
            (w < |sigils| ==> OccursAt(sigils[w], text, pos)) &&
            (forall j :: i <= j < w ==> !OccursAt(sigils[j], text, pos))
    decreases |sigils| - i
  {
    if i < |sigils| && !OccursAt(sigils[i], text, pos) {
      FirstSigilFromSpec(sigils, text, pos, i + 1);
    }
  }

  function FirstSigil(sigils: seq<string>, text: string, pos: nat): (w: nat)
    ensures w <= |sigils|
    ensures w < |sigils| ==> pos + |sigils[w]| <= |text|
  {
    FirstSigilFrom(sigils, text, pos, 0)
  }

  /** The length of the sigil the pattern matches at `pos`, 0 when there is no match. */
  function MatchLen(sigils: seq<string>, text: string, pos: nat): (k: nat)
    ensures k > 0 ==> pos + k <= |text|
  {
    var w := FirstSigil(sigils, text, pos);
    if w < |sigils| then |sigils[w]| else 0
  }

  /** With non-empty sigils, there is a match at `pos` exactly when some sigil occurs
      there, and then the matched text is the first such sigil of the table. */
  lemma MatchLenSpec(sigils: seq<string>, text: string, pos: nat)
    requires forall j :: 0 <= j < |sigils| ==> sigils[j] != []
    ensures MatchLen(sigils, text, pos) > 0 <==> exists j :: 0 <= j < |sigils| && OccursAt(sigils[j], text, pos)
    ensures MatchLen(sigils, text, pos) > 0 ==>
              var w := FirstSigil(sigils, text, pos);
              w < |sigils| && text[pos..pos + MatchLen(sigils, text, pos)] == sigils[w]
  {
    FirstSigilFromSpec(sigils, text, pos, 0);
  }

  /** The start of every match `re.finditer` reports from `pos` on. */
  function MatchStarts(sigils: seq<string>, text: string, pos: nat): seq<nat>
    requires pos <= |text|
    decreases |text| - pos
  {
    if pos == |text| then []
    else
      var k := MatchLen(sigils, text, pos);
      if k > 0 then [pos] + MatchStarts(sigils, text, pos + k)
      else MatchStarts(sigils, text, pos + 1)
  }

  /** `ms` lists, in increasing order, positions from `lo` on where the pattern matches. */
  ghost predicate Ascending(sigils: seq<string>, text: string, lo: nat, ms: seq<nat>)
    decreases |ms|
  {
    ms == [] || (lo <= ms[0] < |text| && MatchLen(sigils, text, ms[0]) > 0 && Ascending(sigils, text, ms[0] + 1, ms[1..]))
  }

  /** Every reported start is a match at or after `pos`, and the starts increase. */
  lemma {:induction false} MatchStartsSpec(sigils: seq<string>, text: string, pos: nat)
    requires pos <= |text|
    ensures Ascending(sigils, text, pos, MatchStarts(sigils, text, pos))
    decreases |text| - pos
  {
    if pos < |text| {
      var k := MatchLen(sigils, text, pos);
      if k > 0 {
        MatchStartsSpec(sigils, text, pos + k);
        MatchStartsAtMatch(sigils, text, pos);
        var rest := MatchStarts(sigils, text, pos + k);
        AscendingLower(sigils, text, pos + 1, pos + k, rest);
        assert ([pos] + rest)[1..] == rest;
        assert Ascending(sigils, text, pos, MatchStarts(sigils, text, pos));
      } else {
        MatchStartsSpec(sigils, text, pos + 1);
        MatchStartsSkip(sigils, text, pos);
        AscendingLower(sigils, text, pos, pos + 1, MatchStarts(sigils, text, pos + 1));
        assert Ascending(sigils, text, pos, MatchStarts(sigils, text, pos));
      }
    }
  }

  lemma AscendingLower(sigils: seq<string>, text: string, lo: nat, hi: nat, ms: seq<nat>)
    requires lo <= hi && Ascending(sigils, text, hi, ms)
    ensures Ascending(sigils, text, lo, ms)
  {
  }

  /** `Ascending` element by element. */
  lemma {:induction false} AscendingIndex(sigils: seq<string>, text: string, lo: nat, ms: seq<nat>)
    requires Ascending(sigils, text, lo, ms)
    ensures forall j :: 0 <= j < |ms| ==> lo <= ms[j] < |text| && MatchLen(sigils, text, ms[j]) > 0
    ensures forall j, j' :: 0 <= j < j' < |ms| ==> ms[j] < ms[j']
    decreases |ms|
  {
    if ms != [] {
      AscendingIndex(sigils, text, ms[0] + 1, ms[1..]);
      forall j | 1 <= j < |ms| ensures ms[j] == ms[1..][j - 1] {
      }
    }
  }

  /** The splitter's output from a state where the current fragment began at `prev` and
      the scan has reached `pos`. */
  function Scan(sigils: seq<string>, text: string, prev: nat, pos: nat): (fs: seq<string>)
    requires prev <= pos <= |text|
    ensures fs != []
    decreases |text| - pos
  {
    if pos == |text| then [text[prev..]]
    else
      var k := MatchLen(sigils, text, pos);
      if k > 0 then [text[prev..pos]] + Scan(sigils, text, pos, pos + k)
      else Scan(sigils, text, prev, pos + 1)
  }

  /** One step of the scan at a match: the current fragment ends before the matched
      sigil, and the next one begins with it. */
  lemma ScanAtMatch(sigils: seq<string>, text: string, prev: nat, pos: nat)
    requires prev <= pos < |text| && MatchLen(sigils, text, pos) > 0
    ensures Scan(sigils, text, prev, pos) ==
              [text[prev..pos]] + Scan(sigils, text, pos, pos + MatchLen(sigils, text, pos))
  {
  }

  lemma MatchStartsAtMatch(sigils: seq<string>, text: string, pos: nat)
    requires pos < |text| && MatchLen(sigils, text, pos) > 0
    ensures MatchStarts(sigils, text, pos) == [pos] + MatchStarts(sigils, text, pos + MatchLen(sigils, text, pos))
  {
  }

  lemma MatchStartsSkip(sigils: seq<string>, text: string, pos: nat)
    requires pos < |text| && MatchLen(sigils, text, pos) == 0
    ensures MatchStarts(sigils, text, pos) == MatchStarts(sigils, text, pos + 1)
  {
  }

  /** The last fragment runs to the end of the text. */
  lemma ScanEnd(sigils: seq<string>, text: string, prev: nat)
    requires prev <= |text|
    ensures Scan(sigils, text, prev, |text|) == [text[prev..]]
  {
  }

  /** One step of the scan at a position where nothing matches. */
  lemma ScanSkip(sigils: seq<string>, text: string, prev: nat, pos: nat)
    requires prev <= pos < |text| && MatchLen(sigils, text, pos) == 0
    ensures Scan(sigils, text, prev, pos) == Scan(sigils, text, prev, pos + 1)
  {
  }

  /** `list(__split_before(pattern, text))`. */
  function Fragments(sigils: seq<string>, text: string): seq<string> {
    Scan(sigils, text, 0, 0)
  }

  /** `''.join(parts)`. */
  function Concat(parts: seq<string>): string {
    if parts == [] then [] else parts[0] + Concat(parts[1..])
  }

  lemma {:induction false} ConcatAppend(a: seq<string>, b: seq<string>)
    ensures Concat(a + b) == Concat(a) + Concat(b)
  {
    if a != [] {
      assert (a + b)[0] == a[0];
      assert (a + b)[1..] == a[1..] + b;
      ConcatAppend(a[1..], b);
      calc {
        Concat(a + b);
        a[0] + Concat(a[1..] + b);
        a[0] + (Concat(a[1..]) + Concat(b));
        (a[0] + Concat(a[1..])) + Concat(b);
      }
    } else {
      assert a + b == b;
    }
  }

  lemma ConcatPrefixCons(x: string, rest: seq<string>, j: nat)
    requires 1 <= j <= |rest| + 1
    ensures Concat(([x] + rest)[..j]) == x + Concat(rest[..j - 1])
  {
    assert ([x] + rest)[..j] == [x] + rest[..j - 1];
    ConcatAppend([x], rest[..j - 1]);
    assert Concat([x]) == x + Concat([]);
  }

  /** The fragments put back together are the scanned text. */
  lemma {:induction false} ScanConcat(sigils: seq<string>, text: string, prev: nat, pos: nat)
    requires prev <= pos <= |text|
    ensures Concat(Scan(sigils, text, prev, pos)) == text[prev..]
    decreases |text| - pos
  {
    if pos < |text| {
      var k := MatchLen(sigils, text, pos);
      if k > 0 {
        ScanConcat(sigils, text, pos, pos + k);
        assert text[prev..] == text[prev..pos] + text[pos..];
      } else {
        ScanConcat(sigils, text, prev, pos + 1);
      }
    }
  }

  /** One fragment per match, plus the leading one. */
  lemma {:induction false} ScanCount(sigils: seq<string>, text: string, prev: nat, pos: nat)
    requires prev <= pos <= |text|
    ensures |Scan(sigils, text, prev, pos)| == |MatchStarts(sigils, text, pos)| + 1
    decreases |text| - pos
  {
    if pos < |text| {
      var k := MatchLen(sigils, text, pos);
      if k > 0 {
        ScanCount(sigils, text, pos, pos + k);
      } else {
        ScanCount(sigils, text, prev, pos + 1);
      }
    }
  }

  /** Where each fragment after the first begins in the text, the first one beginning at
      `base`. */
  function FragmentStarts(fs: seq<string>, base: nat): seq<nat>
    decreases |fs|
  {
    if |fs| <= 1 then [] else [base + |fs[0]|] + FragmentStarts(fs[1..], base + |fs[0]|)
  }

  /** Fragment `j` (for `j >= 1`) begins where match `j - 1` starts. */
  lemma {:induction false} ScanOffsets(sigils: seq<string>, text: string, prev: nat, pos: nat)
    requires prev <= pos <= |text|
    ensures FragmentStarts(Scan(sigils, text, prev, pos), prev) == MatchStarts(sigils, text, pos)
    decreases |text| - pos
  {
    if pos < |text| {
      var k := MatchLen(sigils, text, pos);
      if k > 0 {
        ScanOffsets(sigils, text, pos, pos + k);
        ScanAtMatch(sigils, text, prev, pos);
        MatchStartsAtMatch(sigils, text, pos);
        StartsCons(text[prev..pos], Scan(sigils, text, pos, pos + k), prev);
      } else {
        ScanOffsets(sigils, text, prev, pos + 1);
        ScanSkip(sigils, text, prev, pos);
        MatchStartsSkip(sigils, text, pos);
      }
    }
  }

  lemma StartsCons(x: string, rest: seq<string>, base: nat)
    requires rest != []
    ensures FragmentStarts([x] + rest, base) == [base + |x|] + FragmentStarts(rest, base + |x|)
  {
    assert ([x] + rest)[1..] == rest;
  }

  /** The start of fragment `j` is `base` plus the length of the fragments before it. */
  lemma {:induction false} FragmentStartsConcat(fs: seq<string>, base: nat)
    ensures |FragmentStarts(fs, base)| == if fs == [] then 0 else |fs| - 1
    ensures forall j :: 1 <= j < |fs| ==> FragmentStarts(fs, base)[j - 1] == base + |Concat(fs[..j])|
    decreases |fs|
  {
    if |fs| > 1 {
      var x, rest := fs[0], fs[1..];
      assert fs == [x] + rest;
      FragmentStartsConcat(rest, base + |x|);
      forall j | 1 <= j < |fs|
        ensures FragmentStarts(fs, base)[j - 1] == base + |Concat(fs[..j])|
      {
        ConcatPrefixCons(x, rest, j);
        if j == 1 {
          assert rest[..0] == [];
        }
      }
    }
  }

  /** The first fragment of a scan is a prefix of the text from `prev`, at least as long
      as the part already scanned past. */
  lemma {:induction false} ScanHead(sigils: seq<string>, text: string, prev: nat, pos: nat)
    requires prev <= pos <= |text|
    ensures var fs := Scan(sigils, text, prev, pos);
            fs != [] && fs[0] <= text[prev..] && pos - prev <= |fs[0]|
    decreases |text| - pos
  {
    if pos < |text| && MatchLen(sigils, text, pos) == 0 {
      ScanHead(sigils, text, prev, pos + 1);
    }
  }

  /** The three facts about the splitter's output, for a whole line. */
  lemma FragmentsSpec(sigils: seq<string>, text: string)
    ensures var fs, ms := Fragments(sigils, text), MatchStarts(sigils, text, 0);
            Concat(fs) == text && |fs| == |ms| + 1 &&
            forall j :: 1 <= j < |fs| ==> |Concat(fs[..j])| == ms[j - 1]
  {
    ScanConcat(sigils, text, 0, 0);
    ScanOffsets(sigils, text, 0, 0);
    ScanCount(sigils, text, 0, 0);
    FragmentStartsConcat(Fragments(sigils, text), 0);
  }

  /** `__split_before`: the generator's loop, with its `prev` cursor. */
  method SplitBefore(sigils: seq<string>, text: string) returns (fs: seq<string>)
    ensures fs == Fragments(sigils, text)
  {
    fs := [];
    var prev, pos := 0, 0;
    ScanFromSpec(sigils, text, fs, prev, pos);
    assert fs + Scan(sigils, text, prev, pos) == Fragments(sigils, text);
    while pos < |text|
      invariant prev <= pos <= |text|
      invariant ScanFrom(sigils, text, fs, prev, pos) == Fragments(sigils, text)
      decreases |text| - pos
    {
      var k := MatchLen(sigils, text, pos);
      if k > 0 {
        fs := fs + [text[prev..pos]];
        prev := pos;
        pos := pos + k;
      } else {
        pos := pos + 1;
      }
    }
    fs := fs + [text[prev..]];
  }

  /** The generator's state as a function: the fragments already yielded, followed by the
      scan still to come. */
  function ScanFrom(sigils: seq<string>, text: string, done: seq<string>, prev: nat, pos: nat): seq<string>
    requires prev <= pos <= |text|
    decreases |text| - pos
  {
    if pos == |text| then done + [text[prev..]]
    else
      var k := MatchLen(sigils, text, pos);
      if k > 0 then ScanFrom(sigils, text, done + [text[prev..pos]], pos, pos + k)
      else ScanFrom(sigils, text, done, prev, pos + 1)
  }

  lemma {:induction false} ScanFromSpec(sigils: seq<string>, text: string, done: seq<string>, prev: nat, pos: nat)
    requires prev <= pos <= |text|
    ensures ScanFrom(sigils, text, done, prev, pos) == done + Scan(sigils, text, prev, pos)
    decreases |text| - pos
  {
    if pos == |text| {
      ScanEnd(sigils, text, prev);
    } else if MatchLen(sigils, text, pos) > 0 {
      var k := MatchLen(sigils, text, pos);
      var x := text[prev..pos];
      ScanFromSpec(sigils, text, done + [x], pos, pos + k);
      ScanAtMatch(sigils, text, prev, pos);
      ScanFromAtMatch(sigils, text, done, prev, pos);
      AppendCut(done, x, Scan(sigils, text, pos, pos + k), Scan(sigils, text, prev, pos));
    } else {
      ScanFromSpec(sigils, text, done, prev, pos + 1);
      ScanSkip(sigils, text, prev, pos);
      ScanFromSkip(sigils, text, done, prev, pos);
    }
  }

  lemma ScanFromAtMatch(sigils: seq<string>, text: string, done: seq<string>, prev: nat, pos: nat)
    requires prev <= pos < |text| && MatchLen(sigils, text, pos) > 0
    ensures ScanFrom(sigils, text, done, prev, pos) ==
              ScanFrom(sigils, text, done + [text[prev..pos]], pos, pos + MatchLen(sigils, text, pos))
  {
  }

  lemma ScanFromSkip(sigils: seq<string>, text: string, done: seq<string>, prev: nat, pos: nat)
    requires prev <= pos < |text| && MatchLen(sigils, text, pos) == 0
    ensures ScanFrom(sigils, text, done, prev, pos) == ScanFrom(sigils, text, done, prev, pos + 1)
  {
  }

  lemma AppendCut(done: seq<string>, x: string, rest: seq<string>, whole: seq<string>)
    requires whole == [x] + rest
    ensures (done + [x]) + rest == done + whole
  {
  }

  /** With the parser's table, a `[` at `p` is matched as the one-character sigil `[`. */
  lemma BracketMatch(text: string, p: nat)
    ensures p < |text| && text[p] == '[' ==> MatchLen(LineSigils, text, p) == 1
  {
    if p < |text| && text[p] == '[' {
      FirstSigilFromSpec(LineSigils, text, p, 0);
      assert text[p..p + 1] == "[";
      assert !OccursAt(LineSigils[0], text, p);
      assert OccursAt(LineSigils[1], text, p);
      assert FirstSigil(LineSigils, text, p) == 1;
    }
  }

  /** With the parser's table, a character that begins no sigil is never matched. */
  lemma PlainCharNoMatch(text: string, p: nat)
    requires p < |text| && text[p] !in {'#', '[', ':', '=', '>', '*'}
    ensures MatchLen(LineSigils, text, p) == 0
  {
    forall j | 0 <= j < |LineSigils| ensures !OccursAt(LineSigils[j], text, p) {
      assert LineSigils[j][0] in {'#', '[', ':', '=', '>', '*'};
    }
  }

  /** A table in which a `[` is always matched on its own, as the parser's table is
      since `[` comes before `[[`. */
  ghost predicate BracketFirst(sigils: seq<string>) {
    forall text: string, p: nat :: p < |text| && text[p] == '[' ==> MatchLen(sigils, text, p) == 1
  }

  lemma LineSigilsBracketFirst()
    ensures BracketFirst(LineSigils)
  {
    forall text: string, p: nat | p < |text| && text[p] == '['
      ensures MatchLen(LineSigils, text, p) == 1
    {
      BracketMatch(text, p);
    }
  }

  /** `s` begins with `[[`. */
  predicate DoubleAt(s: string, i: nat) {
    i + 1 < |s| && s[i] == '[' && s[i + 1] == '['
  }

  /** The scan state keeps "a fragment that begins with `[[` is at most one character
      long so far". */
  ghost predicate NoPendingDouble(text: string, prev: nat, pos: nat) {
    DoubleAt(text, prev) ==> pos <= prev + 1
  }

  /** No fragment of `fs` begins with `[[`. */
  ghost predicate NoDoubleStart(fs: seq<string>) {
    forall f :: f in fs ==> !DoubleAt(f, 0)
  }

  lemma NoDoubleCons(x: string, rest: seq<string>, whole: seq<string>)
    requires whole == [x] + rest && !DoubleAt(x, 0) && NoDoubleStart(rest)
    ensures NoDoubleStart(whole)
  {
  }

  lemma {:induction false} ScanNoDouble(sigils: seq<string>, text: string, prev: nat, pos: nat)
    requires prev <= pos <= |text| && BracketFirst(sigils)
    requires NoPendingDouble(text, prev, pos)
    ensures NoDoubleStart(Scan(sigils, text, prev, pos))
    decreases |text| - pos, 1
  {
    if pos == |text| {
      HeadNotDouble(text, prev, pos);
      ScanEnd(sigils, text, prev);
      assert text[prev..pos] == text[prev..];
    } else if MatchLen(sigils, text, pos) > 0 {
      ScanNoDoubleAtMatch(sigils, text, prev, pos);
    } else {
      NoPendingAfterSkip(sigils, text, prev, pos);
      ScanNoDouble(sigils, text, prev, pos + 1);
      ScanSkip(sigils, text, prev, pos);
    }
  }

  lemma {:induction false} ScanNoDoubleAtMatch(sigils: seq<string>, text: string, prev: nat, pos: nat)
    requires prev <= pos < |text| && MatchLen(sigils, text, pos) > 0 && BracketFirst(sigils)
    requires NoPendingDouble(text, prev, pos)
    ensures NoDoubleStart(Scan(sigils, text, prev, pos))
    decreases |text| - pos, 0
  {
    ScanAtMatch(sigils, text, prev, pos);
    HeadNotDouble(text, prev, pos);
    NoPendingAfterMatch(sigils, text, pos, MatchLen(sigils, text, pos));
    ScanNoDouble(sigils, text, pos, pos + MatchLen(sigils, text, pos));
    NoDoubleCons(text[prev..pos], Scan(sigils, text, pos, pos + MatchLen(sigils, text, pos)), Scan(sigils, text, prev, pos));
  }

  /** A fragment cut at `end` does not begin with `[[` while no `[[` is pending. */
  lemma HeadNotDouble(text: string, prev: nat, end: nat)
    requires prev <= end <= |text|
    requires NoPendingDouble(text, prev, end)
    ensures !DoubleAt(text[prev..end], 0)
  {
    if end - prev >= 2 {
      assert text[prev..end][0] == text[prev] && text[prev..end][1] == text[prev + 1];
    }
  }

  lemma NoPendingAfterMatch(sigils: seq<string>, text: string, pos: nat, k: nat)
    requires pos < |text| && k == MatchLen(sigils, text, pos) && k > 0 && BracketFirst(sigils)
    ensures NoPendingDouble(text, pos, pos + k)
  {
  }

  lemma NoPendingAfterSkip(sigils: seq<string>, text: string, prev: nat, pos: nat)
    requires prev <= pos < |text| && MatchLen(sigils, text, pos) == 0 && BracketFirst(sigils)
    requires NoPendingDouble(text, prev, pos)
    ensures NoPendingDouble(text, prev, pos + 1)
  {
  }

  /** A string whose first two characters are not both `[` does not begin with `[[`. */
  lemma TakeNotDouble(f: string)
    requires !DoubleAt(f, 0)
    ensures Take(f, 2) != "[["
  {
  }

  /** Since `[` precedes `[[` in the table, no fragment ever begins with `[[`. */
  lemma NoFragmentStartsWithDoubleBracket(text: string)
    ensures forall f :: f in Fragments(LineSigils, text) ==> Take(f, 2) != "[["
  {
    LineSigilsBracketFirst();
    ScanNoDouble(LineSigils, text, 0, 0);
    forall f | f in Fragments(LineSigils, text) ensures Take(f, 2) != "[[" {
      TakeNotDouble(f);
    }
  }
}
