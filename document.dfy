/** What `Parser.parse` appends for a whole text: paragraphs are separated by a blank line;
    a paragraph holding a backtick-delimited region is a template block, any other
    paragraph is parsed line by line. */
module Document {
  import opened Base
  import opened PyStr
  import opened PyDict
  import opened LineExtract
  import opened Blocks

  /** The block delimiter. */
  const Tick: string := "``"

  /** The content of the paragraph's block, if it has one: the text between the end of
      the first delimiter and the start of the last one. */
  function BlockContent(p: string): Option<string> {
    match Find(p, Tick, 0)
    case None => None
    case Some(a) =>
      match FindLast(p, Tick)
      case None => None
      case Some(q) => if a + 2 <= q then Some(p[a + 2..q]) else None
  }

  /** A delimiter ends just before position `i` of `p`. */
  predicate ClosesAt(p: string, i: int) {
    2 <= i && OccursAt(Tick, p, i - 2)
  }

  /** `BlockContent` is the first match of `(?<=``)((.|\n)*)(?=``)`: a match starts at
      the first position just after a delimiter from which some delimiter still starts
      further on, and, the repetition being greedy, ends at the start of the last
      delimiter. */
  lemma BlockContentSpec(p: string)
    ensures BlockContent(p).Some? <==>
              exists i, j :: i <= j && ClosesAt(p, i) && OccursAt(Tick, p, j)
    ensures BlockContent(p).Some? ==>
              exists i, j :: i <= j && ClosesAt(p, i) && OccursAt(Tick, p, j) &&
                             BlockContent(p).value == p[i..j] &&
                             (forall i' :: i' < i ==> !ClosesAt(p, i')) &&
                             (forall j' :: j < j' ==> !OccursAt(Tick, p, j'))
  {
    var a, q := Find(p, Tick, 0), FindLast(p, Tick);
    if a.None? {
      NoClose(p);
    } else if q.Some? {
      FirstClose(p);
      if a.value + 2 <= q.value {
        assert BlockContent(p) == Some(p[a.value + 2..q.value]);
        assert a.value + 2 <= q.value && ClosesAt(p, a.value + 2) && OccursAt(Tick, p, q.value);
      } else {
        forall i, j | i <= j && ClosesAt(p, i)
          ensures !OccursAt(Tick, p, j)
        {
          assert q.value < j;
        }
      }
    }
  }

  /** With no delimiter, nothing closes one. */
  lemma NoClose(p: string)
    requires Find(p, Tick, 0).None?
    ensures forall i :: !ClosesAt(p, i)
  {
  }

  /** The first delimiter ends at the first position where one closes. */
  lemma FirstClose(p: string)
    requires Find(p, Tick, 0).Some?
    ensures ClosesAt(p, Find(p, Tick, 0).value + 2)
    ensures forall i :: i < Find(p, Tick, 0).value + 2 ==> !ClosesAt(p, i)
  {
  }

  /** `parse_line` as a function value, so that the paragraph structure can be stated for
      any line parser. */
  type LineParser = string -> Result<Fields>

  /** `parse_line` of a parser holding `table`. */
  function LineOf(table: Dict<string>, date: DateParser): LineParser {
    s => Parsed(table, s, date)
  }

  /** One item the parser appends: its dictionary, and its `string` attribute when the
      parser sets one. */
  datatype Entry = Entry(params: Fields, text: Option<string>)

  /** Outcomes in sequence: the second runs only when the first did not raise. */
  function Then(a: Outcome<Entry>, b: Outcome<Entry>): (r: Outcome<Entry>)
    ensures a.failure.Some? ==> r == a
    ensures a.failure.None? ==> r.done == a.done + b.done && r.failure == b.failure
  {
    if a.failure.Some? then a else Outcome(a.done + b.done, b.failure)
  }

  /** The lines of a paragraph without a block, each parsed on its own and appended with
      its text, up to the first line whose parse raises. */
  function FlatEntries(line: LineParser, sentences: seq<string>): Outcome<Entry>
    decreases |sentences|
  {
    if sentences == [] then Outcome([], None)
    else
      var n := |sentences| - 1;
      var o := FlatEntries(line, sentences[..n]);
      if o.failure.Some? then o
      else
        match line(sentences[n])
        case Err(e) => Outcome(o.done, Some(e))
        case Ok(d) => Outcome(o.done + [Entry(d, Some(sentences[n]))], None)
  }

  /** Every line of a block after its first, parsed before any merging starts. */
  function ParsedAll(line: LineParser, sentences: seq<string>): Result<seq<Fields>>
    decreases |sentences|
  {
    if sentences == [] then Ok([])
    else
      var n := |sentences| - 1;
      var ds :- ParsedAll(line, sentences[..n]);
      var d :- line(sentences[n]);
      Ok(ds + [d])
  }

  /** The lines of a block: the template line is appended first, with the block's own
      dictionary; the merged lines follow only when every line parsed and every merge
      succeeded, since they are appended after `fill_array` returns. */
  function BlockEntries(line: LineParser, sentences: seq<string>): Outcome<Entry>
    requires sentences != []
  {
    match line(sentences[0])
    case Err(e) => Outcome([], Some(e))
    case Ok(t) =>
      match ParsedAll(line, sentences[1..])
      case Err(e) => Outcome([Entry(t, None)], Some(e))
      case Ok(ds) =>
        var o := MergeAll(t, ds);
        if o.failure.Some? then Outcome([Entry(t, None)], o.failure)
        else Outcome([Entry(t, None)] + Untitled(o.done), None)
  }

  /** Lines that the parser created with `Line()` and gave only a dictionary. */
  function Untitled(ds: seq<Fields>): (es: seq<Entry>)
    ensures |es| == |ds| && forall i :: 0 <= i < |ds| ==> es[i] == Entry(ds[i], None)
  {
    seq(|ds|, i requires 0 <= i < |ds| => Entry(ds[i], None))
  }

  /** One paragraph. */
  function ParagraphEntries(line: LineParser, p: string): Outcome<Entry> {
    match BlockContent(p)
    case None => FlatEntries(line, Split(p, "\n"))
    case Some(c) => BlockEntries(line, Split(c, "\n"))
  }

  /** What one paragraph appends, and the exception it raises if any. */
  type ParagraphParser = string -> Outcome<Entry>

  /** The paragraphs of a text in order, up to the first one that raises. */
  function DocEntries(paragraph: ParagraphParser, ps: seq<string>): Outcome<Entry>
    decreases |ps|
  {
    if ps == [] then Outcome([], None)
    else
      var n := |ps| - 1;
      Then(DocEntries(paragraph, ps[..n]), paragraph(ps[n]))
  }

  /** `parse` paragraph by paragraph, for a parser holding `table`. */
  function ParagraphOf(table: Dict<string>, date: DateParser): ParagraphParser {
    p => ParagraphEntries(LineOf(table, date), p)
  }

  /** `parse(text)`: what it appends to `items`, and the exception it raises if any. */
  function TextEntries(table: Dict<string>, text: string, date: DateParser): Outcome<Entry> {
    DocEntries(ParagraphOf(table, date), Split(text, "\n\n"))
  }

  /** A flat paragraph appends one item per line, in order, each with its line's text and
      parsed dictionary, up to the first line whose parse raises. */
  lemma {:induction false} FlatEntriesSpec(line: LineParser, ss: seq<string>)
    ensures var o := FlatEntries(line, ss);
            |o.done| <= |ss| &&
            (forall i :: 0 <= i < |o.done| ==>
               line(ss[i]).Ok? && o.done[i] == Entry(line(ss[i]).value, Some(ss[i]))) &&
            (o.failure.None? ==> |o.done| == |ss|) &&
            (o.failure.Some? ==> |o.done| < |ss| && line(ss[|o.done|]) == Err(o.failure.value))
    decreases |ss|
  {
    if ss != [] {
      var n := |ss| - 1;
      FlatEntriesSpec(line, ss[..n]);
      assert forall i :: 0 <= i < n ==> ss[..n][i] == ss[i];
    }
  }

  /** The lines of a block after the first all parse, one dictionary each and in order,
      or the first exception among them is raised. */
  lemma {:induction false} ParsedAllSpec(line: LineParser, ss: seq<string>)
    ensures ParsedAll(line, ss).Ok? <==> forall i :: 0 <= i < |ss| ==> line(ss[i]).Ok?
    ensures ParsedAll(line, ss).Ok? ==>
              var ds := ParsedAll(line, ss).value;
              |ds| == |ss| && forall i :: 0 <= i < |ss| ==> line(ss[i]) == Ok(ds[i])
    decreases |ss|
  {
    if ss != [] {
      var n := |ss| - 1;
      ParsedAllSpec(line, ss[..n]);
      assert forall i :: 0 <= i < n ==> ss[..n][i] == ss[i];
    }
  }

  /** A block appends its template line first, with the first line's dictionary, and
      nothing at all when that line raises; when a later line raises, in its parse or
      in its merge, only the template line has been appended. */
  lemma BlockEntriesHead(line: LineParser, ss: seq<string>)
    requires ss != []
    ensures var o := BlockEntries(line, ss);
            (|o.done| > 0 <==> line(ss[0]).Ok?) &&
            (|o.done| > 0 ==> o.done[0] == Entry(line(ss[0]).value, None)) &&
            (o.failure.Some? ==> |o.done| <= 1)
  {
  }

  /** A block whose lines all parse and merge appends, after its template line, one
      merged line per remaining line, in order. */
  lemma BlockEntriesTail(line: LineParser, ss: seq<string>)
    requires ss != [] && BlockEntries(line, ss).failure.None?
    ensures var o := BlockEntries(line, ss);
            |o.done| == |ss| &&
            forall i :: 1 <= i < |ss| ==>
              line(ss[i]).Ok? &&
              Merged(line(ss[0]).value, line(ss[i]).value).Ok? &&
              o.done[i] == Entry(Merged(line(ss[0]).value, line(ss[i]).value).value, None)
  {
    BlockLength(line, ss);
    forall i | 1 <= i < |ss|
      ensures line(ss[i]).Ok? && Merged(line(ss[0]).value, line(ss[i]).value).Ok?
      ensures BlockEntries(line, ss).done[i] == Entry(Merged(line(ss[0]).value, line(ss[i]).value).value, None)
    {
      BlockEntryAt(line, ss, i);
    }
  }

  lemma BlockLength(line: LineParser, ss: seq<string>)
    requires ss != [] && BlockEntries(line, ss).failure.None?
    ensures |BlockEntries(line, ss).done| == |ss|
  {
    ParsedAllSpec(line, ss[1..]);
    MergeAllSpec(line(ss[0]).value, ParsedAll(line, ss[1..]).value);
  }

  lemma BlockEntryAt(line: LineParser, ss: seq<string>, i: nat)
    requires 1 <= i < |ss| && BlockEntries(line, ss).failure.None?
    ensures line(ss[i]).Ok? && Merged(line(ss[0]).value, line(ss[i]).value).Ok?
    ensures |BlockEntries(line, ss).done| == |ss|
    ensures BlockEntries(line, ss).done[i] == Entry(Merged(line(ss[0]).value, line(ss[i]).value).value, None)
  {
    BlockEntriesOk(line, ss);
    var rest := ss[1..];
    var t := line(ss[0]).value;
    var ds := ParsedAll(line, rest).value;
    ParsedAt(line, rest, i - 1);
    MergedAt(t, ds, i - 1);
    assert rest[i - 1] == ss[i];
  }

  lemma ParsedAt(line: LineParser, ss: seq<string>, k: nat)
    requires ParsedAll(line, ss).Ok? && k < |ss|
    ensures |ParsedAll(line, ss).value| == |ss| && line(ss[k]) == Ok(ParsedAll(line, ss).value[k])
  {
    ParsedAllSpec(line, ss);
  }

  lemma MergedAt(template: Fields, ds: seq<Fields>, k: nat)
    requires MergeAll(template, ds).failure.None? && k < |ds|
    ensures |MergeAll(template, ds).done| == |ds| && Merged(template, ds[k]) == Ok(MergeAll(template, ds).done[k])
  {
    MergeAllSpec(template, ds);
  }

  /** A block whose first line raises appends nothing. */
  lemma BlockFirstFails(line: LineParser, ss: seq<string>)
    requires ss != [] && line(ss[0]).Err?
    ensures BlockEntries(line, ss) == Outcome([], Some(line(ss[0]).error))
  {
  }

  /** A block whose later line raises appends only its template line. */
  lemma BlockRestFails(line: LineParser, ss: seq<string>)
    requires ss != [] && line(ss[0]).Ok? && ParsedAll(line, ss[1..]).Err?
    ensures BlockEntries(line, ss) == Outcome([Entry(line(ss[0]).value, None)], Some(ParsedAll(line, ss[1..]).error))
  {
  }

  /** What a block appends after its template line `t`: nothing when a later line raises
      or a merge raises, and otherwise the merged lines, with no text. */
  function TailEntries(line: LineParser, t: Fields, rest: seq<string>): Outcome<Entry> {
    match ParsedAll(line, rest)
    case Err(e) => Outcome([], Some(e))
    case Ok(ds) =>
      var o := MergeAll(t, ds);
      if o.failure.Some? then Outcome([], o.failure) else Outcome(Untitled(o.done), None)
  }

  /** A block whose first line parsed to `t` is its template entry followed by its tail. */
  lemma BlockSplit(line: LineParser, ss: seq<string>, t: Fields)
    requires ss != [] && line(ss[0]) == Ok(t)
    ensures BlockEntries(line, ss) == Then(Outcome([Entry(t, None)], None), TailEntries(line, t, ss[1..]))
  {
  }

  /** One more paragraph of a text. */
  lemma DocStep(paragraph: ParagraphParser, ps: seq<string>, k: nat)
    requires k < |ps|
    ensures DocEntries(paragraph, ps[..k + 1]) == Then(DocEntries(paragraph, ps[..k]), paragraph(ps[k]))
  {
    assert ps[..k + 1][..k] == ps[..k] && ps[..k + 1][k] == ps[k];
  }

  /** A block that does not raise: every part of it succeeded. */
  lemma BlockEntriesOk(line: LineParser, ss: seq<string>)
    requires ss != [] && BlockEntries(line, ss).failure.None?
    ensures line(ss[0]).Ok? && ParsedAll(line, ss[1..]).Ok?
    ensures MergeAll(line(ss[0]).value, ParsedAll(line, ss[1..]).value).failure.None?
    ensures BlockEntries(line, ss).done ==
            [Entry(line(ss[0]).value, None)] + Untitled(MergeAll(line(ss[0]).value, ParsedAll(line, ss[1..]).value).done)
  {
  }

  /** `parse` only ever appends: the items of a text's first paragraphs come first, in
      order, and stay when a later paragraph raises. */
  lemma {:induction false} DocPrefix(paragraph: ParagraphParser, ps: seq<string>, k: nat)
    requires k <= |ps|
    ensures DocEntries(paragraph, ps[..k]).done <= DocEntries(paragraph, ps).done
    ensures DocEntries(paragraph, ps[..k]).failure.Some? ==>
              DocEntries(paragraph, ps) == DocEntries(paragraph, ps[..k])
    decreases |ps|
  {
    if k < |ps| {
      var n := |ps| - 1;
      assert ps[..n][..k] == ps[..k];
      DocPrefix(paragraph, ps[..n], k);
    } else {
      assert ps[..k] == ps;
    }
  }

  /** Once a line of a flat paragraph has raised, the later lines are not parsed. */
  lemma {:induction false} FlatSticks(line: LineParser, ss: seq<string>, n: nat)
    requires n <= |ss| && FlatEntries(line, ss[..n]).failure.Some?
    ensures FlatEntries(line, ss) == FlatEntries(line, ss[..n])
    decreases |ss|
  {
    if n < |ss| {
      var init := ss[..|ss| - 1];
      assert init[..n] == ss[..n];
      FlatSticks(line, init, n);
    } else {
      assert ss[..n] == ss;
    }
  }

  /** Once a line of a block has raised, the later lines are not parsed. */
  lemma {:induction false} ParsedAllSticks(line: LineParser, ss: seq<string>, n: nat)
    requires n <= |ss| && ParsedAll(line, ss[..n]).Err?
    ensures ParsedAll(line, ss) == ParsedAll(line, ss[..n])
    decreases |ss|
  {
    if n < |ss| {
      var init := ss[..|ss| - 1];
      assert init[..n] == ss[..n];
      ParsedAllSticks(line, init, n);
    } else {
      assert ss[..n] == ss;
    }
  }

  /** One more line of a flat paragraph. */
  lemma FlatStep(line: LineParser, ss: seq<string>, k: nat)
    requires k < |ss| && FlatEntries(line, ss[..k]).failure.None?
    ensures line(ss[k]).Err? ==>
              FlatEntries(line, ss[..k + 1]) == Outcome(FlatEntries(line, ss[..k]).done, Some(line(ss[k]).error))
    ensures line(ss[k]).Ok? ==>
              FlatEntries(line, ss[..k + 1]) ==
              Outcome(FlatEntries(line, ss[..k]).done + [Entry(line(ss[k]).value, Some(ss[k]))], None)
  {
    assert ss[..k + 1][..k] == ss[..k] && ss[..k + 1][k] == ss[k];
  }
}
