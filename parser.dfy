/** The parser object: it holds the delimiter table it was given (shared with the caller,
    who sees `block` popped from it) and the list of parsed items, to which `parse`
    appends. */
module Parsing {
  import opened Base
  import opened PyStr
  import opened PyDict
  import opened Sigils
  import opened LineExtract
  import opened LineProperties
  import opened Blocks
  import opened Document

  /** The lines `ls` carry exactly the dictionaries and texts of `es`, in order. */
  ghost predicate Shows(ls: seq<Line>, es: seq<Entry>)
    reads ls
  {
    |ls| == |es| && forall i :: 0 <= i < |ls| ==> ls[i].params == es[i].params && ls[i].text == es[i].text
  }

  lemma ShowsConcat(ls1: seq<Line>, ls2: seq<Line>, es1: seq<Entry>, es2: seq<Entry>)
    requires Shows(ls1, es1) && Shows(ls2, es2)
    ensures Shows(ls1 + ls2, es1 + es2)
  {
    forall i | 0 <= i < |ls1| + |ls2|
      ensures (ls1 + ls2)[i].params == (es1 + es2)[i].params && (ls1 + ls2)[i].text == (es1 + es2)[i].text
    {
      if i >= |ls1| {
        assert (ls1 + ls2)[i] == ls2[i - |ls1|] && (es1 + es2)[i] == es2[i - |ls1|];
      }
    }
  }

  lemma ShowsSnoc(ls: seq<Line>, es: seq<Entry>, l: Line, e: Entry)
    requires Shows(ls, es) && l.params == e.params && l.text == e.text
    ensures Shows(ls + [l], es + [e])
  {
  }

  lemma DropPrefix<T>(a: seq<T>, b: seq<T>)
    ensures (a + b)[|a|..] == b
  {
  }

  /** What two successive calls appended to `items`, taken together: `a` before the
      first call, `b` between the two, `c` after the second. */
  lemma Extend(a: seq<Line>, b: seq<Line>, c: seq<Line>, es1: seq<Entry>, es2: seq<Entry>)
    requires |a| <= |b| <= |c| && b[..|a|] == a && c[..|b|] == b
    requires Shows(b[|a|..], es1) && Shows(c[|b|..], es2)
    requires Distinct(b[|a|..]) && Distinct(c[|b|..])
    requires forall l :: l in c[|b|..] ==> l !in b[|a|..]
    ensures c[..|a|] == a && c[|a|..] == b[|a|..] + c[|b|..]
    ensures Shows(c[|a|..], es1 + es2) && Distinct(c[|a|..])
  {
    assert c[|a|..] == b[|a|..] + c[|b|..];
    ShowsConcat(b[|a|..], c[|b|..], es1, es2);
    DistinctConcat(b[|a|..], c[|b|..]);
  }

  /** The loop over `fs[..i + 1]` is one more turn of the loop over `fs[..i]`. */
  lemma ExtractNext(sigils: seq<string>, fs: seq<string>, i: nat, acc: Fields)
    requires i < |fs| && Extract(sigils, fs[..i]) == Ok(acc)
    ensures Extract(sigils, fs[..i + 1]) == Step(sigils, acc, fs[i])
  {
    assert fs[..i + 1][..i] == fs[..i] && fs[..i + 1][i] == fs[i];
  }

  /** A loop that has run over `fs[..i]` and now raises on `fs[i]` raises for the whole
      of `fs`. */
  lemma ExtractStops(sigils: seq<string>, fs: seq<string>, i: nat, acc: Fields, e: Error)
    requires i < |fs| && Extract(sigils, fs[..i]) == Ok(acc) && Step(sigils, acc, fs[i]) == Err(e)
    ensures Extract(sigils, fs) == Err(e)
  {
    assert fs[..i + 1][..i] == fs[..i];
    ExtractErrSticks(sigils, fs, i + 1);
  }

  /** One more line of a flat paragraph, with the line's parse result already at hand;
      a line that raises ends the paragraph. */
  lemma FlatStepParsed(line: LineParser, ss: seq<string>, k: nat, r: Result<Fields>)
    requires k < |ss| && r == line(ss[k])
    requires FlatEntries(line, ss[..k]).failure.None?
    ensures r.Err? ==> FlatEntries(line, ss) == Outcome(FlatEntries(line, ss[..k]).done, Some(r.error))
    ensures r.Ok? ==> FlatEntries(line, ss[..k + 1]) ==
                      Outcome(FlatEntries(line, ss[..k]).done + [Entry(r.value, Some(ss[k]))], None)
  {
    FlatStep(line, ss, k);
    if r.Err? {
      FlatSticks(line, ss, k + 1);
    }
  }

  /** `parse_line` of a parser holding `table`, as the function value the paragraph
      structure is stated with. */
  lemma LineOfApply(table: Dict<string>, date: DateParser, s: string)
    ensures LineOf(table, date)(s) == Parsed(table, s, date)
  {
  }

  /** One more line of a block, parsed before the merging starts. */
  lemma ParsedAllStepParsed(line: LineParser, ss: seq<string>, k: nat, r: Result<Fields>)
    requires k < |ss| && r == line(ss[k])
    requires ParsedAll(line, ss[..k]).Ok?
    ensures r.Err? ==> ParsedAll(line, ss) == Err(r.error)
    ensures r.Ok? ==> ParsedAll(line, ss[..k + 1]) == Ok(ParsedAll(line, ss[..k]).value + [r.value])
  {
    assert ss[..k + 1][..k] == ss[..k] && ss[..k + 1][k] == ss[k];
    if r.Err? {
      ParsedAllSticks(line, ss, k + 1);
    }
  }

  lemma CarriesShows(ls: seq<Line>, ds: seq<Fields>)
    requires Carries(ls, ds)
    ensures Shows(ls, Untitled(ds))
  {
  }

  /** `Parser(delims, escapes)`: popping `block` from a table that lacks it raises
      `KeyError`, which is what happens to a second parser built on the module's own
      table. */
  method NewParser(delims: DelimiterTable, escapes: Dict<string>) returns (r: Result<Parser>)
    modifies delims
    ensures r.Ok? <==> "block" in Keys(old(delims.entries))
    ensures r.Err? ==> r.error == KeyError && delims.entries == old(delims.entries)
    ensures r.Ok? ==> fresh(r.value) && r.value.delimiter == delims && r.value.items == [] &&
                      r.value.escapechars == escapes &&
                      delims.entries == Pop(old(delims.entries), "block")
  {
    if "block" !in Keys(delims.entries) {
      return Err(KeyError);
    }
    var p := new Parser(delims, escapes);
    return Ok(p);
  }

  class Parser {
    var delimiter: DelimiterTable
    var escapechars: Dict<string>
    var items: seq<Line>

    /** `__init__`: keeps the caller's table object and pops `block` from it. */
    constructor(delims: DelimiterTable, escapes: Dict<string>)
      requires "block" in Keys(delims.entries)
      modifies delims
      ensures delimiter == delims && delims.entries == Pop(old(delims.entries), "block")
      ensures escapechars == escapes && items == []
    {
      delimiter := delims;
      escapechars := escapes;
      items := [];
      new;
      delims.entries := Pop(delims.entries, "block");
    }

    /** `__convert_to_names`: for every table entry in order, a sigil present in the line
        is popped and re-inserted under the entry's name. */
    method ConvertToNames(parsed: Fields) returns (r: Fields)
      ensures r == Renamed(delimiter.entries, parsed)
    {
      var table := delimiter.entries;
      r := parsed;
      var i := 0;
      while i < |table|
        invariant i <= |table|
        invariant Renamed(table[i..], r) == Renamed(table, parsed)
      {
        var key, value := table[i].0, table[i].1;
        assert table[i..][1..] == table[i + 1..];
        if value in Keys(r) {
          var v := Get(r, value).value;
          r := Pop(r, value);
          r := Set(r, key, v);
        }
        i := i + 1;
      }
    }

    /** `parse_line`: the loop over the fragments, the flattening of `*` and `@`, the
        renaming and the date step, with every exception they can raise. */
    method ParseLine(text: string, date: DateParser) returns (r: Result<Fields>)
      ensures r == Parsed(delimiter.entries, text, date)
    {
      var sigils := ValueList(delimiter.entries);
      var fs := SplitBefore(sigils, text);
      var result: Fields := Initial;
      var i := 0;
      while i < |fs|
        invariant i <= |fs|
        invariant Extract(sigils, fs[..i]) == Ok(result)
      {
        var f := fs[i];
        ExtractNext(sigils, fs, i, result);
        ghost var prev := result;
        var two, one := Take(f, 2), Take(f, 1);
        if two in sigils {
          result := Set(result, two, Text(Strip(Drop(f, 2))));
          assert Step(sigils, prev, f) == Ok(result);
        } else if one in sigils {
          if one == "*" || one == "@" {
            var cur := Get(result, one);
            if cur.None? {
              ExtractStops(sigils, fs, i, result, KeyError);
              return Err(KeyError);
            } else if cur.value.Text? {
              ExtractStops(sigils, fs, i, result, AttributeError);
              return Err(AttributeError);
            }
            result := Set(result, one, Items(cur.value.xs + [Strip(Drop(f, 1))]));
            assert Step(sigils, prev, f) == Ok(result);
          } else {
            result := Set(result, one, Text(Strip(Drop(f, 1))));
            assert Step(sigils, prev, f) == Ok(result);
          }
        } else if f != "" {
          ExtractStops(sigils, fs, i, result, ImpossibleError);
          return Err(ImpossibleError);
        } else {
          assert Step(sigils, prev, f) == Ok(result);
        }
        i := i + 1;
      }
      assert fs[..i] == fs;
      r := FinishLine(result, date);
    }

    /** The part of `parse_line` after its loop. */
    method FinishLine(acc: Fields, date: DateParser) returns (r: Result<Fields>)
      ensures r == Finish(delimiter.entries, acc, date)
    {
      var result := acc;
      // `if len(result[key]) == 1: result[key] = result[key][0]`, for `*` then `@`
      var star := Get(result, "*");
      if star.None? {
        return Err(KeyError);
      }
      if star.value.Items? && |star.value.xs| == 1 {
        result := Set(result, "*", Text(star.value.xs[0]));
      }
      assert Flatten(acc, "*") == Ok(result);
      ghost var flat1 := result;
      var at := Get(result, "@");
      if at.None? {
        return Err(KeyError);
      }
      if at.value.Items? && |at.value.xs| == 1 {
        result := Set(result, "@", Text(at.value.xs[0]));
      }
      assert Flatten(flat1, "@") == Ok(result);
      result := ConvertToNames(result);
      // the `try` block: `deadline`, then `due`; a missing key ends it silently
      var deadline := Get(result, "deadline");
      if deadline.Some? {
        if deadline.value.Items? {
          return Err(TypeError);
        }
        var d := date(deadline.value.s);
        if d.None? {
          return Err(DateParseError);
        }
        result := Set(result, "deadline", Text(d.value));
        var due := Get(result, "due");
        if due.Some? {
          if due.value.Items? {
            return Err(TypeError);
          }
          var e := date(due.value.s);
          if e.None? {
            return Err(DateParseError);
          }
          result := Set(result, "due", Text(e.value));
        }
      }
      r := Ok(result);
    }
  
    /** `line = Line(); line.string = ...; line.params = ...; self.items.append(line)`. */
    method AppendLine(text: Option<string>, params: Fields) returns (l: Line)
      modifies this
      ensures fresh(l) && l.text == text && l.params == params && items == old(items) + [l]
      ensures delimiter == old(delimiter) && escapechars == old(escapechars)
    {
      l := new Line();
      l.text := text;
      l.params := params;
      items := items + [l];
    }

    /** `AppendLine` after lines `added` showing `es`: the new line keeps them distinct
        and shows one more entry. */
    method AppendEntry(text: Option<string>, params: Fields, ghost added: seq<Line>, ghost es: seq<Entry>)
      returns (l: Line)
      requires Shows(added, es) && Distinct(added)
      modifies this
      ensures fresh(l) && items == old(items) + [l]
      ensures delimiter == old(delimiter) && escapechars == old(escapechars)
      ensures Shows(added + [l], es + [Entry(params, text)]) && Distinct(added + [l])
    {
      l := AppendLine(text, params);
      DistinctSnoc(added, l);
      ShowsSnoc(added, es, l, Entry(params, text));
    }

    /** `for line in block.lines: self.items.append(line)`. */
    method AppendAll(ls: seq<Line>)
      modifies this
      ensures items == old(items) + ls
      ensures delimiter == old(delimiter) && escapechars == old(escapechars)
    {
      var j := 0;
      while j < |ls|
        invariant j <= |ls| && items == old(items) + ls[..j]
        invariant delimiter == old(delimiter) && escapechars == old(escapechars)
      {
        assert ls[..j + 1] == ls[..j] + [ls[j]];
        items := items + [ls[j]];
        j := j + 1;
      }
      assert ls[..j] == ls;
    }

    /** `send_parsed`: every line of a block after the first, parsed in order; the first
        exception ends `parse`. */
    method ParseAll(sentences: seq<string>, date: DateParser) returns (r: Result<seq<Fields>>)
      ensures r == ParsedAll(LineOf(delimiter.entries, date), sentences)
    {
      var parsed: seq<Fields> := [];
      var i := 0;
      while i < |sentences|
        invariant i <= |sentences|
        invariant ParsedAll(LineOf(delimiter.entries, date), sentences[..i]) == Ok(parsed)
      {
        var p := ParseLine(sentences[i], date);
        LineOfApply(delimiter.entries, date, sentences[i]);
        ParsedAllStepParsed(LineOf(delimiter.entries, date), sentences, i, p);
        if p.Err? {
          return Err(p.error);
        }
        parsed := parsed + [p.value];
        i := i + 1;
      }
      assert sentences[..i] == sentences;
      return Ok(parsed);
    }

    /** `parse(string)`: the paragraphs in order, each appending its items, until one of
        them raises; what earlier paragraphs appended stays. */
    method Parse(text: string, date: DateParser) returns (failure: Option<Error>)
      modifies this
      ensures delimiter == old(delimiter) && escapechars == old(escapechars)
      ensures var o := TextEntries(delimiter.entries, text, date);
              failure == o.failure && |old(items)| <= |items| && items[..|old(items)|] == old(items) &&
              Shows(items[|old(items)|..], o.done)
      ensures forall l :: l in items[|old(items)|..] ==> fresh(l)
      ensures Distinct(items[|old(items)|..])
    {
      var paragraphs := Split(text, "\n\n");
      ghost var paragraph := ParagraphOf(delimiter.entries, date);
      ghost var added: seq<Line> := [];
      ghost var es: seq<Entry> := [];
      var k := 0;
      while k < |paragraphs|
        invariant k <= |paragraphs| && delimiter == old(delimiter) && escapechars == old(escapechars)
        invariant items == old(items) + added
        invariant DocEntries(paragraph, paragraphs[..k]) == Outcome(es, None)
        invariant Shows(added, es) && Distinct(added)
        invariant forall l :: l in added ==> fresh(l)
      {
        ghost var mid := items;
        DropPrefix(old(items), added);
        failure := ParseParagraph(paragraphs[k], date, added);
        ghost var o := ParagraphEntries(LineOf(delimiter.entries, date), paragraphs[k]);
        assert paragraph(paragraphs[k]) == o;
        DocStep(paragraph, paragraphs, k);
        Extend(old(items), mid, items, es, o.done);
        if failure.Some? {
          DocPrefix(paragraph, paragraphs, k + 1);
          return;
        }
        added := items[|old(items)|..];
        es := es + o.done;
        k := k + 1;
      }
      assert paragraphs[..k] == paragraphs;
      DropPrefix(old(items), added);
      failure := None;
    }

    /** One paragraph of `parse`: a block when the paragraph holds a backtick-delimited
        region, otherwise its lines one by one. */
    method ParseParagraph(p: string, date: DateParser, ghost before: seq<Line>) returns (failure: Option<Error>)
      modifies this
      ensures delimiter == old(delimiter) && escapechars == old(escapechars)
      ensures var o := ParagraphEntries(LineOf(delimiter.entries, date), p);
              failure == o.failure && |old(items)| <= |items| && items[..|old(items)|] == old(items) &&
              Shows(items[|old(items)|..], o.done)
      ensures forall l :: l in items[|old(items)|..] ==> fresh(l) && l !in before
      ensures Distinct(items[|old(items)|..])
    {
      var c := BlockContent(p);
      if c.None? {
        failure := ParseFlat(Split(p, "\n"), date);
      } else {
        failure := ParseBlock(c.value, date);
      }
    }

    /** A paragraph holding a block: the template line is parsed and appended first, with
        no text; the other lines are all parsed, then merged by `fill_array`, and the
        merged lines are appended only if all of that succeeded. */
    method ParseBlock(content: string, date: DateParser) returns (failure: Option<Error>)
      modifies this
      ensures delimiter == old(delimiter) && escapechars == old(escapechars)
      ensures var o := BlockEntries(LineOf(delimiter.entries, date), Split(content, "\n"));
              failure == o.failure && |old(items)| <= |items| && items[..|old(items)|] == old(items) &&
              Shows(items[|old(items)|..], o.done)
      ensures forall l :: l in items[|old(items)|..] ==> fresh(l)
      ensures Distinct(items[|old(items)|..])
    {
      var sentences := Split(content, "\n");
      failure := ParseBlockLines(content, sentences, date);
    }

    /** The block's lines, `paragraph.split('\n')`, of which the first is the template. */
    method ParseBlockLines(content: string, sentences: seq<string>, date: DateParser) returns (failure: Option<Error>)
      requires sentences != []
      modifies this
      ensures delimiter == old(delimiter) && escapechars == old(escapechars)
      ensures var o := BlockEntries(LineOf(delimiter.entries, date), sentences);
              failure == o.failure && |old(items)| <= |items| && items[..|old(items)|] == old(items) &&
              Shows(items[|old(items)|..], o.done)
      ensures forall l :: l in items[|old(items)|..] ==> fresh(l)
      ensures Distinct(items[|old(items)|..])
    {
      ghost var line := LineOf(delimiter.entries, date);
      var block := new Block();
      block.text := Some(content);
      var t := ParseLine(sentences[0], date);
      LineOfApply(delimiter.entries, date, sentences[0]);
      if t.Err? {
        assert items[|old(items)|..] == [];
        return Some(t.error);
      }
      block.params := t.value;
      var head := AppendLine(None, block.params);
      ghost var mid := items;
      DropPrefix(old(items), [head]);
      failure := ParseTail(block, sentences[1..], date, [head]);
      BlockSplit(line, sentences, t.value);
      Extend(old(items), mid, items, [Entry(t.value, None)], TailEntries(line, t.value, sentences[1..]).done);
    }

    /** Everything after the template line: the other lines are all parsed, then merged
        by `fill_array`, and the merged lines are appended only if all of that
        succeeded. */
    method ParseTail(block: Block, rest: seq<string>, date: DateParser, ghost before: seq<Line>)
      returns (failure: Option<Error>)
      requires block.lines == []
      modifies this, block
      ensures delimiter == old(delimiter) && escapechars == old(escapechars)
      ensures var o := TailEntries(LineOf(delimiter.entries, date), old(block.params), rest);
              failure == o.failure && |old(items)| <= |items| && items[..|old(items)|] == old(items) &&
              Shows(items[|old(items)|..], o.done)
      ensures forall l :: l in items[|old(items)|..] ==> fresh(l) && l !in before
      ensures Distinct(items[|old(items)|..])
    {
      var parsed := ParseAll(rest, date);
      if parsed.Err? {
        assert items[|old(items)|..] == [];
        return Some(parsed.error);
      }
      failure := block.FillArray(parsed.value);
      if failure.Some? {
        assert items[|old(items)|..] == [];
        return;
      }
      assert block.lines[0..] == block.lines;
      CarriesShows(block.lines, MergeAll(block.params, parsed.value).done);
      AppendAll(block.lines);
      DropPrefix(old(items), block.lines);
    }

    /** The lines of a paragraph without a block: each becomes a new `Line` with its
        text and its parsed dictionary; a line that raises is not appended, and the
        exception ends `parse`. */
    method ParseFlat(sentences: seq<string>, date: DateParser) returns (failure: Option<Error>)
      modifies this
      ensures delimiter == old(delimiter) && escapechars == old(escapechars)
      ensures var o := FlatEntries(LineOf(delimiter.entries, date), sentences);
              failure == o.failure && |old(items)| <= |items| && items[..|old(items)|] == old(items) &&
              Shows(items[|old(items)|..], o.done)
      ensures forall l :: l in items[|old(items)|..] ==> fresh(l)
      ensures Distinct(items[|old(items)|..])
    {
      ghost var line := LineOf(delimiter.entries, date);
      ghost var added: seq<Line> := [];
      ghost var es: seq<Entry> := [];
      var k := 0;
      while k < |sentences|
        invariant k <= |sentences| && delimiter == old(delimiter) && escapechars == old(escapechars)
        invariant items == old(items) + added
        invariant FlatEntries(line, sentences[..k]) == Outcome(es, None)
        invariant Shows(added, es) && Distinct(added)
        invariant forall l :: l in added ==> fresh(l)
      {
        var s := sentences[k];
        var r := ParseLine(s, date);
        LineOfApply(delimiter.entries, date, s);
        FlatStepParsed(line, sentences, k, r);
        if r.Err? {
          assert items[|old(items)|..] == added;
          return Some(r.error);
        }
        var l := AppendEntry(Some(s), r.value, added, es);
        added := added + [l];
        es := es + [Entry(r.value, Some(s))];
        k := k + 1;
      }
      assert sentences[..k] == sentences;
      assert items[|old(items)|..] == added;
      failure := None;
    }
  }
}
