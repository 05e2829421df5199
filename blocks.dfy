/** Lines and template blocks. A block's first line is a template: every later line keeps
    its own values, and a value left empty (`''` or `[]`) is taken from the template
    (`Block.fill_array`). */
module Blocks {
  import opened Base
  import opened PyDict
  import opened LineExtract

  /** A parsed line. `Line()` sets no attribute, so `text` is `None` until the parser
      assigns `line.string`, which it does only for lines outside a block. */
  class Line {
    var params: Fields
    var text: Option<string>

    constructor()
      ensures params == [] && text == None
    {
      params := [];
      text := None;
    }
  }

  /** No line object appears twice. */
  ghost predicate Distinct(ls: seq<Line>) {
    forall i, j :: 0 <= i < j < |ls| ==> ls[i] != ls[j]
  }

  lemma DistinctSnoc(ls: seq<Line>, l: Line)
    requires Distinct(ls) && l !in ls
    ensures Distinct(ls + [l])
  {
  }

  lemma DistinctConcat(xs: seq<Line>, ys: seq<Line>)
    requires Distinct(xs) && Distinct(ys) && forall l :: l in ys ==> l !in xs
    ensures Distinct(xs + ys)
  {
    forall i, j | 0 <= i < j < |xs + ys|
      ensures (xs + ys)[i] != (xs + ys)[j]
    {
      if j >= |xs| {
        assert (xs + ys)[j] == ys[j - |xs|] && ys[j - |xs|] in ys;
        if i >= |xs| {
          assert (xs + ys)[i] == ys[i - |xs|];
        } else {
          assert (xs + ys)[i] == xs[i];
        }
      }
    }
  }

  /** The value a merged line holds under `key`: its own value unless that is `''` or
      `[]`, and then the template's, which must exist (`self.params[key]`). */
  function MergeValue(template: Fields, key: string, v: Field): (r: Result<Field>)
    ensures r.Err? <==> Unset(v) && key !in Keys(template)
    ensures r.Ok? && !Unset(v) ==> r.value == v
    ensures r.Ok? && Unset(v) ==> Some(r.value) == Get(template, key)
  {
    if Unset(v) then
      match Get(template, key)
      case None => Err(KeyError)
      case Some(t) => Ok(t)
    else Ok(v)
  }

  /** The dictionary `temp` that the inner loop of `fill_array` builds for one child line,
      or the `KeyError` it raises. */
  function Merged(template: Fields, child: Fields): Result<Fields>
    decreases |child|
  {
    if child == [] then Ok([])
    else
      var n := |child| - 1;
      var acc :- Merged(template, child[..n]);
      var v :- MergeValue(template, child[n].0, child[n].1);
      Ok(Set(acc, child[n].0, v))
  }

  /** A merged line has exactly the child's keys, in the child's order, and under each of
      them the child's value or, when that is empty, the template's. Template-only keys
      are not added. */
  lemma {:induction false} MergedEntries(template: Fields, child: Fields)
    requires UniqueKeys(child) && Merged(template, child).Ok?
    ensures var r := Merged(template, child).value;
            |r| == |child| &&
            forall i :: 0 <= i < |child| ==>
              r[i].0 == child[i].0 && MergeValue(template, child[i].0, child[i].1) == Ok(r[i].1)
    decreases |child|
  {
    if child != [] {
      var n := |child| - 1;
      var init := child[..n];
      assert UniqueKeys(init);
      var acc := Merged(template, init).value;
      MergedEntries(template, init);
      KeysIndex(acc);
      assert child[n].0 !in Keys(acc);
    }
  }

  /** An entry whose empty value the template cannot fill. */
  predicate Unfillable(template: Fields, entry: (string, Field)) {
    Unset(entry.1) && entry.0 !in Keys(template)
  }

  /** The merge raises exactly when some key of the child is empty there and missing from
      the template; the exception is then `KeyError`. */
  lemma {:induction false} MergedFails(template: Fields, child: Fields)
    ensures Merged(template, child).Ok? <==>
              forall i :: 0 <= i < |child| ==> !Unfillable(template, child[i])
    ensures Merged(template, child).Err? ==> Merged(template, child).error == KeyError
    decreases |child|
  {
    if child != [] {
      var n := |child| - 1;
      var init := child[..n];
      MergedFails(template, init);
      MergedLast(template, child);
      assert forall i :: 0 <= i < n ==> init[i] == child[i];
    }
  }

  lemma MergedLast(template: Fields, child: Fields)
    requires child != []
    ensures var n := |child| - 1;
            (Merged(template, child).Err? <==>
               Merged(template, child[..n]).Err? || Unfillable(template, child[n])) &&
            (Merged(template, child).Err? ==>
               Merged(template, child).error == KeyError || Merged(template, child[..n]).Err?) &&
            (Merged(template, child[..n]).Err? ==> Merged(template, child) == Merged(template, child[..n]))
  {
  }

  /** What `fill_array` leaves behind for a list of parsed child lines: the merged lines
      it appended before the first `KeyError`, and that error if there was one. */
  function MergeAll(template: Fields, parsed: seq<Fields>): Outcome<Fields>
    decreases |parsed|
  {
    if parsed == [] then Outcome([], None)
    else
      var n := |parsed| - 1;
      var o := MergeAll(template, parsed[..n]);
      if o.failure.Some? then o
      else
        match Merged(template, parsed[n])
        case Err(e) => Outcome(o.done, Some(e))
        case Ok(m) => Outcome(o.done + [m], None)
  }

  /** One merged line per child, in order, up to the first child whose merge raises; with
      no such child, every child is merged. */
  lemma {:induction false} MergeAllSpec(template: Fields, parsed: seq<Fields>)
    ensures var o := MergeAll(template, parsed);
            |o.done| <= |parsed| &&
            (forall i :: 0 <= i < |o.done| ==> Merged(template, parsed[i]) == Ok(o.done[i])) &&
            (o.failure.None? ==> |o.done| == |parsed|) &&
            (o.failure.Some? ==> |o.done| < |parsed| &&
                                 Merged(template, parsed[|o.done|]) == Err(o.failure.value))
    decreases |parsed|
  {
    if parsed != [] {
      var n := |parsed| - 1;
      var init := parsed[..n];
      MergeAllSpec(template, init);
      assert forall i :: 0 <= i < n ==> init[i] == parsed[i];
      assert parsed[..n] == init;
      if MergeAll(template, init).failure.None? {
        MergeAllStep(template, parsed, n);
      }
    }
  }

  /** A template block: its first line's dictionary and the merged lines after it. */
  class Block {
    var params: Fields
    var text: Option<string>
    var lines: seq<Line>

    /** `Block()`: only `lines` is set by the constructor. */
    constructor()
      ensures params == [] && text == None && lines == []
    {
      params := [];
      text := None;
      lines := [];
    }

    /** `fill_array`: one new line per parsed child, merged with the template, appended
        in order; a `KeyError` stops the loop, and the lines appended before it stay. */
    method FillArray(parsed: seq<Fields>) returns (failure: Option<Error>)
      modifies this
      ensures params == old(params) && text == old(text)
      ensures var o := MergeAll(params, parsed);
              failure == o.failure && |old(lines)| <= |lines| && lines[..|old(lines)|] == old(lines) &&
              Carries(lines[|old(lines)|..], o.done)
      ensures forall l :: l in lines[|old(lines)|..] ==> fresh(l)
      ensures Distinct(lines[|old(lines)|..])
    {
      ghost var added: seq<Line> := [];
      ghost var ds: seq<Fields> := [];
      var k := 0;
      while k < |parsed|
        invariant k <= |parsed| && params == old(params) && text == old(text)
        invariant lines == old(lines) + added
        invariant MergeAll(params, parsed[..k]) == Outcome(ds, None)
        invariant Carries(added, ds) && Distinct(added)
        invariant forall l :: l in added ==> fresh(l)
      {
        var temp := MergeLine(parsed[k]);
        MergeAllStep(params, parsed, k);
        if temp.Err? {
          MergeAllSticks(params, parsed, k + 1);
          assert lines[|old(lines)|..] == added;
          return Some(temp.error);
        }
        var l := AddLine(temp.value);
        DistinctSnoc(added, l);
        CarriesSnoc(added, ds, l, temp.value);
        added := added + [l];
        ds := ds + [temp.value];
        k := k + 1;
      }
      assert parsed[..k] == parsed;
      assert lines[|old(lines)|..] == added;
      failure := None;
    }

    /** The inner loop of `fill_array` for one child line: the dictionary `temp`, or the
        `KeyError` of `self.params[key]`. */
    method MergeLine(child: Fields) returns (r: Result<Fields>)
      ensures r == Merged(params, child)
    {
      var temp: Fields := [];
      var j := 0;
      while j < |child|
        invariant j <= |child|
        invariant Merged(params, child[..j]) == Ok(temp)
      {
        var key, value := child[j].0, child[j].1;
        assert child[..j + 1][..j] == child[..j];
        if Unset(value) {
          var t := Get(params, key);
          if t.None? {
            assert Merged(params, child[..j + 1]) == Err(KeyError);
            MergedErrSticks(params, child, j + 1);
            return Err(KeyError);
          }
          temp := Set(temp, key, t.value);
        } else {
          temp := Set(temp, key, value);
        }
        j := j + 1;
      }
      assert child[..j] == child;
      return Ok(temp);
    }

    /** `this_line = Line(); this_line.params = temp; self.lines.append(this_line)`. */
    method AddLine(temp: Fields) returns (l: Line)
      modifies this
      ensures fresh(l) && l.params == temp && l.text == None && lines == old(lines) + [l]
      ensures params == old(params) && text == old(text)
    {
      l := new Line();
      l.params := temp;
      lines := lines + [l];
    }
  }

  /** The lines `ls` are untitled lines holding the dictionaries `ds`, in order. */
  ghost predicate Carries(ls: seq<Line>, ds: seq<Fields>)
    reads ls
  {
    |ls| == |ds| && forall i :: 0 <= i < |ls| ==> ls[i].params == ds[i] && ls[i].text == None
  }

  lemma CarriesSnoc(ls: seq<Line>, ds: seq<Fields>, l: Line, d: Fields)
    requires Carries(ls, ds) && l.params == d && l.text == None
    ensures Carries(ls + [l], ds + [d])
  {
  }

  /** One more child line for `fill_array`. */
  lemma MergeAllStep(template: Fields, parsed: seq<Fields>, k: nat)
    requires k < |parsed| && MergeAll(template, parsed[..k]).failure.None?
    ensures Merged(template, parsed[k]).Err? ==>
              MergeAll(template, parsed[..k + 1]) ==
              Outcome(MergeAll(template, parsed[..k]).done, Some(Merged(template, parsed[k]).error))
    ensures Merged(template, parsed[k]).Ok? ==>
              MergeAll(template, parsed[..k + 1]) ==
              Outcome(MergeAll(template, parsed[..k]).done + [Merged(template, parsed[k]).value], None)
  {
    assert parsed[..k + 1][..k] == parsed[..k] && parsed[..k + 1][k] == parsed[k];
  }

  /** Once the inner loop has raised, the rest of the child line does not matter. */
  lemma {:induction false} MergedErrSticks(template: Fields, child: Fields, n: nat)
    requires n <= |child| && Merged(template, child[..n]).Err?
    ensures Merged(template, child) == Merged(template, child[..n])
    decreases |child|
  {
    if n < |child| {
      var init := child[..|child| - 1];
      assert init[..n] == child[..n];
      MergedErrSticks(template, init, n);
    } else {
      assert child[..n] == child;
    }
  }

  /** Once a child has raised, `fill_array` merges nothing more. */
  lemma {:induction false} MergeAllSticks(template: Fields, parsed: seq<Fields>, n: nat)
    requires n <= |parsed| && MergeAll(template, parsed[..n]).failure.Some?
    ensures MergeAll(template, parsed) == MergeAll(template, parsed[..n])
    decreases |parsed|
  {
    if n < |parsed| {
      var init := parsed[..|parsed| - 1];
      assert init[..n] == parsed[..n];
      MergeAllSticks(template, init, n);
    } else {
      assert parsed[..n] == parsed;
    }
  }
}
