/** `ThingsAdapter.create`: the parsed lines become Things records. A line naming a new
    project becomes a project; any other line becomes a to-do, after its checklist and
    heading values are replaced by the printed form of the records they stand for, and a
    to-do with nothing in it is dropped. */
module Adapter {
  import opened Base
  import opened PyStr
  import opened PyDict
  import opened LineExtract
  import opened Blocks
  import opened Coder

  /** `str(...)` of a record; its exact text is not modelled. */
  type Show = ItemValue -> string

  /** A line value handed to a constructor as a keyword argument. */
  function ToValue(f: Field): Value {
    match f
    case Text(s) => Str(s)
    case Items(xs) => List(xs)
  }

  /** `**line.params`. */
  function ToValues(p: Fields): Dict<Value> {
    seq(|p|, i requires 0 <= i < |p| => (p[i].0, ToValue(p[i].1)))
  }

  /** `for checklist in value`: the characters of a string, the elements of a list. */
  function Elements(f: Field): seq<string> {
    match f
    case Text(s) => seq(|s|, i requires 0 <= i < |s| => [s[i]])
    case Items(xs) => xs
  }

  /** The record `TJS...(Operation.CREATE, title=v)` of a kind: it holds the title alone. */
  function TitleItem(kind: Kind, v: Value, date: DateReader): (r: ItemValue)
    ensures Constructed(kind, [("title", v)], date) == Ok(r.attributes)
    ensures r.id == "" && r.operation == Create && r.kind == kind
  {
    TitleOnly(kind, v, date);
    ItemValue("", Create, kind, [("title", Coerce("title", v, date).value)])
  }

  /** The `arr` built for a `checklist-item` value: one printed checklist item per
      element. */
  function Checklist(f: Field, show: Show, date: DateReader): (arr: seq<string>)
    ensures |arr| == |Elements(f)|
  {
    var xs := Elements(f);
    seq(|xs|, i requires 0 <= i < |xs| => show(TitleItem(ChecklistItem, Str(xs[i]), date)))
  }

  /** A line's dictionary after the `checklist-item` and `heading` replacements. */
  function Converted(p: Fields, show: Show, date: DateReader): Fields {
    var p1 :=
      match Get(p, "checklist-item")
      case None => p
      case Some(f) => Set(p, "checklist-item", Items(Checklist(f, show, date)));
    match Get(p1, "heading")
    case None => p1
    case Some(h) => Set(p1, "heading", Text(show(TitleItem(Heading, ToValue(h), date))))
  }

  /** `'new-project' in line.params.keys() and line.params['new-project'] is not ''`. */
  predicate NewProject(p: Fields) {
    Get(p, "new-project").Some? && Get(p, "new-project").value != Text("")
  }

  /** `all(value in ('', []) for value in todo.attributes.values())`. */
  predicate AllUnset(a: Dict<Value>) {
    forall i :: 0 <= i < |a| ==> a[i].1 == Str("") || a[i].1 == List([])
  }

  /** What one line adds to `data`: a project, a to-do, nothing (an empty to-do), or the
      exception of the to-do constructor. */
  function LineItem(p: Fields, show: Show, date: DateReader): Result<Option<ItemValue>> {
    if NewProject(p) then Ok(Some(TitleItem(Project, ToValue(Get(p, "new-project").value), date)))
    else
      var a :- Constructed(Todo, ToValues(Converted(p, show, date)), date);
      if AllUnset(a) then Ok(None) else Ok(Some(ItemValue("", Create, Todo, a)))
  }

  /** The to-do a line adds for the constructed attributes `a`: none when every value
      is empty. */
  function TodoAdded(a: Dict<Value>): (vs: seq<ItemValue>)
    ensures |vs| <= 1
  {
    if AllUnset(a) then [] else [ItemValue("", Create, Todo, a)]
  }

  /** A line's dictionary once `create` has been over it. */
  function NewParams(p: Fields, show: Show, date: DateReader): Fields {
    if NewProject(p) then p else Converted(p, show, date)
  }

  /** What the loop body does with one line's dictionary. */
  type LineStep = Fields -> Result<Option<ItemValue>>

  /** `create`'s loop body as a `LineStep`. */
  function StepOf(show: Show, date: DateReader): LineStep {
    p => LineItem(p, show, date)
  }

  lemma StepOfApply(show: Show, date: DateReader, p: Fields)
    ensures StepOf(show, date)(p) == LineItem(p, show, date)
  {
  }

  /** The record a line adds to `data`, if any. */
  function Added(r: Result<Option<ItemValue>>): (vs: seq<ItemValue>)
    ensures |vs| <= 1
  {
    if r.Ok? && r.value.Some? then [r.value.value] else []
  }

  /** The exception a line raised, if any. */
  function Raised(r: Result<Option<ItemValue>>): Option<Error> {
    if r.Err? then Some(r.error) else None
  }

  /** The records the loop collects from the lines' dictionaries `ps`, in order, up to
      the first exception. */
  function Collected(ps: seq<Fields>, step: LineStep): Outcome<ItemValue>
    decreases |ps|
  {
    if ps == [] then Outcome([], None)
    else
      var n := |ps| - 1;
      var o := Collected(ps[..n], step);
      if o.failure.Some? then o
      else
        var r := step(ps[n]);
        Outcome(o.done + Added(r), Raised(r))
  }

  /** The lines' source texts, which `create` never writes. */
  function TextsOf(ls: seq<Line>): (ts: seq<Option<string>>)
    reads ls
    ensures |ts| == |ls| && forall i :: 0 <= i < |ls| ==> ts[i] == ls[i].text
  {
    if ls == [] then [] else [ls[0].text] + TextsOf(ls[1..])
  }

  /** The lines' dictionaries. */
  function ParamsOf(ls: seq<Line>): (ps: seq<Fields>)
    reads ls
    ensures |ps| == |ls| && forall i :: 0 <= i < |ls| ==> ps[i] == ls[i].params
  {
    if ls == [] then [] else [ls[0].params] + ParamsOf(ls[1..])
  }

  /** A line with a new-project value becomes a project whose only attribute is its
      title: that value, or `True` when it reads as a boolean. */
  lemma NewProjectItem(p: Fields, show: Show, date: DateReader)
    requires NewProject(p)
    ensures var v := ToValue(Get(p, "new-project").value);
            var r := LineItem(p, show, date);
            r.Ok? && r.value.Some? && r.value.value.kind == Project && r.value.value.operation == Create &&
            r.value.value.attributes == [("title", if BoolLike(v) then Bool(Truth(v)) else v)]
  {
    var v := ToValue(Get(p, "new-project").value);
    NoDateKey("title");
  }

  /** Every attribute value is one of the coerced argument values. */
  lemma {:induction false} AttributeValues(allowed: seq<string>, params: Dict<Value>, date: DateReader, j: nat)
    requires Attributes(allowed, params, date).Ok? && j < |Attributes(allowed, params, date).value|
    ensures exists i :: 0 <= i < |params| && Coerce(params[i].0, params[i].1, date) == Ok(Attributes(allowed, params, date).value[j].1)
    decreases |params|
  {
    var n := |params| - 1;
    var init := params[..n];
    var acc := Attributes(allowed, init, date).value;
    var a := Attributes(allowed, params, date).value;
    var key := params[n].0;
    if Lower(key) in allowed {
      var w := Coerce(key, params[n].1, date).value;
      assert a == Set(acc, Lower(key), w);
      SetValue(acc, Lower(key), w, j);
      if a[j].1 != w {
        AttributeValues(allowed, init, date, j);
        var i :| 0 <= i < |init| && Coerce(init[i].0, init[i].1, date) == Ok(acc[j].1);
        assert init[i] == params[i];
      }
    } else {
      AttributeValues(allowed, init, date, j);
      var i :| 0 <= i < |init| && Coerce(init[i].0, init[i].1, date) == Ok(a[j].1);
      assert init[i] == params[i];
    }
  }

  /** After `d[k] = v`, an entry holds `v` or sits where it sat in `d`. */
  lemma {:induction false} SetValue<V>(d: Dict<V>, k: string, v: V, j: nat)
    requires j < |Set(d, k, v)|
    ensures Set(d, k, v)[j].1 == v || (j < |d| && Set(d, k, v)[j] == d[j])
  {
    if d != [] && d[0].0 != k && j > 0 {
      SetValue(d[1..], k, v, j - 1);
      assert Set(d, k, v) == [d[0]] + Set(d[1..], k, v);
    }
  }

  /** A line all of whose values are `''` or `[]`, with no new project, heading, checklist
      or date key, adds nothing: it is dropped, or raises `InvalidParams` when none of its
      keys is a to-do attribute. */
  lemma EmptyTodoDropped(p: Fields, show: Show, date: DateReader)
    requires !NewProject(p) && Get(p, "heading").None? && Get(p, "checklist-item").None?
    requires forall i :: 0 <= i < |p| ==> Unset(p[i].1) && !IsDateKey(p[i].0)
    ensures LineItem(p, show, date) == Ok(None) || LineItem(p, show, date) == Err(InvalidParams)
  {
    EmptyArguments(p, date);
    TodoLine(p, show, date);
  }

  /** A line with no new project, heading or checklist is a to-do built from its
      dictionary as it stands. */
  lemma TodoLine(p: Fields, show: Show, date: DateReader)
    requires !NewProject(p) && Get(p, "heading").None? && Get(p, "checklist-item").None?
    ensures var c := Constructed(Todo, ToValues(p), date);
            LineItem(p, show, date) ==
              if c.Err? then Err(c.error) else Ok(if AllUnset(c.value) then None else Some(ItemValue("", Operation.Create, Todo, c.value)))
  {
    ConvertedWithout(p, show, date);
  }

  /** The keyword arguments of such a line construct a to-do with only empty values, or
      raise `InvalidParams`. */
  lemma EmptyArguments(p: Fields, date: DateReader)
    requires forall i :: 0 <= i < |p| ==> Unset(p[i].1) && !IsDateKey(p[i].0)
    ensures var c := Constructed(Todo, ToValues(p), date);
            c == Err(InvalidParams) || (c.Ok? && AllUnset(c.value))
  {
    var params := ToValues(p);
    forall i | 0 <= i < |params|
      ensures (params[i].1 == Str("") || params[i].1 == List([])) && !IsDateKey(params[i].0)
    {
      assert Unset(p[i].1) && !IsDateKey(p[i].0);
    }
    EmptyConstructed(Todo, params, date);
  }

  /** Without `checklist-item` and `heading` keys the conversion changes nothing. */
  lemma ConvertedWithout(p: Fields, show: Show, date: DateReader)
    requires Get(p, "heading").None? && Get(p, "checklist-item").None?
    ensures Converted(p, show, date) == p
  {
  }

  /** Arguments that are all `''` or `[]` under non-date keys construct nothing but empty
      values, or raise `InvalidParams`. */
  lemma EmptyConstructed(kind: Kind, params: Dict<Value>, date: DateReader)
    requires forall i :: 0 <= i < |params| ==> (params[i].1 == Str("") || params[i].1 == List([])) && !IsDateKey(params[i].0)
    ensures var c := Constructed(kind, params, date);
            c == Err(InvalidParams) || (c.Ok? && AllUnset(c.value))
  {
    ValuesStayEmpty(Whitelist(kind), params, date);
  }

  /** Coercion leaves `''` and `[]` as they are outside date keys. */
  lemma ValuesStayEmpty(allowed: seq<string>, params: Dict<Value>, date: DateReader)
    requires forall i :: 0 <= i < |params| ==> (params[i].1 == Str("") || params[i].1 == List([])) && !IsDateKey(params[i].0)
    ensures Attributes(allowed, params, date).Ok?
    ensures AllUnset(Attributes(allowed, params, date).value)
  {
    forall i | 0 <= i < |params|
      ensures Coerce(params[i].0, params[i].1, date) == Ok(params[i].1)
    {
      assert Lower("") == "";
    }
    NoCoerceFailure(allowed, params, date);
    var a := Attributes(allowed, params, date).value;
    forall j | 0 <= j < |a|
      ensures a[j].1 == Str("") || a[j].1 == List([])
    {
      AttributeValues(allowed, params, date, j);
    }
  }

  /** With no argument whose coercion raises, the loop raises nothing. */
  lemma {:induction false} NoCoerceFailure(allowed: seq<string>, params: Dict<Value>, date: DateReader)
    requires forall i :: 0 <= i < |params| ==> Coerce(params[i].0, params[i].1, date).Ok?
    ensures Attributes(allowed, params, date).Ok?
    decreases |params|
  {
    if params != [] {
      var n := |params| - 1;
      assert forall i :: 0 <= i < n ==> params[..n][i] == params[i];
      NoCoerceFailure(allowed, params[..n], date);
    }
  }

  /** The dictionary `parse_line('')` gives, `{'@': [], 'checklist-items': []}`, yields no
      record. */
  lemma EmptyLineDropped(show: Show, date: DateReader)
    ensures LineItem([("@", Items([])), ("checklist-items", Items([]))], show, date) == Ok(None)
  {
    var p := [("@", Items([])), ("checklist-items", Items([]))];
    assert Get(p, "new-project") == None && Get(p, "heading") == None && Get(p, "checklist-item") == None;
    LowerOfLower("checklist-items");
    LowerOfLower("@");
    assert Lower("checklist-items") in Whitelist(Todo);
    assert !IsDateKey("@") by { NoDateKey("@"); }
    assert !IsDateKey("checklist-items") by { NoDateKey("checklist-items"); }
    EmptyTodoDropped(p, show, date);
    InvalidParamsIff(Todo, ToValues(p), date);
  }

  /** `create` keeps the lines' order: the records of the first `k` lines come first. */
  lemma {:induction false} CollectedPrefix(ps: seq<Fields>, step: LineStep, k: nat)
    requires k <= |ps|
    ensures Collected(ps[..k], step).done <= Collected(ps, step).done
    ensures Collected(ps[..k], step).failure.Some? ==>
              Collected(ps, step) == Collected(ps[..k], step)
    decreases |ps|
  {
    if k < |ps| {
      var n := |ps| - 1;
      assert ps[..n][..k] == ps[..k];
      CollectedPrefix(ps[..n], step, k);
    } else {
      assert ps[..k] == ps;
    }
  }

  /** One more line. */
  lemma CollectedStep(ps: seq<Fields>, step: LineStep, k: nat)
    requires k < |ps| && Collected(ps[..k], step).failure.None?
    ensures var o := Collected(ps[..k], step);
            Collected(ps[..k + 1], step) == Outcome(o.done + Added(step(ps[k])), Raised(step(ps[k])))
  {
    assert ps[..k + 1][..k] == ps[..k] && ps[..k + 1][k] == ps[k];
  }

  /** One more line on top of `before + done`: the records it adds follow, and its
      exception becomes the loop's. */
  lemma AdvanceOutcome(ps: seq<Fields>, step: LineStep, k: nat, before: seq<ItemValue>,
                       mid: seq<ItemValue>, after: seq<ItemValue>, r: Result<Option<ItemValue>>)
    requires k < |ps| && Collected(ps[..k], step).failure.None?
    requires mid == before + Collected(ps[..k], step).done
    requires r == step(ps[k]) && after == mid + Added(r)
    ensures var o := Collected(ps[..k + 1], step);
            Raised(r) == o.failure && after == before + o.done
  {
    CollectedStep(ps, step, k);
    AppendAssoc(before, Collected(ps[..k], step).done, Added(r));
  }

  /** A shorter prefix has an exception only when the longer one ends with it. */
  lemma PrefixFailure(ps: seq<Fields>, step: LineStep, i: nat, k: nat)
    requires i <= k <= |ps|
    ensures Collected(ps[..i], step).failure.Some? ==> Collected(ps[..k], step) == Collected(ps[..i], step)
  {
    assert ps[..k][..i] == ps[..i];
    CollectedPrefix(ps[..k], step, i);
  }

  /** Once a line has raised, every longer prefix carries that exception; before it, no
      prefix does. */
  lemma CollectedFailsAt(ps: seq<Fields>, step: LineStep, k: nat)
    requires k < |ps| && Collected(ps[..k], step).failure.None?
    requires Collected(ps[..k + 1], step).failure.Some?
    ensures Collected(ps, step) == Collected(ps[..k + 1], step)
    ensures forall i :: 0 <= i <= |ps| ==> (Collected(ps[..i], step).failure.None? <==> i <= k)
  {
    PrefixFailure(ps, step, k + 1, |ps|);
    assert ps[..|ps|] == ps;
    forall i | 0 <= i <= |ps|
      ensures Collected(ps[..i], step).failure.None? <==> i <= k
    {
      if i <= k {
        PrefixFailure(ps, step, i, k);
      } else {
        PrefixFailure(ps, step, k + 1, i);
      }
    }
  }

  /** Without an exception in the first `k` lines, none of their prefixes has one. */
  lemma CollectedNoFailure(ps: seq<Fields>, step: LineStep, k: nat)
    requires k <= |ps| && Collected(ps[..k], step).failure.None?
    ensures forall i :: 0 <= i <= k ==> Collected(ps[..i], step).failure.None?
  {
    forall i | 0 <= i <= k
      ensures Collected(ps[..i], step).failure.None?
    {
      PrefixFailure(ps, step, i, k);
    }
  }

  /** The lines' dictionaries `now` after `create` went over `ps`: a line is rewritten
      exactly when no line before it raised. */
  ghost predicate Rewritten(now: seq<Fields>, ps: seq<Fields>, show: Show, date: DateReader) {
    |now| == |ps| &&
    forall i :: 0 <= i < |ps| ==>
      now[i] == if Collected(ps[..i], StepOf(show, date)).failure.None? then NewParams(ps[i], show, date) else ps[i]
  }

  /** The lines' state when line `k` raised: it and the lines before it are rewritten,
      the rest are untouched. */
  lemma RewrittenAfterFailure(now: seq<Fields>, ps: seq<Fields>, show: Show, date: DateReader, k: nat)
    requires k < |ps| == |now|
    requires Collected(ps[..k], StepOf(show, date)).failure.None?
    requires Collected(ps[..k + 1], StepOf(show, date)).failure.Some?
    requires now == RewrittenUpTo(ps, k + 1, show, date)
    ensures Rewritten(now, ps, show, date)
    ensures Collected(ps, StepOf(show, date)) == Collected(ps[..k + 1], StepOf(show, date))
  {
    CollectedFailsAt(ps, StepOf(show, date), k);
    forall i | 0 <= i < |ps| {
      RewrittenUpToAt(ps, k + 1, show, date, i);
    }
  }

  /** The lines' state when no line raised: every line is rewritten. */
  lemma RewrittenAll(now: seq<Fields>, ps: seq<Fields>, show: Show, date: DateReader)
    requires Collected(ps, StepOf(show, date)).failure.None?
    requires now == RewrittenUpTo(ps, |ps|, show, date)
    ensures Rewritten(now, ps, show, date)
  {
    assert ps[..|ps|] == ps;
    CollectedNoFailure(ps, StepOf(show, date), |ps|);
    forall i | 0 <= i < |ps| {
      RewrittenUpToAt(ps, |ps|, show, date, i);
    }
  }

  /** The lines' dictionaries while `create`'s loop is at line `k`: those before it are
      rewritten, the others are as they were (`RewrittenUpToAt`). */
  function RewrittenUpTo(ps: seq<Fields>, k: nat, show: Show, date: DateReader): (now: seq<Fields>)
    requires k <= |ps|
    ensures |now| == |ps|
  {
    if k == 0 then ps else RewrittenUpTo(ps, k - 1, show, date)[k - 1 := NewParams(ps[k - 1], show, date)]
  }

  /** Line `i` of the loop's state at line `k`. */
  lemma {:induction false} RewrittenUpToAt(ps: seq<Fields>, k: nat, show: Show, date: DateReader, i: nat)
    requires k <= |ps| && i < |ps|
    ensures RewrittenUpTo(ps, k, show, date)[i] == if i < k then NewParams(ps[i], show, date) else ps[i]
  {
    if k > 0 {
      RewrittenUpToAt(ps, k - 1, show, date, i);
    }
  }

  /** Two sequences that agree everywhere but at `k`. */
  lemma UpdatedAt<T>(now: seq<T>, was: seq<T>, k: nat)
    requires |now| == |was| && k < |now|
    requires forall i :: 0 <= i < |now| && i != k ==> now[i] == was[i]
    ensures now == was[k := now[k]]
  {
  }

  lemma AppendAssoc<T>(a: seq<T>, b: seq<T>, c: seq<T>)
    ensures (a + b) + c == a + (b + c)
  {
  }

  /** The loop building `arr`: one `TJSChecklistItem` per element, printed. */
  method ChecklistTitles(f: Field, show: Show, date: DateReader) returns (arr: seq<string>)
    ensures arr == Checklist(f, show, date)
  {
    var xs := Elements(f);
    ghost var spec := Checklist(f, show, date);
    arr := [];
    for i := 0 to |xs|
      invariant arr == spec[..i]
    {
      var title := ChecklistTitle(xs[i], show, date);
      ChecklistAt(f, show, date, i);
      assert spec[..i + 1] == spec[..i] + [title];
      arr := arr + [title];
    }
    assert spec[..|xs|] == spec;
  }

  /** Entry `i` of the checklist. */
  lemma ChecklistAt(f: Field, show: Show, date: DateReader, i: nat)
    requires i < |Elements(f)|
    ensures Checklist(f, show, date)[i] == show(TitleItem(ChecklistItem, Str(Elements(f)[i]), date))
  {
  }

  /** One turn of that loop: `str(TJSChecklistItem(Operation.CREATE, title=x))`. */
  method ChecklistTitle(x: string, show: Show, date: DateReader) returns (title: string)
    ensures title == show(TitleItem(ChecklistItem, Str(x), date))
  {
    var item := NewItem(ChecklistItem, Operation.Create, [("title", Str(x))], date);
    TitleOnly(ChecklistItem, Str(x), date);
    title := show(View(item.value));
  }

  /** `ThingsAdapter`: the parsed lines and the records collected from them. */
  class ThingsAdapter {
    var items: seq<Line>
    var data: seq<Item>

    constructor(items: seq<Line>)
      ensures this.items == items && data == []
    {
      this.items := items;
      data := [];
    }

    /** `create()`: every line in order, then the container's export, with the reveal
        flag off. A line is rewritten exactly when no earlier line raised; an exception
        from a to-do constructor ends the loop, and the records collected before it stay
        in `data`. */
    method Create(show: Show, date: DateReader) returns (r: Result<seq<Record>>)
      requires Distinct(items)
      modifies this, items
      ensures items == old(items)
      ensures TextsOf(items) == old(TextsOf(items))
      ensures var o := Collected(old(ParamsOf(items)), StepOf(show, date));
              Views(data) == old(Views(data)) + o.done &&
              (o.failure.Some? ==> r == Err(o.failure.value)) &&
              (o.failure.None? ==> r == Ok(Exported(Views(data), false)))
      ensures Rewritten(ParamsOf(items), old(ParamsOf(items)), show, date)
    {
      ghost var ps := ParamsOf(items);
      var failure := CollectAll(show, date, ps);
      if failure.Some? {
        return Err(failure.value);
      }
      var records := Finish();
      r := Ok(records);
    }

    /** The end of `create`: the container of the collected records, exported with the
        reveal flag off. */
    method Finish() returns (records: seq<Record>)
      ensures records == Exported(Views(data), false)
    {
      var container := new Container(data);
      records := container.Export();
    }

    /** `create`'s loop over the lines, whose dictionaries are `ps` on entry. */
    method CollectAll(show: Show, date: DateReader, ghost ps: seq<Fields>) returns (failure: Option<Error>)
      requires Distinct(items) && ps == ParamsOf(items)
      modifies this, items
      ensures items == old(items)
      ensures TextsOf(items) == old(TextsOf(items))
      ensures var o := Collected(ps, StepOf(show, date));
              Views(data) == old(Views(data)) + o.done && failure == o.failure
      ensures Rewritten(ParamsOf(items), ps, show, date)
    {
      ghost var before := Views(data);
      ghost var step := StepOf(show, date);
      failure := None;
      var k := 0;
      while k < |items|
        invariant k <= |items| && items == old(items) && failure.None?
        invariant TextsOf(items) == old(TextsOf(items))
        invariant Collected(ps[..k], step).failure.None?
        invariant Views(data) == before + Collected(ps[..k], step).done
        invariant ParamsOf(items) == RewrittenUpTo(ps, k, show, date)
      {
        failure := Advance(show, date, ps, before, k);
        if failure.Some? {
          RewrittenAfterFailure(ParamsOf(items), ps, show, date, k);
          return;
        }
        k := k + 1;
      }
      assert ps[..k] == ps;
      RewrittenAll(ParamsOf(items), ps, show, date);
    }

    /** One turn of `create`'s loop, on line `k`, when no earlier line raised: `data`
        grows by what the line adds, and the line is rewritten. */
    method Advance(show: Show, date: DateReader, ghost ps: seq<Fields>, ghost before: seq<ItemValue>, k: nat)
      returns (failure: Option<Error>)
      requires Distinct(items) && k < |items| == |ps|
      requires Collected(ps[..k], StepOf(show, date)).failure.None?
      requires Views(data) == before + Collected(ps[..k], StepOf(show, date)).done
      requires ParamsOf(items) == RewrittenUpTo(ps, k, show, date)
      modifies this, items[k]
      ensures items == old(items)
      ensures TextsOf(items) == old(TextsOf(items))
      ensures var o := Collected(ps[..k + 1], StepOf(show, date));
              failure == o.failure && Views(data) == before + o.done
      ensures ParamsOf(items) == RewrittenUpTo(ps, k + 1, show, date)
    {
      ghost var step := StepOf(show, date);
      ghost var mid := Views(data);
      RewrittenUpToAt(ps, k, show, date, k);
      failure := RewriteAt(k, show, date);
      AdvanceOutcome(ps, step, k, before, mid, Views(data), step(ps[k]));
    }

    /** Line `k` goes through `create`'s loop body; the other lines are untouched. */
    method RewriteAt(k: nat, show: Show, date: DateReader) returns (failure: Option<Error>)
      requires Distinct(items) && k < |items|
      modifies this, items[k]
      ensures items == old(items)
      ensures TextsOf(items) == old(TextsOf(items))
      ensures ParamsOf(items) == old(ParamsOf(items))[k := NewParams(old(items[k].params), show, date)]
      ensures var r := StepOf(show, date)(old(items[k].params));
              failure == Raised(r) && Views(data) == old(Views(data)) + Added(r)
    {
      ghost var pre, texts := ParamsOf(items), TextsOf(items);
      var line := items[k];
      failure := CreateLine(line, show, date);
      ghost var now, tnow := ParamsOf(items), TextsOf(items);
      forall i | 0 <= i < |items| && i != k
        ensures now[i] == pre[i] && tnow[i] == texts[i]
      {
        assert items[i] != line;
        assert now[i] == items[i].params && tnow[i] == items[i].text;
        assert pre[i] == old(items[i].params) && texts[i] == old(items[i].text);
      }
      UpdatedAt(now, pre, k);
      UpdatedAt(tnow, texts, k);
    }

    /** The body of `create`'s loop for one line. */
    method CreateLine(line: Line, show: Show, date: DateReader) returns (failure: Option<Error>)
      modifies this, line
      ensures items == old(items)
      ensures line.text == old(line.text)
      ensures line.params == NewParams(old(line.params), show, date)
      ensures var r := StepOf(show, date)(old(line.params));
              failure == Raised(r) && Views(data) == old(Views(data)) + Added(r)
    {
      var p := line.params;
      StepOfApply(show, date, p);
      if NewProject(p) {
        AddProject(p, date);
        return None;
      }
      ConvertLine(line, show, date);
      failure := AddTodo(line.params, date);
    }

    /** The `new-project` branch: a project titled by the value. */
    method AddProject(p: Fields, date: DateReader)
      requires NewProject(p)
      modifies this
      ensures items == old(items)
      ensures Views(data) == old(Views(data)) + [TitleItem(Project, ToValue(Get(p, "new-project").value), date)]
    {
      var title := ToValue(Get(p, "new-project").value);
      var project := NewItem(Project, Operation.Create, [("title", title)], date);
      TitleOnly(Project, title, date);
      ViewsSnoc(data, project.value);
      data := data + [project.value];
    }

    /** The to-do branch, on the converted dictionary `q`: the constructor's exception,
        nothing for a to-do whose attributes are all empty, or the to-do. */
    method AddTodo(q: Fields, date: DateReader) returns (failure: Option<Error>)
      modifies this
      ensures items == old(items)
      ensures var c := Constructed(Todo, ToValues(q), date);
              (c.Err? ==> failure == Some(c.error) && Views(data) == old(Views(data))) &&
              (c.Ok? ==> failure.None? && Views(data) == old(Views(data)) + TodoAdded(c.value))
    {
      var todo := NewItem(Todo, Operation.Create, ToValues(q), date);
      if todo.Err? {
        return Some(todo.error);
      }
      if AllUnset(todo.value.attributes) {
        return None;
      }
      ViewsSnoc(data, todo.value);
      data := data + [todo.value];
      return None;
    }

    /** The `checklist-item` and `heading` replacements of `create`'s loop body. */
    method ConvertLine(line: Line, show: Show, date: DateReader)
      modifies line
      ensures line.text == old(line.text)
      ensures line.params == Converted(old(line.params), show, date)
    {
      var checklist := Get(line.params, "checklist-item");
      if checklist.Some? {
        var arr := ChecklistTitles(checklist.value, show, date);
        line.params := Set(line.params, "checklist-item", Items(arr));
      }
      var heading := Get(line.params, "heading");
      if heading.Some? {
        var header := NewItem(Heading, Operation.Create, [("title", ToValue(heading.value))], date);
        TitleOnly(Heading, ToValue(heading.value), date);
        line.params := Set(line.params, "heading", Text(show(View(header.value))));
      }
    }
  }
}
