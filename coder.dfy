/** The Things JSON coder: records of four kinds built from keyword arguments through a
    per-kind whitelist, and the container that exports them as a list of records. */
module Coder {
  import opened Base
  import opened PyStr
  import opened PyDict

  /** `Operation`: an enum with two members. */
  datatype Operation = Create | Update

  /** `Operation.__str__` as written: `self.CREATE` looks up a member, which is always
      truthy, so the `"update"` branch is never taken. */
  function OperationStr(op: Operation): (s: string)
    ensures s == "create"
  {
    "create"
  }

  /** The evident intent of `Operation.__str__`: each member by its own name. */
  function OperationName(op: Operation): (s: string)
    ensures s == "create" <==> op == Create
    ensures s == "update" <==> op == Update
  {
    match op
    case Create => "create"
    case Update => "update"
  }

  /** As written, both members print alike, so `str` cannot tell an update from a
      creation. */
  lemma {:induction false} OperationStrConfuses()
    ensures OperationStr(Update) == OperationStr(Create) == "create"
    ensures OperationStr(Update) != OperationName(Update)
  {
    assert OperationStr(Update) == "create";
    assert OperationName(Update) == "update";
    assert "create"[0] != "update"[0];
  }

  /** The intended names tell the members apart, and give back the member. */
  lemma {:induction false} OperationNameInjective(a: Operation, b: Operation)
    ensures OperationName(a) == OperationName(b) <==> a == b
  {
    if a != b {
      assert "create"[0] != "update"[0];
    }
  }

  /** An argument value: a string, a list of strings, or a boolean after coercion. */
  datatype Value = Str(s: string) | List(xs: seq<string>) | Bool(b: bool)

  /** `str(value).lower() in ['true', 'false']`. A list prints with a leading `[`, and a
      boolean prints as `True` or `False`. */
  predicate BoolLike(v: Value) {
    match v
    case Str(s) => Lower(s) == "true" || Lower(s) == "false"
    case Bool(_) => true
    case List(_) => false
  }

  /** `bool(value)`: emptiness for strings and lists. */
  function Truth(v: Value): bool {
    match v
    case Str(s) => s != []
    case List(xs) => xs != []
    case Bool(b) => b
  }

  /** `'date' in str(key).lower()`. */
  predicate IsDateKey(key: string) {
    Find(Lower(key), "date", 0).Some?
  }

  /** `parser.parse(value).isoformat()` of the date library: `None` when it raises. */
  type DateReader = string -> Option<string>

  /** The value stored for a kept argument: a true/false-looking value becomes
      `bool(value)`, and only otherwise does a date key go through the date reader, which
      refuses a list with `TypeError`. */
  function Coerce(key: string, v: Value, date: DateReader): (r: Result<Value>)
    ensures r.Err? ==> IsDateKey(key) && !BoolLike(v)
    ensures BoolLike(v) ==> r == Ok(Bool(Truth(v)))
    ensures !BoolLike(v) && !IsDateKey(key) ==> r == Ok(v)
  {
    if BoolLike(v) then Ok(Bool(Truth(v)))
    else if IsDateKey(key) then
      if !v.Str? then Err(TypeError)
      else if date(v.s).None? then Err(DateParseError)
      else Ok(Str(date(v.s).value))
    else Ok(v)
  }

  /** Any string that reads as `true` or `false`, in any case, is stored as `True`: it is
      not empty. Booleans are stored unchanged. */
  lemma {:induction false} CoerceBoolLike(key: string, v: Value, date: DateReader)
    requires BoolLike(v)
    ensures v.Str? ==> Coerce(key, v, date) == Ok(Bool(true))
    ensures v.Bool? ==> Coerce(key, v, date) == Ok(v)
  {
    if v.Str? {
      assert |Lower(v.s)| == |v.s|;
      assert |Lower(v.s)| >= 4;
    }
  }

  /** `'false'` becomes `True`. */
  lemma {:induction false} FalseBecomesTrue(key: string, date: DateReader)
    ensures Coerce(key, Str("false"), date) == Ok(Bool(true))
  {
    assert Lower("false") == "false";
    CoerceBoolLike(key, Str("false"), date);
  }

  /** The four record kinds. */
  datatype Kind = Todo | Project | Heading | ChecklistItem

  /** `possible_params` of each kind's constructor. */
  function Whitelist(k: Kind): seq<string> {
    match k
    case Todo =>
      ["title", "notes", "prepend-notes", "append-notes", "when", "deadline", "tags", "add-tags",
       "checklist-items", "prepend-checklist-items", "append-checklist-items", "list-id", "list",
       "heading", "completed", "canceled", "creation-date", "completion-date"]
    case Project =>
      ["title", "notes", "prepend-notes", "append-notes", "when", "deadline", "tags", "add-tags",
       "area-id", "area", "items", "completed", "canceled", "creation-date", "completion-date"]
    case Heading => ["title", "archived", "creation-date", "completion-date"]
    case ChecklistItem => ["title", "completed", "canceled", "creation-date", "completion-date"]
  }

  /** The `type` each constructor sets. */
  function TypeTag(k: Kind): string {
    match k
    case Todo => "to-do"
    case Project => "project"
    case Heading => "heading"
    case ChecklistItem => "checklist-item"
  }

  /** Each kind has its own tag. */
  lemma {:induction false} TypeTagsDistinct(a: Kind, b: Kind)
    ensures TypeTag(a) == TypeTag(b) <==> a == b
  {
    if a != b {
      assert TypeTag(a)[0] != TypeTag(b)[0] || |TypeTag(a)| != |TypeTag(b)|;
    }
  }

  /** Every kind accepts a title. */
  lemma TitleWhitelisted(k: Kind)
    ensures "title" in Whitelist(k)
  {
    assert Whitelist(k)[0] == "title";
  }

  /** The constructor's loop over `parameters.items()` for a kind accepting the keys
      `allowed`: the attributes after the arguments `params`, keyed by the lowered key,
      or the exception a coercion raised. */
  function Attributes(allowed: seq<string>, params: Dict<Value>, date: DateReader): (r: Result<Dict<Value>>)
    ensures r.Ok? ==> forall k :: k in Keys(r.value) ==> k in allowed
    ensures r.Err? ==> r.error != InvalidParams
    decreases |params|
  {
    if params == [] then Ok([])
    else
      var n := |params| - 1;
      var acc :- Attributes(allowed, params[..n], date);
      Store(allowed, acc, params[n].0, params[n].1, date)
  }

  /** One turn of the loop: an accepted argument is coerced and stored under its lowered
      key; any other is skipped. */
  function Store(allowed: seq<string>, acc: Dict<Value>, key: string, v: Value, date: DateReader): Result<Dict<Value>> {
    if Lower(key) in allowed then
      var w :- Coerce(key, v, date);
      Ok(Set(acc, Lower(key), w))
    else Ok(acc)
  }

  /** The lowered argument keys that `allowed` accepts. */
  ghost function KeptKeys(allowed: seq<string>, params: Dict<Value>): set<string> {
    set i | 0 <= i < |params| && Lower(params[i].0) in allowed :: Lower(params[i].0)
  }

  /** An argument is kept, under its lowered key, exactly when that key is whitelisted;
      nothing else is stored. */
  lemma {:induction false} AttributesKeys(allowed: seq<string>, params: Dict<Value>, date: DateReader)
    requires Attributes(allowed, params, date).Ok?
    ensures Keys(Attributes(allowed, params, date).value) == KeptKeys(allowed, params)
    decreases |params|
  {
    if params != [] {
      var n := |params| - 1;
      var init := params[..n];
      var acc := Attributes(allowed, init, date);
      assert acc.Ok?;
      AttributesKeys(allowed, init, date);
      var key := params[n].0;
      KeptKeysSnoc(allowed, params);
      assert Attributes(allowed, params, date) == Store(allowed, acc.value, key, params[n].1, date);
    }
  }

  /** A kept argument's lowered key holds that argument's coerced value unless a later
      argument with the same lowered key overwrote it. */
  lemma {:induction false} AttributesGet(allowed: seq<string>, params: Dict<Value>, date: DateReader, i: nat)
    requires Attributes(allowed, params, date).Ok?
    requires i < |params| && Lower(params[i].0) in allowed
    requires forall j :: i < j < |params| ==> Lower(params[j].0) != Lower(params[i].0)
    ensures Coerce(params[i].0, params[i].1, date).Ok?
    ensures Get(Attributes(allowed, params, date).value, Lower(params[i].0)) ==
            Some(Coerce(params[i].0, params[i].1, date).value)
    decreases |params|
  {
    var n := |params| - 1;
    var init := params[..n];
    var acc := Attributes(allowed, init, date);
    assert acc.Ok?;
    assert Attributes(allowed, params, date) == Store(allowed, acc.value, params[n].0, params[n].1, date);
    if i < n {
      assert init[i] == params[i];
      forall j | i < j < |init|
        ensures Lower(init[j].0) != Lower(init[i].0)
      {
        assert init[j] == params[j];
      }
      AttributesGet(allowed, init, date, i);
    }
  }

  lemma KeptKeysSnoc(allowed: seq<string>, params: Dict<Value>)
    requires params != []
    ensures var n := |params| - 1;
            KeptKeys(allowed, params) ==
            KeptKeys(allowed, params[..n]) + (if Lower(params[n].0) in allowed then {Lower(params[n].0)} else {})
  {
    var n := |params| - 1;
    assert forall i :: 0 <= i < n ==> params[..n][i] == params[i];
  }

  /** A record constructor: `InvalidParams` when no argument was kept. */
  function Constructed(kind: Kind, params: Dict<Value>, date: DateReader): (r: Result<Dict<Value>>)
    ensures r.Ok? ==> r.value != []
  {
    var a :- Attributes(Whitelist(kind), params, date);
    if a == [] then Err(InvalidParams) else Ok(a)
  }

  /** A constructor raises `InvalidParams` exactly when no argument key is whitelisted (and
      no coercion raised first). */
  lemma {:induction false} InvalidParamsIff(kind: Kind, params: Dict<Value>, date: DateReader)
    ensures Constructed(kind, params, date) == Err(InvalidParams) <==>
            Attributes(Whitelist(kind), params, date).Ok? &&
            forall i :: 0 <= i < |params| ==> Lower(params[i].0) !in Whitelist(kind)
  {
    var allowed := Whitelist(kind);
    var a := Attributes(allowed, params, date);
    if a.Ok? {
      AttributesKeys(allowed, params, date);
      if forall i :: 0 <= i < |params| ==> Lower(params[i].0) !in allowed {
        assert KeptKeys(allowed, params) == {};
      } else {
        var i :| 0 <= i < |params| && Lower(params[i].0) in allowed;
        assert Lower(params[i].0) in KeptKeys(allowed, params);
      }
    }
  }

  /** `TJSHeader(Operation.CREATE, james='blue')` raises `InvalidParams`. */
  lemma HeaderWithUnknownKey(date: DateReader)
    ensures Constructed(Heading, [("james", Str("blue"))], date) == Err(InvalidParams)
  {
    var params := [("james", Str("blue"))];
    assert Lower("james")[0] == 'j';
    InvalidParamsIff(Heading, params, date);
  }

  /** A key without the letter `d` is not a date key. */
  lemma NoDateKey(key: string)
    requires forall i :: 0 <= i < |key| ==> LowerChar(key[i]) != 'd'
    ensures !IsDateKey(key)
  {
    var f := Find(Lower(key), "date", 0);
    if f.Some? {
      OccursFirst("date", Lower(key), f.value);
      assert false;
    }
  }

  lemma OccursFirst(sub: string, s: string, i: nat)
    requires sub != [] && OccursAt(sub, s, i)
    ensures i < |s| && s[i] == sub[0]
  {
    assert s[i..i + |sub|][0] == s[i];
  }

  /** A title alone is always accepted, whatever the kind: it is not a date key, and every
      kind whitelists it. */
  lemma {:induction false} TitleOnly(kind: Kind, v: Value, date: DateReader)
    ensures Coerce("title", v, date).Ok?
    ensures Constructed(kind, [("title", v)], date) == Ok([("title", Coerce("title", v, date).value)])
  {
    TitleWhitelisted(kind);
    TitleAccepted(Whitelist(kind), v, date);
  }

  lemma TitleAccepted(allowed: seq<string>, v: Value, date: DateReader)
    requires "title" in allowed
    ensures Coerce("title", v, date).Ok?
    ensures Attributes(allowed, [("title", v)], date) == Ok([("title", Coerce("title", v, date).value)])
  {
    NoDateKey("title");
    LowerOfLower("title");
    var params := [("title", v)];
    assert params[..0] == [];
  }

  /** A string without upper-case letters is its own lower case. */
  lemma LowerOfLower(w: string)
    requires forall i :: 0 <= i < |w| ==> !('A' <= w[i] <= 'Z')
    ensures Lower(w) == w
  {
  }

  /** A record's state as the coder holds it. */
  datatype ItemValue = ItemValue(id: string, operation: Operation, kind: Kind, attributes: Dict<Value>)

  /** `TJSModelItem` and its four subclasses; `kind` stands for the subclass. */
  class Item {
    var id: string
    var operation: Operation
    var kind: Kind
    var attributes: Dict<Value>

    /** The loop over `parameters.items()`: each argument whose lowered key is in
        `allowed` is coerced and stored under that key; a coercion that raises ends it. */
    method FillAttributes(allowed: seq<string>, params: Dict<Value>, date: DateReader) returns (failure: Option<Error>)
      requires attributes == []
      modifies this
      ensures id == old(id) && operation == old(operation) && kind == old(kind)
      ensures var a := Attributes(allowed, params, date);
              (failure.None? <==> a.Ok?) && (a.Ok? ==> attributes == a.value) &&
              (a.Err? ==> failure == Some(a.error))
    {
      var i := 0;
      while i < |params|
        invariant i <= |params| && Attributes(allowed, params[..i], date) == Ok(attributes)
        invariant id == old(id) && operation == old(operation) && kind == old(kind)
      {
        assert params[..i + 1][..i] == params[..i] && params[..i + 1][i] == params[i];
        var f := StoreArgument(allowed, params[i].0, params[i].1, date);
        if f.Some? {
          AttributesStops(allowed, params, i + 1, date);
          return f;
        }
        i := i + 1;
      }
      assert params[..i] == params;
      failure := None;
    }

    /** The body of the constructor's loop for one argument. */
    method StoreArgument(allowed: seq<string>, key: string, value: Value, date: DateReader) returns (failure: Option<Error>)
      modifies this
      ensures id == old(id) && operation == old(operation) && kind == old(kind)
      ensures var r := Store(allowed, old(attributes), key, value, date);
              (failure.None? <==> r.Ok?) && (r.Ok? ==> attributes == r.value) &&
              (r.Err? ==> failure == Some(r.error))
    {
      failure := None;
      if Lower(key) in allowed {
        var v := value;
        if BoolLike(v) {
          v := Bool(Truth(v));
        } else if IsDateKey(key) {
          if !v.Str? {
            return Some(TypeError);
          }
          var d := date(v.s);
          if d.None? {
            return Some(DateParseError);
          }
          v := Str(d.value);
        }
        attributes := Set(attributes, Lower(key), v);
      }
    }

    /** `TJSModelItem.__init__`, with the subclass's `type`. */
    constructor(op: Operation, k: Kind)
      ensures id == "" && operation == op && kind == k && attributes == []
    {
      id := "";
      operation := op;
      kind := k;
      attributes := [];
    }
  }

  function View(it: Item): ItemValue
    reads it
  {
    ItemValue(it.id, it.operation, it.kind, it.attributes)
  }

  function Views(its: seq<Item>): (vs: seq<ItemValue>)
    reads its
    ensures |vs| == |its| && forall i :: 0 <= i < |its| ==> vs[i] == View(its[i])
  {
    if its == [] then [] else [View(its[0])] + Views(its[1..])
  }

  /** Appending an item appends its view. */
  lemma ViewsSnoc(its: seq<Item>, x: Item)
    ensures Views(its + [x]) == Views(its) + [View(x)]
  {
    assert forall i :: 0 <= i < |its| ==> (its + [x])[i] == its[i];
  }

  /** `TJSTodo(op, **params)` and the other three constructors: the loop over the
      arguments fills `attributes`, and an empty result raises `InvalidParams`. */
  method NewItem(kind: Kind, op: Operation, params: Dict<Value>, date: DateReader) returns (r: Result<Item>)
    ensures r.Ok? <==> Constructed(kind, params, date).Ok?
    ensures r.Err? ==> r.error == Constructed(kind, params, date).error
    ensures r.Ok? ==> fresh(r.value) && View(r.value) == ItemValue("", op, kind, Constructed(kind, params, date).value)
  {
    var item := new Item(op, kind);
    var failure := item.FillAttributes(Whitelist(kind), params, date);
    if failure.Some? {
      return Err(failure.value);
    }
    if item.attributes == [] {
      return Err(InvalidParams);
    }
    return Ok(item);
  }

  /** An argument whose coercion raises ends the constructor. */
  lemma {:induction false} AttributesStops(allowed: seq<string>, params: Dict<Value>, n: nat, date: DateReader)
    requires n <= |params| && Attributes(allowed, params[..n], date).Err?
    ensures Attributes(allowed, params, date) == Attributes(allowed, params[..n], date)
    decreases |params|
  {
    if n < |params| {
      var init := params[..|params| - 1];
      assert init[..n] == params[..n];
      AttributesStops(allowed, init, n, date);
    } else {
      assert params[..n] == params;
    }
  }

  /** `{k: v for k, v in d.items() if k not in remove}`. */
  function Without(d: Dict<Value>, remove: set<string>): (r: Dict<Value>)
    ensures remove == {} ==> r == d
  {
    if d == [] then []
    else if d[0].0 in remove then Without(d[1..], remove)
    else
      var r := [d[0]] + Without(d[1..], remove);
      assert d == [d[0]] + d[1..];
      r
  }

  /** The comprehension drops exactly the keys in `remove` and keeps every other entry. */
  lemma {:induction false} WithoutGet(d: Dict<Value>, remove: set<string>, k: string)
    ensures Get(Without(d, remove), k) == if k in remove then None else Get(d, k)
  {
    if d != [] {
      WithoutGet(d[1..], remove, k);
      if d[0].0 !in remove {
        var r := [d[0]] + Without(d[1..], remove);
        assert r[1..] == Without(d[1..], remove);
      }
    }
  }

  /** One exported record. `revealed` is true when the record holds the key `reveal` (always `True`). */
  datatype Record = Record(kind: string, attributes: Dict<Value>, operation: Option<Operation>,
                           id: Option<string>, revealed: bool)

  /** The dictionary `export` builds for one item. */
  function RecordOf(v: ItemValue, revealed: bool): Record {
    if v.operation == Update then
      Record(TypeTag(v.kind), Without(v.attributes, {}), Some(v.operation), Some(v.id), revealed)
    else
      Record(TypeTag(v.kind), Without(v.attributes, {}), None, None, revealed)
  }

  /** The records `export` serialises, in the items' order. */
  function Exported(vs: seq<ItemValue>, revealed: bool): (rs: seq<Record>)
    ensures |rs| == |vs| && forall i :: 0 <= i < |vs| ==> rs[i] == RecordOf(vs[i], revealed)
    decreases |vs|
  {
    if vs == [] then [] else Exported(vs[..|vs| - 1], revealed) + [RecordOf(vs[|vs| - 1], revealed)]
  }

  /** Each exported record carries the item's tag and its attributes unchanged; operation
      and id appear exactly for updates, and `revealed` exactly when the flag is set. */
  lemma ExportedSpec(vs: seq<ItemValue>, revealed: bool, i: nat)
    requires i < |vs|
    ensures var r := Exported(vs, revealed)[i];
            r.kind == TypeTag(vs[i].kind) && r.attributes == vs[i].attributes &&
            (r.operation.Some? <==> vs[i].operation == Update) &&
            (r.id.Some? <==> vs[i].operation == Update) &&
            (r.operation.Some? ==> r.operation.value == vs[i].operation && r.id.value == vs[i].id) &&
            r.revealed == revealed
  {
  }

  /** `TJSContainer`: the items to send and whether Things opens on the result. */
  class Container {
    var items: seq<Item>
    var revealed: bool

    constructor(items: seq<Item>)
      ensures this.items == items && !revealed
    {
      this.items := items;
      revealed := false;
    }

    /** `set_reveal`: flips the flag; two calls restore it. */
    method SetReveal()
      modifies this
      ensures revealed == !old(revealed) && items == old(items)
    {
      revealed := !revealed;
    }

    /** `export`: one record per item, in order. The record's attributes are the item's
        with the keys of the always empty `remove` dropped, so they equal the item's own;
        the write-back to `item.attributes` is therefore not performed. */
    method Export() returns (records: seq<Record>)
      ensures records == Exported(Views(items), revealed)
    {
      ghost var before := Views(items);
      records := [];
      var i := 0;
      while i < |items|
        invariant i <= |items|
        invariant records == Exported(before[..i], revealed)
      {
        var item := items[i];
        var op: Option<Operation> := None;
        var ident: Option<string> := None;
        if item.operation == Update {
          op := Some(item.operation);
          ident := Some(item.id);
        }
        var remove: set<string> := {};
        var kept := Without(item.attributes, remove);
        assert before[i] == View(item) && before[..i + 1][..i] == before[..i];
        records := records + [Record(TypeTag(item.kind), kept, op, ident, revealed)];
        i := i + 1;
      }
      assert before[..i] == before;
    }
  }
}
