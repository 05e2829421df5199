/** What `parse_line` computes from one line: the sigil-keyed dictionary built fragment by
    fragment, the flattening of one-element lists, the renaming of sigils to field names
    and the date step for `deadline`. The imperative `Parser.ParseLine` is proved equal
    to `Parsed`. */
module LineExtract {
  import opened Base
  import opened PyStr
  import opened PyDict
  import opened Sigils

  /** A value of the line dictionary: a string, or a list of strings. */
  datatype Field = Text(s: string) | Items(xs: seq<string>)

  type Fields = Dict<Field>

  /** The date parser (dateutil with the wall clock as default): `None` when it raises. */
  type DateParser = string -> Option<string>

  /** `value in ('', [])`: the value a line leaves for its block template to fill. */
  predicate Unset(v: Field) {
    v == Text("") || v == Items([])
  }

  /** The dictionary every line starts from: `{'*': [], '@': []}`. */
  const Initial: Fields := [("*", Items([])), ("@", Items([]))]

  /** The table a parser holds: `delimiters` without `block`. */
  const ParserTable: Dict<string> := Pop(Delimiters, "block")

  /** One iteration of `parse_line`'s loop over the fragments. A two-character prefix is
      checked first, so a fragment that is exactly one sigil takes the first branch and
      overwrites whatever the key held, even for `*`. */
  function Step(sigils: seq<string>, acc: Fields, f: string): Result<Fields> {
    var two, one := Take(f, 2), Take(f, 1);
    if two in sigils then Ok(Set(acc, two, Text(Strip(Drop(f, 2)))))
    else if one in sigils then
      if one == "*" || one == "@" then
        var cur: Option<Field> := Get(acc, one);
        match cur
        case Some(Items(xs)) => Ok(Set(acc, one, Items(xs + [Strip(Drop(f, 1))])))
        case Some(Text(_)) => Err(AttributeError)
        case None => Err(KeyError)
      else Ok(Set(acc, one, Text(Strip(Drop(f, 1)))))
    else if f == "" then Ok(acc)
    else Err(ImpossibleError)
  }

  /** The dictionary after the loop has run over `fs`, or the exception it raised. */
  function Extract(sigils: seq<string>, fs: seq<string>): Result<Fields> {
    if fs == [] then Ok(Initial)
    else
      var acc :- Extract(sigils, fs[..|fs| - 1]);
      Step(sigils, acc, fs[|fs| - 1])
  }

  /** `if len(result[key]) == 1: result[key] = result[key][0]`. Indexing a one-character
      string gives the same string back, so only a one-element list changes. */
  function Flatten(acc: Fields, key: string): Result<Fields> {
    var cur: Option<Field> := Get(acc, key);
    match cur
    case None => Err(KeyError)
    case Some(Items(xs)) => if |xs| == 1 then Ok(Set(acc, key, Text(xs[0]))) else Ok(acc)
    case Some(Text(_)) => Ok(acc)
  }

  /** `parsed[name] = parsed.pop(sigil)` when the sigil is a key. */
  function RenameOne(acc: Fields, name: string, sigil: string): Fields {
    match Get(acc, sigil)
    case None => acc
    case Some(v) => Set(Pop(acc, sigil), name, v)
  }

  /** `__convert_to_names`: the renames for every table entry, in table order. */
  function Renamed(table: Dict<string>, acc: Fields): Fields
    decreases |table|
  {
    if table == [] then acc
    else Renamed(table[1..], RenameOne(acc, table[0].0, table[0].1))
  }

  /** `__parse_date` of one dictionary value. */
  function ParseDate(v: Field, date: DateParser): Result<string> {
    match v
    case Items(_) => Err(TypeError)
    case Text(s) =>
      match date(s)
      case None => Err(DateParseError)
      case Some(d) => Ok(d)
  }

  /** The `try` block: `deadline` then `due` go through the date parser; the first absent
      key raises the `KeyError` that ends the block silently. */
  function ApplyDates(acc: Fields, date: DateParser): Result<Fields> {
    match Get(acc, "deadline")
    case None => Ok(acc)
    case Some(v) =>
      var d :- ParseDate(v, date);
      var acc1 := Set(acc, "deadline", Text(d));
      match Get(acc1, "due")
      case None => Ok(acc1)
      case Some(w) =>
        var e :- ParseDate(w, date);
        Ok(Set(acc1, "due", Text(e)))
  }

  /** What `parse_line` does after the loop: flattening, renaming, dates. */
  function Finish(table: Dict<string>, acc: Fields, date: DateParser): Result<Fields> {
    var a1 :- Flatten(acc, "*");
    var a2 :- Flatten(a1, "@");
    ApplyDates(Renamed(table, a2), date)
  }

  /** `parse_line(text)` for a parser holding `table`. */
  function Parsed(table: Dict<string>, text: string, date: DateParser): Result<Fields> {
    var sigils := ValueList(table);
    var acc :- Extract(sigils, Fragments(sigils, text));
    Finish(table, acc, date)
  }
}
