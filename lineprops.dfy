/** Properties of `parse_line` with the parser's own table: what the loop over fragments
    accumulates, what survives flattening and renaming, and when the line raises. */
module LineProperties {
  import opened Base
  import opened PyStr
  import opened PyDict
  import opened Sigils
  import opened LineExtract

  /** The keys the loop can write with the parser's table: every sigil except `[[`, and
      the two list keys. */
  const SigilKeys: set<string> := {"#", "[", "::", "==", ">", "*", "@"}

  /** The keys of a parsed line. */
  const FieldNames: set<string> := {"tags", "project", "notes", "heading", "deadline", "checklist-items", "@"}

  /** The sigil-keyed dictionary before flattening and renaming. */
  function Raw(text: string): Result<Fields> {
    Extract(LineSigils, Fragments(LineSigils, text))
  }

  /** Once the loop has raised, the rest of the line does not matter. */
  lemma {:induction false} ExtractErrSticks(sigils: seq<string>, fs: seq<string>, n: nat)
    requires n <= |fs|
    requires Extract(sigils, fs[..n]).Err?
    ensures Extract(sigils, fs) == Extract(sigils, fs[..n])
    decreases |fs|
  {
    if n < |fs| {
      var init := fs[..|fs| - 1];
      assert init[..n] == fs[..n];
      ExtractErrSticks(sigils, init, n);
    } else {
      assert fs[..n] == fs;
    }
  }

  /** The dictionary invariant of the loop with the parser's table. */
  ghost predicate LoopShape(acc: Fields) {
    UniqueKeys(acc) && Keys(acc) <= SigilKeys && "*" in Keys(acc) && Get(acc, "@") == Some(Items([]))
  }

  lemma StepShape(acc: Fields, f: string)
    requires LoopShape(acc) && Take(f, 2) != "[["
    ensures Step(LineSigils, acc, f).Ok? ==> LoopShape(Step(LineSigils, acc, f).value)
  {
    var two, one := Take(f, 2), Take(f, 1);
    if two in LineSigils {
      SetUnique(acc, two, Text(Strip(Drop(f, 2))));
    } else if one in LineSigils {
      if one == "*" {
        var cur: Option<Field> := Get(acc, one);
        match cur
        case Some(Items(xs)) => SetUnique(acc, one, Items(xs + [Strip(Drop(f, 1))]));
        case Some(Text(_)) =>
        case None =>
      } else {
        SetUnique(acc, one, Text(Strip(Drop(f, 1))));
      }
    }
  }

  lemma {:induction false} ExtractShape(fs: seq<string>)
    requires forall f :: f in fs ==> Take(f, 2) != "[["
    ensures Extract(LineSigils, fs).Ok? ==> LoopShape(Extract(LineSigils, fs).value)
  {
    if fs == [] {
      assert Initial[1..] == [("@", Items([]))];
      UniqueCons(Initial[0], Initial[1..]);
    } else {
      var init := fs[..|fs| - 1];
      assert forall f :: f in init ==> f in fs;
      ExtractShape(init);
      if Extract(LineSigils, init).Ok? {
        StepShape(Extract(LineSigils, init).value, fs[|fs| - 1]);
      }
    }
  }

  /** The loop over a line's fragments only ever writes the sigils other than `[[`,
      keeps `*` and leaves `@` as the empty list it started as. */
  lemma RawShape(text: string)
    ensures Raw(text).Ok? ==> LoopShape(Raw(text).value)
  {
    NoFragmentStartsWithDoubleBracket(text);
    ExtractShape(Fragments(LineSigils, text));
  }

  lemma RenameOneSpec(acc: Fields, name: string, sigil: string)
    requires UniqueKeys(acc) && name != sigil && name !in Keys(acc)
    ensures UniqueKeys(RenameOne(acc, name, sigil))
    ensures Get(RenameOne(acc, name, sigil), name) == Get(acc, sigil)
    ensures Get(RenameOne(acc, name, sigil), sigil) == None
    ensures forall k :: k != name && k != sigil ==> Get(RenameOne(acc, name, sigil), k) == Get(acc, k)
    ensures Keys(RenameOne(acc, name, sigil))
            == Keys(acc) - {sigil} + (if sigil in Keys(acc) then {name} else {})
  {
    match Get(acc, sigil)
    case None =>
    case Some(v) => SetUnique(Pop(acc, sigil), name, v);
  }

  /** Some entry of `table` maps to sigil `s`. */
  predicate HasSigil(table: Dict<string>, s: string) {
    table != [] && (table[0].1 == s || HasSigil(table[1..], s))
  }

  /** `k` is a name of `table` whose sigil an earlier entry already maps to: by the time
      its rename runs, the earlier one has popped the value. */
  predicate Claimed(table: Dict<string>, k: string) {
    table != [] && table[0].0 != k && (Get(table[1..], k) == Some(table[0].1) || Claimed(table[1..], k))
  }

  /** Renaming is well defined when no name is already a key of the line and no name is
      also a sigil. */
  ghost predicate RenameReady(table: Dict<string>, acc: Fields) {
    forall i :: 0 <= i < |table| ==> table[i].0 !in Keys(acc) && !HasSigil(table, table[i].0)
  }

  /** What `__convert_to_names` leaves under key `k`: a name holds its sigil's value unless
      an earlier name claimed that sigil, a sigil is gone, any other key is untouched. */
  function RenamedValue(table: Dict<string>, acc: Fields, k: string): Option<Field> {
    match Get(table, k)
    case Some(s) => if Claimed(table, k) then None else Get(acc, s)
    case None => if HasSigil(table, k) then None else Get(acc, k)
  }

  lemma {:induction false} RenamedGet(table: Dict<string>, acc: Fields, k: string)
    requires UniqueKeys(table) && UniqueKeys(acc) && RenameReady(table, acc)
    ensures Get(Renamed(table, acc), k) == RenamedValue(table, acc, k)
    decreases |table|
  {
    if table != [] {
      var e, rest := table[0], table[1..];
      assert table == [e] + rest;
      UniqueCons(e, rest);
      RenameReadyTail(table, acc);
      var acc' := RenameOne(acc, e.0, e.1);
      RenamedGet(rest, acc', k);
      if k == e.0 {
        assert Get(table, k) == Some(e.1);
        assert !HasSigil(rest, k);
      } else if Get(rest, k).Some? {
        SigilIsNoName(table, k);
      }
    }
  }

  /** The sigil a later entry maps to is not the first entry's name. */
  lemma SigilIsNoName(table: Dict<string>, k: string)
    requires table != [] && UniqueKeys(table) && !HasSigil(table, table[0].0)
    requires Get(table[1..], k).Some?
    ensures Get(table[1..], k).value != table[0].0
  {
    var rest := table[1..];
    assert table == [table[0]] + rest;
    UniqueCons(table[0], rest);
    KeysIndex(rest);
    var i :| 0 <= i < |rest| && rest[i].0 == k;
    GetAt(rest, i);
    HasSigilAt(table, i + 1);
  }

  lemma {:induction false} HasSigilAt(table: Dict<string>, j: nat)
    requires j < |table|
    ensures HasSigil(table, table[j].1)
  {
    if j > 0 {
      HasSigilAt(table[1..], j - 1);
    }
  }

  /** The lookup of an entry's own key finds that entry when keys are distinct. */
  lemma {:induction false} GetAt<V>(d: Dict<V>, i: nat)
    requires UniqueKeys(d) && i < |d|
    ensures Get(d, d[i].0) == Some(d[i].1)
  {
    if i > 0 {
      assert d == [d[0]] + d[1..];
      UniqueCons(d[0], d[1..]);
      GetAt(d[1..], i - 1);
    }
  }

  /** One rename keeps the rest of the table ready and the keys distinct. */
  lemma RenameReadyTail(table: Dict<string>, acc: Fields)
    requires table != [] && UniqueKeys(table) && UniqueKeys(acc) && RenameReady(table, acc)
    ensures UniqueKeys(RenameOne(acc, table[0].0, table[0].1))
    ensures RenameReady(table[1..], RenameOne(acc, table[0].0, table[0].1))
  {
    var e, rest := table[0], table[1..];
    assert table == [e] + rest;
    UniqueCons(e, rest);
    KeysIndex(rest);
    assert !HasSigil(table, e.0);
    RenameOneSpec(acc, e.0, e.1);
    forall i | 0 <= i < |rest|
      ensures rest[i].0 !in Keys(RenameOne(acc, e.0, e.1)) && !HasSigil(rest, rest[i].0)
    {
      assert rest[i] == table[i + 1];
    }
  }

  /** The renames keep keys distinct and only ever add names of the table. */
  lemma {:induction false} RenamedKeys(table: Dict<string>, acc: Fields)
    requires UniqueKeys(table) && UniqueKeys(acc) && RenameReady(table, acc)
    ensures UniqueKeys(Renamed(table, acc))
    ensures Keys(Renamed(table, acc)) <= Keys(acc) + Keys(table)
    decreases |table|
  {
    if table != [] {
      var e, rest := table[0], table[1..];
      assert table == [e] + rest;
      UniqueCons(e, rest);
      RenameReadyTail(table, acc);
      RenameOneSpec(acc, e.0, e.1);
      RenamedKeys(rest, RenameOne(acc, e.0, e.1));
    }
  }

  /** The parser's table written out as a literal, so that proofs about single entries
      do not have to unfold `Pop`; `ParserTableIsLineTable` ties it to `ParserTable`. */
  const LineTable: Dict<string> := [
    ("tags", "#"), ("project", "["), ("new-project", "[["), ("notes", "::"),
    ("heading", "=="), ("deadline", ">"), ("checklist-items", "*"), ("due", ">")
  ]

  lemma ParserTableIsLineTable()
    ensures ParserTable == LineTable
  {
    PoppedTable();
  }

  lemma {:induction false} ClaimedAt(table: Dict<string>, i: nat)
    requires UniqueKeys(table) && i < |table|
    ensures Claimed(table, table[i].0) <==> exists j :: 0 <= j < i && table[j].1 == table[i].1
  {
    if i > 0 {
      var e, rest := table[0], table[1..];
      assert table == [e] + rest;
      UniqueCons(e, rest);
      assert rest[i - 1] == table[i];
      GetAt(rest, i - 1);
      ClaimedAt(rest, i - 1);
      assert forall j :: 1 <= j < i ==> table[j] == rest[j - 1];
      if exists j :: 0 <= j < i - 1 && rest[j].1 == rest[i - 1].1 {
        var j :| 0 <= j < i - 1 && rest[j].1 == rest[i - 1].1;
        assert table[j + 1].1 == table[i].1;
      }
    }
  }

  lemma {:induction false} NoSigil(table: Dict<string>, x: string)
    requires forall j :: 0 <= j < |table| ==> table[j].1 != x
    ensures !HasSigil(table, x)
  {
    if table != [] {
      NoSigil(table[1..], x);
    }
  }

  /** A name whose sigil no earlier entry maps to receives that sigil's value. */
  lemma RenamedName(table: Dict<string>, acc: Fields, i: nat)
    requires UniqueKeys(table) && UniqueKeys(acc) && RenameReady(table, acc) && i < |table|
    requires forall j :: 0 <= j < i ==> table[j].1 != table[i].1
    ensures Get(Renamed(table, acc), table[i].0) == Get(acc, table[i].1)
  {
    RenamedGet(table, acc, table[i].0);
    GetAt(table, i);
    ClaimedAt(table, i);
  }

  /** A name whose sigil an earlier entry maps to ends up absent. */
  lemma RenamedClaimedName(table: Dict<string>, acc: Fields, i: nat, j: nat)
    requires UniqueKeys(table) && UniqueKeys(acc) && RenameReady(table, acc)
    requires j < i < |table| && table[j].1 == table[i].1
    ensures Get(Renamed(table, acc), table[i].0) == None
  {
    RenamedGet(table, acc, table[i].0);
    GetAt(table, i);
    ClaimedAt(table, i);
  }

  /** A sigil that is not also a name ends up absent. */
  lemma RenamedSigil(table: Dict<string>, acc: Fields, j: nat)
    requires UniqueKeys(table) && UniqueKeys(acc) && RenameReady(table, acc) && j < |table|
    requires forall i :: 0 <= i < |table| ==> table[i].0 != table[j].1
    ensures Get(Renamed(table, acc), table[j].1) == None
  {
    KeysIndex(table);
    RenamedGet(table, acc, table[j].1);
    HasSigilAt(table, j);
  }

  /** A key that is neither a name nor a sigil is untouched. */
  lemma RenamedOther(table: Dict<string>, acc: Fields, k: string)
    requires UniqueKeys(table) && UniqueKeys(acc) && RenameReady(table, acc)
    requires forall j :: 0 <= j < |table| ==> table[j].0 != k && table[j].1 != k
    ensures Get(Renamed(table, acc), k) == Get(acc, k)
  {
    KeysIndex(table);
    RenamedGet(table, acc, k);
    NoSigil(table, k);
  }

  /** Every name of the parser's table is longer than every sigil. */
  lemma LineTableLengths()
    ensures forall i :: 0 <= i < |LineTable| ==> |LineTable[i].0| >= 3 && |LineTable[i].1| <= 2
  {
  }

  /** Every name is longer than every key the loop can write. */
  lemma ReadyByLength(table: Dict<string>, acc: Fields)
    requires forall i :: 0 <= i < |table| ==> |table[i].0| >= 3 && |table[i].1| <= 2
    requires forall k :: k in Keys(acc) ==> |k| <= 2
    ensures RenameReady(table, acc)
  {
    forall i | 0 <= i < |table| ensures table[i].0 !in Keys(acc) && !HasSigil(table, table[i].0) {
      NoSigil(table, table[i].0);
    }
  }

  lemma SigilKeysShort()
    ensures forall k :: k in SigilKeys ==> |k| <= 2
  {
  }

  lemma LineTableReady(acc: Fields)
    requires Keys(acc) <= SigilKeys
    ensures RenameReady(LineTable, acc)
  {
    LineTableLengths();
    SigilKeysShort();
    ReadyByLength(LineTable, acc);
  }

  /** The names of the parser's table are distinct. */
  lemma LineTableUnique()
    ensures UniqueKeys(LineTable)
  {
    var t := LineTable;
    forall i, j | 0 <= i < j < |t| ensures t[i].0 != t[j].0 {
      assert |t[i].0| != |t[j].0| || t[i].0[0] != t[j].0[0];
    }
  }

  /** `__convert_to_names` with the parser's table: each sigil's value moves to its field
      name; `new-project` and `due` never appear, because `[[` is never a key of the line
      and the first `>` entry has already taken the value; no sigil survives. */
  lemma RenamedSpec(acc: Fields)
    requires UniqueKeys(acc) && Keys(acc) <= SigilKeys
    ensures UniqueKeys(Renamed(ParserTable, acc))
    ensures Keys(Renamed(ParserTable, acc)) <= FieldNames
    ensures Get(Renamed(ParserTable, acc), "tags") == Get(acc, "#")
    ensures Get(Renamed(ParserTable, acc), "project") == Get(acc, "[")
    ensures Get(Renamed(ParserTable, acc), "notes") == Get(acc, "::")
    ensures Get(Renamed(ParserTable, acc), "heading") == Get(acc, "==")
    ensures Get(Renamed(ParserTable, acc), "deadline") == Get(acc, ">")
    ensures Get(Renamed(ParserTable, acc), "checklist-items") == Get(acc, "*")
    ensures Get(Renamed(ParserTable, acc), "@") == Get(acc, "@")
  {
    ParserTableIsLineTable();
    LineTableUnique();
    LineTableReady(acc);
    RenamedKeys(LineTable, acc);
    LineRenamed(acc, 0);
    LineRenamed(acc, 1);
    LineRenamed(acc, 3);
    LineRenamed(acc, 4);
    LineRenamed(acc, 5);
    LineRenamed(acc, 6);
    AtKept(acc);
    RenamedAbsent(acc);
  }

  /** The entries whose sigil is not claimed by an earlier entry take its value. */
  lemma LineRenamed(acc: Fields, i: nat)
    requires UniqueKeys(acc) && Keys(acc) <= SigilKeys
    requires i < 8 && i != 2 && i != 7
    ensures Get(Renamed(LineTable, acc), LineTable[i].0) == Get(acc, LineTable[i].1)
  {
    LineTableUnique();
    LineTableReady(acc);
    EarlierSigilsDiffer(i);
    RenamedName(LineTable, acc, i);
  }

  lemma EarlierSigilsDiffer(i: nat)
    requires i < 8 && i != 7
    ensures forall j :: 0 <= j < i ==> LineTable[j].1 != LineTable[i].1
  {
    var t := LineTable;
    if i == 5 {
      assert t[5].1 == ">";
      assert forall j :: 0 <= j < 5 ==> t[j].1[0] != '>';
    } else if i == 6 {
      assert forall j :: 0 <= j < 6 ==> t[j].1[0] != '*';
    }
  }

  lemma AtKept(acc: Fields)
    requires UniqueKeys(acc) && Keys(acc) <= SigilKeys
    ensures Get(Renamed(LineTable, acc), "@") == Get(acc, "@")
  {
    LineTableUnique();
    LineTableReady(acc);
    AtNotInTable();
    RenamedOther(LineTable, acc, "@");
  }

  /** What the parser's renames never leave behind: the sigils, `new-project` and `due`. */
  lemma RenamedAbsent(acc: Fields)
    requires UniqueKeys(acc) && Keys(acc) <= SigilKeys
    ensures Keys(Renamed(LineTable, acc)) <= FieldNames
  {
    forall k | k in Keys(Renamed(LineTable, acc)) ensures k in FieldNames {
      if k in Keys(acc) {
        if k != "@" {
          SigilGone(acc, k);
        }
      } else {
        NameKept(acc, k);
      }
    }
  }

  lemma SigilGone(acc: Fields, k: string)
    requires UniqueKeys(acc) && Keys(acc) <= SigilKeys
    requires k in Keys(acc) && k != "@"
    ensures Get(Renamed(LineTable, acc), k) == None
  {
    LineTableUnique();
    LineTableReady(acc);
    LineTableLengths();
    RenamedSigil(LineTable, acc, SigilIndex(k));
  }

  lemma NameKept(acc: Fields, k: string)
    requires UniqueKeys(acc) && Keys(acc) <= SigilKeys
    requires k in Keys(Renamed(LineTable, acc)) && k !in Keys(acc)
    ensures k in FieldNames
  {
    var t := LineTable;
    LineTableUnique();
    LineTableReady(acc);
    RenamedKeys(t, acc);
    KeysIndex(t);
    var i :| 0 <= i < |t| && t[i].0 == k;
    if i == 2 {
      NoNewProject(acc);
    } else if i == 7 {
      NoDue(acc);
    } else {
      LineTableNames(i);
    }
  }

  lemma AtNotInTable()
    ensures forall j :: 0 <= j < |LineTable| ==> LineTable[j].0 != "@" && LineTable[j].1 != "@"
  {
    LineTableLengths();
    assert forall j :: 0 <= j < |LineTable| ==> LineTable[j].1[0] != '@';
  }

  lemma LineTableNames(i: nat)
    requires i < 8 && i != 2 && i != 7
    ensures LineTable[i].0 in FieldNames
  {
  }

  /** `[[` is never a key of the line, so `new-project` never appears. */
  lemma NoNewProject(acc: Fields)
    requires UniqueKeys(acc) && Keys(acc) <= SigilKeys
    ensures "new-project" !in Keys(Renamed(LineTable, acc))
  {
    NewProjectValue(acc);
    NoDoubleBracketKey(acc);
  }

  lemma NewProjectValue(acc: Fields)
    requires UniqueKeys(acc) && Keys(acc) <= SigilKeys
    ensures Get(Renamed(LineTable, acc), "new-project") == Get(acc, "[[")
  {
    LineTableUnique();
    LineTableReady(acc);
    EarlierSigilsDiffer(2);
    RenamedName(LineTable, acc, 2);
  }

  lemma NoDoubleBracketKey(acc: Fields)
    requires Keys(acc) <= SigilKeys
    ensures Get(acc, "[[") == None
  {
    assert "[[" !in SigilKeys;
  }

  /** The `deadline` entry has already popped `>`, so `due` never appears. */
  lemma NoDue(acc: Fields)
    requires UniqueKeys(acc) && Keys(acc) <= SigilKeys
    ensures "due" !in Keys(Renamed(LineTable, acc))
  {
    LineTableUnique();
    LineTableReady(acc);
    RenamedClaimedName(LineTable, acc, 7, 5);
  }

  /** The entry of the parser's table that maps to sigil `k`. */
  function SigilIndex(k: string): (j: nat)
    requires k in SigilKeys - {"@"}
    ensures j < |LineTable| && LineTable[j].1 == k
  {
    if k == "#" then 0 else if k == "[" then 1 else if k == "::" then 3
    else if k == "==" then 4 else if k == ">" then 5 else 6
  }

  /** `Flatten` on one value: a one-element list becomes its element. */
  function Flattened(v: Option<Field>): Option<Field> {
    match v
    case Some(Items(xs)) => if |xs| == 1 then Some(Text(xs[0])) else v
    case _ => v
  }

  lemma FlattenStage(raw: Fields)
    requires LoopShape(raw)
    ensures Flatten(raw, "*").Ok?
    ensures var a1 := Flatten(raw, "*").value;
      Flatten(a1, "@") == Ok(a1) && UniqueKeys(a1) && Keys(a1) <= SigilKeys
      && Get(a1, "*") == Flattened(Get(raw, "*"))
      && forall k :: k != "*" ==> Get(a1, k) == Get(raw, k)
  {
    var cur: Option<Field> := Get(raw, "*");
    match cur
    case Some(Items(xs)) =>
      if |xs| == 1 {
        SetUnique(raw, "*", Text(xs[0]));
      }
    case Some(Text(_)) =>
  }

  /** The date step on a renamed line: `deadline` goes through the date parser, whose
      rejection is the only way to fail, and `due` is never there to be converted. */
  lemma ApplyDatesSpec(rn: Fields, date: DateParser)
    requires UniqueKeys(rn) && Keys(rn) <= FieldNames
    ensures Get(rn, "deadline").None? ==> ApplyDates(rn, date) == Ok(rn)
    ensures Get(rn, "deadline").Some? && ParseDate(Get(rn, "deadline").value, date).Err? ==>
              ApplyDates(rn, date) == Err(ParseDate(Get(rn, "deadline").value, date).error)
    ensures Get(rn, "deadline").Some? && ParseDate(Get(rn, "deadline").value, date).Ok? ==>
              ApplyDates(rn, date) == Ok(Set(rn, "deadline", Text(ParseDate(Get(rn, "deadline").value, date).value)))
  {
    assert "due" !in FieldNames;
  }

  /** Flattening, renaming and the date step, on a dictionary the loop can produce. */
  lemma FinishSpec(raw: Fields, date: DateParser)
    requires LoopShape(raw)
    ensures var p := Finish(ParserTable, raw, date);
      (Get(raw, ">").None? || ParseDate(Get(raw, ">").value, date).Ok? <==> p.Ok?)
      && (Get(raw, ">").Some? && ParseDate(Get(raw, ">").value, date).Err? ==>
            p == Err(ParseDate(Get(raw, ">").value, date).error))
    ensures var p := Finish(ParserTable, raw, date);
      p.Ok? ==>
        UniqueKeys(p.value) && Keys(p.value) <= FieldNames
        && Get(p.value, "checklist-items") == Flattened(Get(raw, "*"))
        && Get(p.value, "@") == Some(Items([]))
        && Get(p.value, "tags") == Get(raw, "#")
        && Get(p.value, "project") == Get(raw, "[")
        && Get(p.value, "notes") == Get(raw, "::")
        && Get(p.value, "heading") == Get(raw, "==")
        && Get(p.value, "deadline") == (if Get(raw, ">").None? then None
                                         else Some(Text(ParseDate(Get(raw, ">").value, date).value)))
  {
    FlattenStage(raw);
    var a1 := Flatten(raw, "*").value;
    RenamedSpec(a1);
    var rn := Renamed(ParserTable, a1);
    assert Finish(ParserTable, raw, date) == ApplyDates(rn, date);
    ApplyDatesSpec(rn, date);
    if Get(rn, "deadline").Some? && ParseDate(Get(rn, "deadline").value, date).Ok? {
      SetUnique(rn, "deadline", Text(ParseDate(Get(rn, "deadline").value, date).value));
    }
  }

  /** `parse_line` with the parser's table, against the loop's dictionary `Raw(text)`: an
      exception of the loop propagates; otherwise the line raises only when the date
      parser rejects the `>` value, and the result holds exactly the renamed fields, with
      `checklist-items` and `@` always present and `deadline` converted. */
  lemma ParsedSpec(text: string, date: DateParser)
    ensures Raw(text).Err? ==> Parsed(ParserTable, text, date) == Raw(text)
    ensures Raw(text).Ok? ==> Parsed(ParserTable, text, date) == Finish(ParserTable, Raw(text).value, date)
    ensures Raw(text).Ok? ==> LoopShape(Raw(text).value)
  {
    PoppedTable();
    RawShape(text);
  }

  lemma RenamedCons(table: Dict<string>, acc: Fields)
    requires table != []
    ensures Renamed(table, acc) == Renamed(table[1..], RenameOne(acc, table[0].0, table[0].1))
  {
  }

  /** The eight renames of the parser's table, in order. */
  lemma RenamedUnfold(acc: Fields)
    ensures Renamed(LineTable, acc)
            == RenameOne(RenameOne(RenameOne(RenameOne(RenameOne(RenameOne(RenameOne(RenameOne(acc,
                 "tags", "#"), "project", "["), "new-project", "[["), "notes", "::"),
                 "heading", "=="), "deadline", ">"), "checklist-items", "*"), "due", ">")
  {
    var t := LineTable;
    var a1 := RenameOne(acc, "tags", "#");
    var a2 := RenameOne(a1, "project", "[");
    var a3 := RenameOne(a2, "new-project", "[[");
    var a4 := RenameOne(a3, "notes", "::");
    var a5 := RenameOne(a4, "heading", "==");
    var a6 := RenameOne(a5, "deadline", ">");
    var a7 := RenameOne(a6, "checklist-items", "*");
    RenamedCons(t, acc);
    RenamedCons(t[1..], a1);
    RenamedCons(t[2..], a2);
    RenamedCons(t[3..], a3);
    RenamedCons(t[4..], a4);
    RenamedCons(t[5..], a5);
    RenamedCons(t[6..], a6);
    RenamedCons(t[7..], a7);
    assert t[1..][1..] == t[2..];
    assert t[2..][1..] == t[3..];
    assert t[3..][1..] == t[4..];
    assert t[4..][1..] == t[5..];
    assert t[5..][1..] == t[6..];
    assert t[6..][1..] == t[7..];
    assert t[7..][1..] == [];
  }

  /** A line's empty dictionary: only the two list keys, `@` first, the renamed `*` last. */
  lemma EmptyLine(date: DateParser)
    ensures Parsed(ParserTable, "", date) == Ok([("@", Items([])), ("checklist-items", Items([]))])
  {
    ParsedSpec("", date);
    EmptyRaw();
    EmptyFinish(date);
  }

  lemma EmptyRaw()
    ensures Raw("") == Ok(Initial)
  {
    assert Fragments(LineSigils, "") == [""];
  }

  lemma EmptyFinish(date: DateParser)
    ensures Finish(ParserTable, Initial, date) == Ok([("@", Items([])), ("checklist-items", Items([]))])
  {
    ParserTableIsLineTable();
    EmptyRenamed();
    FinishEmptyLists(LineTable, Initial, date);
    EmptyDates(date);
  }

  lemma EmptyDates(date: DateParser)
    ensures ApplyDates([("@", Items([])), ("checklist-items", Items([]))], date)
            == Ok([("@", Items([])), ("checklist-items", Items([]))])
  {
    assert Get([("@", Items([])), ("checklist-items", Items([]))], "deadline") == None;
  }

  /** With both list keys empty, only the renames and the date step remain. */
  lemma FinishEmptyLists(table: Dict<string>, acc: Fields, date: DateParser)
    requires Get(acc, "*") == Some(Items([])) && Get(acc, "@") == Some(Items([]))
    ensures Finish(table, acc, date) == ApplyDates(Renamed(table, acc), date)
  {
  }

  lemma EmptyRenamed()
    ensures Renamed(LineTable, Initial) == [("@", Items([])), ("checklist-items", Items([]))]
  {
    RenamedUnfold(Initial);
    UntouchedRenames(Initial);
    EmptyStarRenamed();
  }

  lemma EmptyStarRenamed()
    ensures RenameOne(RenameOne(Initial, "checklist-items", "*"), "due", ">")
            == [("@", Items([])), ("checklist-items", Items([]))]
  {
    assert Pop(Initial, "*") == [("@", Items([]))];
    assert Get([("@", Items([])), ("checklist-items", Items([]))], ">") == None;
  }

  lemma UntouchedRenames(acc: Fields)
    requires acc == Initial
    ensures RenameOne(RenameOne(RenameOne(RenameOne(RenameOne(RenameOne(acc,
              "tags", "#"), "project", "["), "new-project", "[["), "notes", "::"),
              "heading", "=="), "deadline", ">") == Initial
  {
    assert Get(Initial, "#") == None && Get(Initial, "[") == None && Get(Initial, "[[") == None;
    assert Get(Initial, "::") == None && Get(Initial, "==") == None && Get(Initial, ">") == None;
  }

  /** `[[` never reaches its own table entry: `[` matches first, so `[[X` is a project
      named `X` rather than a new project. */
  lemma DoubleBracketIsProject(date: DateParser)
    ensures Parsed(ParserTable, "[[X", date)
            == Ok([("@", Items([])), ("project", Text("X")), ("checklist-items", Items([]))])
  {
    ParsedSpec("[[X", date);
    DoubleBracketRaw();
    DoubleBracketFinish(date);
  }

  lemma DoubleBracketFragments()
    ensures Fragments(LineSigils, "[[X") == ["", "[", "[X"]
  {
    BracketMatch("[[X", 0);
    BracketMatch("[[X", 1);
    PlainCharNoMatch("[[X", 2);
    ThreeFragments(LineSigils, "[[X");
  }

  /** How the splitter cuts a three-character text whose first two characters are
      one-character matches and whose last is not a match. */
  lemma ThreeFragments(sigils: seq<string>, t: string)
    requires |t| == 3
    requires MatchLen(sigils, t, 0) == 1 && MatchLen(sigils, t, 1) == 1 && MatchLen(sigils, t, 2) == 0
    ensures Fragments(sigils, t) == ["", t[0..1], t[1..]]
  {
    ScanAtMatch(sigils, t, 0, 0);
    ScanAtMatch(sigils, t, 0, 1);
    ScanSkip(sigils, t, 1, 2);
    ScanEnd(sigils, t, 1);
  }

  lemma DoubleBracketRaw()
    ensures Raw("[[X") == Ok([("*", Items([])), ("@", Items([])), ("[", Text("X"))])
  {
    DoubleBracketFragments();
    ExtractFirstTwo();
    StepProjectName();
    var fs := ["", "[", "[X"];
    assert fs[..2] == ["", "["];
  }

  lemma ExtractFirstTwo()
    ensures Extract(LineSigils, ["", "["]) == Ok([("*", Items([])), ("@", Items([])), ("[", Text(""))])
  {
    StepEmpty();
    StepOpenBracket();
    assert Initial + [("[", Text(""))] == [("*", Items([])), ("@", Items([])), ("[", Text(""))];
    var fs := ["", "["];
    assert fs[..1] == [""];
    assert [""][..0] == [];
  }

  lemma StepEmpty()
    ensures Step(LineSigils, Initial, "") == Ok(Initial)
  {
    assert Take("", 2) == "" && Take("", 1) == "";
  }

  lemma StepOpenBracket()
    ensures Step(LineSigils, Initial, "[") == Ok(Initial + [("[", Text(""))])
  {
    assert Take("[", 2) == "[";
    assert Strip(Drop("[", 2)) == "";
    assert "[" !in Keys(Initial);
  }

  lemma StepProjectName()
    ensures Step(LineSigils, [("*", Items([])), ("@", Items([])), ("[", Text(""))], "[X") == Ok([("*", Items([])), ("@", Items([])), ("[", Text("X"))])
  {
    assert Take("[X", 2) == "[X" && "[X" !in LineSigils;
    assert Take("[X", 1) == "[";
    assert Strip(Drop("[X", 1)) == "X";
    var mid := [("*", Items([])), ("@", Items([])), ("[", Text(""))];
    assert mid[1..][1..] == [("[", Text(""))];
    assert Set(mid[1..][1..], "[", Text("X")) == [("[", Text("X"))];
    assert Set(mid[1..], "[", Text("X")) == [("@", Items([])), ("[", Text("X"))];
    assert Set(mid, "[", Text("X")) == [("*", Items([])), ("@", Items([])), ("[", Text("X"))];
    assert "[" in LineSigils;
  }

  lemma DoubleBracketFinish(date: DateParser)
    ensures Finish(ParserTable, [("*", Items([])), ("@", Items([])), ("[", Text("X"))], date)
            == Ok([("@", Items([])), ("project", Text("X")), ("checklist-items", Items([]))])
  {
    var raw := [("*", Items([])), ("@", Items([])), ("[", Text("X"))];
    ParserTableIsLineTable();
    DoubleBracketRenamed();
    assert Get(raw, "*") == Some(Items([])) && Get(raw, "@") == Some(Items([]));
    FinishEmptyLists(LineTable, raw, date);
    assert Get([("@", Items([])), ("project", Text("X")), ("checklist-items", Items([]))], "deadline") == None;
  }

  lemma DoubleBracketRenamed()
    ensures Renamed(LineTable, [("*", Items([])), ("@", Items([])), ("[", Text("X"))])
            == [("@", Items([])), ("project", Text("X")), ("checklist-items", Items([]))]
  {
    var raw := [("*", Items([])), ("@", Items([])), ("[", Text("X"))];
    RenamedUnfold(raw);
    var a2 := [("*", Items([])), ("@", Items([])), ("project", Text("X"))];
    RenameProject();
    MiddleRenamesNoop();
    RenameStars();
  }

  lemma RenameProject()
    ensures RenameOne(RenameOne([("*", Items([])), ("@", Items([])), ("[", Text("X"))], "tags", "#"), "project", "[")
            == [("*", Items([])), ("@", Items([])), ("project", Text("X"))]
  {
    var raw := [("*", Items([])), ("@", Items([])), ("[", Text("X"))];
    assert Get(raw, "#") == None;
    assert Get(raw, "[") == Some(Text("X"));
    assert Pop(raw, "[") == Initial;
    assert "project" !in Keys(Initial);
  }

  lemma MiddleRenamesNoop()
    ensures var a2 := [("*", Items([])), ("@", Items([])), ("project", Text("X"))];
      RenameOne(RenameOne(RenameOne(RenameOne(a2, "new-project", "[["), "notes", "::"), "heading", "=="), "deadline", ">") == a2
  {
    var a2 := [("*", Items([])), ("@", Items([])), ("project", Text("X"))];
    assert Get(a2, "[[") == None && Get(a2, "::") == None;
    assert Get(a2, "==") == None && Get(a2, ">") == None;
  }

  lemma RenameStars()
    ensures RenameOne(RenameOne([("*", Items([])), ("@", Items([])), ("project", Text("X"))], "checklist-items", "*"), "due", ">")
            == [("@", Items([])), ("project", Text("X")), ("checklist-items", Items([]))]
  {
    var a2 := [("*", Items([])), ("@", Items([])), ("project", Text("X"))];
    var a7 := [("@", Items([])), ("project", Text("X")), ("checklist-items", Items([]))];
    assert Pop(a2, "*") == a2[1..];
    assert "checklist-items" !in Keys(a2[1..]);
    assert RenameOne(a2, "checklist-items", "*") == a7;
    assert Get(a7, ">") == None;
  }

  /** A fragment that begins with `#` sets the tag to the rest of the fragment, stripped. */
  lemma StepTag(acc: Fields, f: string)
    requires Take(f, 1) == "#"
    ensures Step(LineSigils, acc, f) == Ok(Set(acc, "#", Text(Strip(Drop(f, 1)))))
  {
    if |f| >= 2 {
      assert Take(f, 2)[0] == '#';
      assert Take(f, 2) !in LineSigils;
    } else {
      assert f == "#";
    }
  }

  /** A fragment that does not begin with `#` leaves the tag alone. */
  lemma StepKeepsTag(acc: Fields, f: string)
    requires Take(f, 1) != "#" && Step(LineSigils, acc, f).Ok?
    ensures Get(Step(LineSigils, acc, f).value, "#") == Get(acc, "#")
  {
  }

  /** Only the last `#` fragment of a line counts: each one overwrites the tag. */
  lemma {:induction false} LastTagWins(fs: seq<string>, i: nat)
    requires i < |fs| && Take(fs[i], 1) == "#"
    requires forall j :: i < j < |fs| ==> Take(fs[j], 1) != "#"
    requires Extract(LineSigils, fs).Ok?
    ensures Get(Extract(LineSigils, fs).value, "#") == Some(Text(Strip(Drop(fs[i], 1))))
  {
    var n := |fs| - 1;
    var init := fs[..n];
    var r := Extract(LineSigils, init);
    assert r.Ok? && Extract(LineSigils, fs) == Step(LineSigils, r.value, fs[n]);
    if i == n {
      StepTag(r.value, fs[n]);
    } else {
      assert forall j :: i <= j < |init| ==> init[j] == fs[j];
      LastTagWins(init, i);
      StepKeepsTag(r.value, fs[n]);
    }
  }

  /** The `*` items of a sequence of fragments, in order: the stripped rest of every
      fragment that begins with `*`. */
  function StarItems(fs: seq<string>): seq<string> {
    if fs == [] then []
    else
      var f := fs[|fs| - 1];
      StarItems(fs[..|fs| - 1]) + if Take(f, 1) == "*" then [Strip(Drop(f, 1))] else []
  }

  lemma StepStar(sigils: seq<string>, acc: Fields, f: string)
    requires StarIsSingle(sigils)
    requires f != "*" && Step(sigils, acc, f).Ok? && Get(acc, "*").Some? && Get(acc, "*").value.Items?
    ensures Get(Step(sigils, acc, f).value, "*")
            == Some(Items(Get(acc, "*").value.xs + if Take(f, 1) == "*" then [Strip(Drop(f, 1))] else []))
  {
    var two, one := Take(f, 2), Take(f, 1);
    var xs := Get(acc, "*").value.xs;
    assert xs + [] == xs;
    if |f| >= 2 {
      assert |two| == 2 && two[0] == f[0] == one[0];
    } else {
      assert two == f;
    }
    if two in sigils {
      assert two != "*" && one != "*";
    }
  }

  /** While no fragment is a bare `*`, the `*` list collects one item per `*` fragment,
      in the order of the line. */
  lemma {:induction false} ExtractStars(sigils: seq<string>, fs: seq<string>)
    requires StarIsSingle(sigils)
    requires forall j :: 0 <= j < |fs| ==> fs[j] != "*"
    ensures Extract(sigils, fs).Ok? ==>
              Get(Extract(sigils, fs).value, "*") == Some(Items(StarItems(fs)))
  {
    if fs != [] {
      var n := |fs| - 1;
      var init := fs[..n];
      assert forall j :: 0 <= j < |init| ==> init[j] == fs[j];
      ExtractStars(sigils, init);
      var r := Extract(sigils, init);
      if r.Ok? && Extract(sigils, fs).Ok? {
        assert Extract(sigils, fs) == Step(sigils, r.value, fs[n]);
        StepStar(sigils, r.value, fs[n]);
      }
    }
  }

  /** No sigil of two characters begins with `*`, so a fragment `*x` is an item. */
  ghost predicate StarIsSingle(sigils: seq<string>) {
    forall s :: s in sigils && |s| == 2 ==> s[0] != '*'
  }

  lemma LineSigilsStarIsSingle()
    ensures StarIsSingle(LineSigils)
  {
  }

  lemma StepAfterBareStar(sigils: seq<string>, acc: Fields, f: string)
    requires StarIsSingle(sigils) && Get(acc, "*").Some? && Get(acc, "*").value.Text?
    ensures Step(sigils, acc, f).Ok? ==>
              (Take(f, 1) == "*" ==> f == "*")
              && Get(Step(sigils, acc, f).value, "*").Some?
              && Get(Step(sigils, acc, f).value, "*").value.Text?
  {
    if Take(f, 1) == "*" && |f| >= 2 {
      assert Take(f, 2)[0] == '*';
      assert Take(f, 2) !in sigils;
    }
  }

  /** After a bare `*` fragment the `*` value is a string for the rest of the line. */
  lemma {:induction false} BareStarKeepsText(sigils: seq<string>, fs: seq<string>, i: nat)
    requires StarIsSingle(sigils) && i < |fs| && fs[i] == "*"
    ensures Extract(sigils, fs).Ok? ==>
              Get(Extract(sigils, fs).value, "*").Some?
              && Get(Extract(sigils, fs).value, "*").value.Text?
  {
    var n := |fs| - 1;
    var init := fs[..n];
    var r := Extract(sigils, init);
    if Extract(sigils, fs).Ok? {
      assert r.Ok? && Extract(sigils, fs) == Step(sigils, r.value, fs[n]);
      if n == i {
        assert Take("*", 2) == "*" && Take("*", 1) == "*";
      } else {
        assert init[i] == fs[i];
        BareStarKeepsText(sigils, init, i);
        StepAfterBareStar(sigils, r.value, fs[n]);
      }
    }
  }

  /** A `*` item on a line whose `*` value is already a string raises. */
  lemma ItemOnTextRaises(sigils: seq<string>, fs: seq<string>, j: nat)
    requires StarIsSingle(sigils) && j < |fs| && Take(fs[j], 1) == "*" && fs[j] != "*"
    requires Extract(sigils, fs[..j]).Ok? ==>
               Get(Extract(sigils, fs[..j]).value, "*").Some?
               && Get(Extract(sigils, fs[..j]).value, "*").value.Text?
    ensures Extract(sigils, fs[..j + 1]).Err?
  {
    var gs, hs := fs[..j], fs[..j + 1];
    assert hs[..j] == gs && hs[j] == fs[j];
    var r := Extract(sigils, gs);
    if r.Ok? {
      assert Extract(sigils, hs) == Step(sigils, r.value, fs[j]);
      StepAfterBareStar(sigils, r.value, fs[j]);
    }
  }

  /** `**x`: the bare `*` overwrites the list with a string, and a later item calls
      `append` on that string, which raises `AttributeError`. This holds for any table
      in which no two-character sigil begins with `*`, the parser's among them. */
  lemma BareStarRaises(sigils: seq<string>, fs: seq<string>, i: nat, j: nat)
    requires StarIsSingle(sigils)
    requires i < j < |fs| && fs[i] == "*" && Take(fs[j], 1) == "*" && fs[j] != "*"
    ensures Extract(sigils, fs).Err?
  {
    var gs := fs[..j];
    assert gs[i] == fs[i];
    BareStarKeepsText(sigils, gs, i);
    ItemOnTextRaises(sigils, fs, j);
    ExtractErrSticks(sigils, fs, j + 1);
  }

  /** A line that does not begin with a sigil: its first fragment is plain text, which is
      neither a sigil nor empty, so the loop raises `Exception("Impossible error.")`. */
  lemma PlainStartRaises(text: string)
    requires text != [] && MatchLen(LineSigils, text, 0) == 0
    ensures Raw(text) == Err(ImpossibleError)
  {
    var fs := Fragments(LineSigils, text);
    assert Scan(LineSigils, text, 0, 0) == Scan(LineSigils, text, 0, 1);
    ScanHead(LineSigils, text, 0, 1);
    var f := fs[0];
    PlainFragmentRaises(text, f);
    assert fs[..1] == [f];
    assert Extract(LineSigils, fs[..1]) == Step(LineSigils, Initial, f);
    ExtractErrSticks(LineSigils, fs, 1);
  }

  lemma PlainFragmentRaises(text: string, f: string)
    requires MatchLen(LineSigils, text, 0) == 0 && f != [] && f <= text
    ensures Step(LineSigils, Initial, f) == Err(ImpossibleError)
  {
    assert forall j :: 0 <= j < |LineSigils| ==> LineSigils[j] != [];
    NoMatchPrefixRaises(LineSigils, text, Initial, f);
  }

  /** A non-empty prefix of a text at whose start no sigil matches is neither a sigil nor
      empty. */
  lemma NoMatchPrefixRaises(sigils: seq<string>, text: string, acc: Fields, f: string)
    requires forall j :: 0 <= j < |sigils| ==> sigils[j] != []
    requires MatchLen(sigils, text, 0) == 0 && f != [] && f <= text
    ensures Step(sigils, acc, f) == Err(ImpossibleError)
  {
    MatchLenSpec(sigils, text, 0);
    var two, one := Take(f, 2), Take(f, 1);
    assert two <= text && one <= text;
    assert forall j :: 0 <= j < |sigils| && (sigils[j] == two || sigils[j] == one) ==> OccursAt(sigils[j], text, 0);
  }
}
