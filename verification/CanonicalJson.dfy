/**
 The canonical printing of a value that passport hashes are taken over, and what it identifies: two
 values print alike exactly when they mean the same JSON, in whatever order their keys were given.
 */
module CanonicalJson {
  import opened JsonText
  import opened KeyOrder

  /** A value as the program holds it: an object is a list of fields with distinct keys, in insertion order. */
  datatype Value = Undefined | Null | Bool(b: bool) | Number(n: int) | Str(s: Text) | Arr(items: seq<Value>)
    | Obj(fields: seq<Field>)

  datatype Field = Field(key: Text, value: Value)

  /** What a value means: objects are finite maps, and undefined has no meaning of its own. */
  datatype Json = JNull | JBool(b: bool) | JNumber(n: int) | JStr(s: Text) | JArr(items: seq<Json>)
    | JObj(fields: map<Text, Json>)

  const COMMA: Unit := 0x2C
  const COLON: Unit := 0x3A
  const NULL_TEXT: Text := [110, 117, 108, 108]
  const TRUE_TEXT: Text := [116, 114, 117, 101]
  const FALSE_TEXT: Text := [102, 97, 108, 115, 101]

  ghost predicate WellFormed(v: Value)
    decreases v
  {
    match v
    case Arr(items) => forall i :: 0 <= i < |items| ==> WellFormed(items[i])
    case Obj(fields) =>
      && (forall i :: 0 <= i < |fields| ==> WellFormed(fields[i].value))
      && forall i, j :: 0 <= i < j < |fields| ==> fields[i].key != fields[j].key
    case _ => true
  }

  // ---------- Printing ----------

  function Print(v: Value): Text
    decreases v
  {
    match v
    case Undefined => NULL_TEXT
    case Null => NULL_TEXT
    case Bool(b) => if b then TRUE_TEXT else FALSE_TEXT
    case Number(n) => Decimal(n)
    case Str(s) => Quote(s)
    case Arr(items) => [0x5B] + JoinItems(items) + [0x5D]
    case Obj(fields) => [0x7B] + JoinEntries(Sort(Entries(fields))) + [0x7D]
  }

  function JoinItems(items: seq<Value>): Text
    decreases items
  {
    if items == [] then []
    else if |items| == 1 then Print(items[0])
    else Print(items[0]) + [COMMA] + JoinItems(items[1..])
  }

  /** The fields that are not undefined, each with its printed value. */
  function Entries(fields: seq<Field>): seq<Entry>
    decreases fields
  {
    if fields == [] then []
    else if fields[0].value.Undefined? then Entries(fields[1..])
    else [Entry(fields[0].key, Print(fields[0].value))] + Entries(fields[1..])
  }

  function JoinEntries(entries: seq<Entry>): Text {
    if entries == [] then []
    else if |entries| == 1 then EntryText(entries[0])
    else EntryText(entries[0]) + [COMMA] + JoinEntries(entries[1..])
  }

  function EntryText(e: Entry): Text {
    Quote(e.key) + [COLON] + e.text
  }

  // ---------- Meaning ----------

  function Meaning(v: Value): Json
    decreases v
  {
    match v
    case Undefined => JNull
    case Null => JNull
    case Bool(b) => JBool(b)
    case Number(n) => JNumber(n)
    case Str(s) => JStr(s)
    case Arr(items) => JArr(Meanings(items))
    case Obj(fields) => JObj(FieldMeanings(fields))
  }

  function Meanings(items: seq<Value>): (m: seq<Json>)
    ensures |m| == |items|
    decreases items
  {
    if items == [] then [] else [Meaning(items[0])] + Meanings(items[1..])
  }

  function FieldMeanings(fields: seq<Field>): map<Text, Json>
    decreases fields
  {
    if fields == [] then map[]
    else if fields[0].value.Undefined? then FieldMeanings(fields[1..])
    else FieldMeanings(fields[1..])[fields[0].key := Meaning(fields[0].value)]
  }

  // ---------- Prefix-freeness ----------

  datatype Shape = Nothing | Truth | Falsity | Numeric | Textual | List | Record

  function ShapeOf(v: Value): Shape {
    match v
    case Undefined => Nothing
    case Null => Nothing
    case Bool(b) => if b then Truth else Falsity
    case Number(_) => Numeric
    case Str(_) => Textual
    case Arr(_) => List
    case Obj(_) => Record
  }

  predicate StartOf(s: Shape, u: Unit) {
    match s
    case Nothing => u == 110
    case Truth => u == 116
    case Falsity => u == 102
    case Numeric => u == 45 || IsDigit(u)
    case Textual => u == QUOTE
    case List => u == 0x5B
    case Record => u == 0x7B
  }

  /** The first unit of a printed value tells what kind of value it is, and never ends one. */
  lemma PrintStarts(v: Value)
    ensures Print(v) != [] && StartOf(ShapeOf(v), Print(v)[0]) && !Terminated(Print(v))
  {
    if v.Number? {
      DecimalStarts(v.n);
    }
  }

  lemma SameShape(a: Value, b: Value, x: Text, y: Text)
    requires Print(a) + x == Print(b) + y
    ensures ShapeOf(a) == ShapeOf(b)
  {
    hide Print;
    PrintStarts(a);
    PrintStarts(b);
    SameStart(Print(a), x, Print(b), y);
  }

  /** What follows the first item of a list, up to and beyond its closing bracket. */
  function ItemsRest(items: seq<Value>, tail: Text): Text
    requires items != []
  {
    if |items| == 1 then tail else [COMMA] + (JoinItems(items[1..]) + tail)
  }

  lemma ItemsUnfold(items: seq<Value>, tail: Text)
    requires items != []
    ensures JoinItems(items) + tail == Print(items[0]) + ItemsRest(items, tail)
  {
    if |items| > 1 {
      Assoc(Print(items[0]) + [COMMA], JoinItems(items[1..]), tail);
      Assoc(Print(items[0]), [COMMA], JoinItems(items[1..]) + tail);
    }
  }

  ghost predicate SamePrints(a: seq<Value>, b: seq<Value>) {
    |a| == |b| && forall i :: 0 <= i < |a| ==> Print(a[i]) == Print(b[i])
  }

  lemma {:induction false} PrintIsPrefixFree(a: Value, b: Value, x: Text, y: Text)
    requires Print(a) + x == Print(b) + y && Terminated(x) && Terminated(y)
    ensures Print(a) == Print(b) && x == y
    decreases a, 1
  {
    SameShape(a, b, x, y);
    match a
    case Number(m) => DecimalIsPrefixFree(m, b.n, x, y);
    case Str(s) => QuoteIsPrefixFree(s, b.s, x, y);
    case Arr(items) =>
      ListUnfolds(a.items, x);
      ListUnfolds(b.items, y);
      SameHead([0x5B], JoinItems(a.items) + ([0x5D] + x), [0x5B], JoinItems(b.items) + ([0x5D] + y));
      ItemsArePrefixFree(a.items, b.items, x, y);
      SamePrintsJoin(a.items, b.items);
    case Obj(fields) => RecordIsPrefixFree(a, b, x, y);
    case _ => SameHead(Print(a), x, Print(b), y);
  }

  lemma ListUnfolds(items: seq<Value>, x: Text)
    ensures Print(Arr(items)) + x == [0x5B] + (JoinItems(items) + ([0x5D] + x))
  {
    Assoc([0x5B] + JoinItems(items), [0x5D], x);
    Assoc([0x5B], JoinItems(items), [0x5D] + x);
  }

  lemma {:induction false} ItemsArePrefixFree(a: seq<Value>, b: seq<Value>, x: Text, y: Text)
    requires JoinItems(a) + ([0x5D] + x) == JoinItems(b) + ([0x5D] + y)
    ensures SamePrints(a, b) && x == y
    decreases a, 0
  {
    hide Print;
    var s, t := [0x5D] + x, [0x5D] + y;
    if a == [] || b == [] {
      EmptyItems(a, b, x, y);
    } else {
      ItemsUnfold(a, s);
      ItemsUnfold(b, t);
      PrintIsPrefixFree(a[0], b[0], ItemsRest(a, s), ItemsRest(b, t));
      RestDecides(a, b, s, t);
      if |a| == 1 {
        SameHead([0x5D], x, [0x5D], y);
      } else {
        SameHead([COMMA], JoinItems(a[1..]) + s, [COMMA], JoinItems(b[1..]) + t);
        ItemsArePrefixFree(a[1..], b[1..], x, y);
      }
    }
  }

  lemma RestDecides(a: seq<Value>, b: seq<Value>, s: Text, t: Text)
    requires a != [] && b != [] && s != [] && t != [] && s[0] == 0x5D && t[0] == 0x5D
    requires ItemsRest(a, s) == ItemsRest(b, t)
    ensures |a| == 1 <==> |b| == 1
  {
    hide Print, JoinItems;
    assert |a| > 1 ==> ItemsRest(a, s)[0] == COMMA;
    assert |b| > 1 ==> ItemsRest(b, t)[0] == COMMA;
  }

  lemma EmptyItems(a: seq<Value>, b: seq<Value>, x: Text, y: Text)
    requires JoinItems(a) + ([0x5D] + x) == JoinItems(b) + ([0x5D] + y) && (a == [] || b == [])
    ensures a == [] && b == [] && x == y
  {
    hide Print, Terminated;
    NoItems([0x5D] + x);
    NoItems([0x5D] + y);
    if a != [] {
      ItemsUnfold(a, [0x5D] + x);
      PrintStarts(a[0]);
      NotABracket(Print(a[0]));
      SameStart(Print(a[0]), ItemsRest(a, [0x5D] + x), [0x5D], y);
    } else if b != [] {
      ItemsUnfold(b, [0x5D] + y);
      PrintStarts(b[0]);
      NotABracket(Print(b[0]));
      SameStart(Print(b[0]), ItemsRest(b, [0x5D] + y), [0x5D], x);
    } else {
      SameHead([0x5D], x, [0x5D], y);
    }
  }

  lemma NoItems(tail: Text)
    ensures JoinItems([]) + tail == tail
  {
  }

  lemma NotABracket(t: Text)
    requires t != [] && !Terminated(t)
    ensures t[0] != 0x5D && t[0] != 0x7D && t[0] != COMMA
  {
  }

  lemma {:induction false} SamePrintsJoin(a: seq<Value>, b: seq<Value>)
    requires SamePrints(a, b)
    ensures JoinItems(a) == JoinItems(b)
  {
    hide Print;
    if |a| > 1 {
      SamePrintsJoin(a[1..], b[1..]);
    }
  }

  // ---------- Records ----------

  ghost predicate TextsPrefixFree(s: Text, t: Text) {
    forall x, y :: Terminated(x) && Terminated(y) && s + x == t + y ==> s == t && x == y
  }

  ghost predicate AllPrefixFree(s: seq<Entry>, t: seq<Entry>) {
    forall d, e :: d in s && e in t ==> TextsPrefixFree(d.text, e.text)
  }

  function EntriesRest(entries: seq<Entry>, tail: Text): Text
    requires entries != []
  {
    if |entries| == 1 then tail else [COMMA] + (JoinEntries(entries[1..]) + tail)
  }

  lemma EntriesUnfold(entries: seq<Entry>, tail: Text)
    requires entries != []
    ensures JoinEntries(entries) + tail ==
            Quote(entries[0].key) + ([COLON] + (entries[0].text + EntriesRest(entries, tail)))
  {
    hide Quote;
    var e := entries[0];
    if |entries| > 1 {
      Assoc(EntryText(e) + [COMMA], JoinEntries(entries[1..]), tail);
      Assoc(EntryText(e), [COMMA], JoinEntries(entries[1..]) + tail);
    }
    Assoc(Quote(e.key) + [COLON], e.text, EntriesRest(entries, tail));
    Assoc(Quote(e.key), [COLON], e.text + EntriesRest(entries, tail));
  }

  lemma {:induction false} EntriesArePrefixFree(a: seq<Entry>, b: seq<Entry>, x: Text, y: Text)
    requires JoinEntries(a) + ([0x7D] + x) == JoinEntries(b) + ([0x7D] + y) && AllPrefixFree(a, b)
    ensures a == b && x == y
  {
    hide Quote, JoinEntries, AllPrefixFree;
    var s, t := [0x7D] + x, [0x7D] + y;
    if a == [] || b == [] {
      EmptyEntries(a, b, x, y);
    } else {
      FirstEntriesAgree(a, b, s, t);
      if |a| == 1 {
        SameHead([0x7D], x, [0x7D], y);
      } else {
        SameHead([COMMA], JoinEntries(a[1..]) + s, [COMMA], JoinEntries(b[1..]) + t);
        TailsPrefixFree(a, b);
        EntriesArePrefixFree(a[1..], b[1..], x, y);
      }
      assert a == [a[0]] + a[1..] && b == [b[0]] + b[1..];
    }
  }

  lemma TailsPrefixFree(a: seq<Entry>, b: seq<Entry>)
    requires a != [] && b != [] && AllPrefixFree(a, b)
    ensures AllPrefixFree(a[1..], b[1..])
  {
    hide TextsPrefixFree;
  }

  lemma FirstEntriesAgree(a: seq<Entry>, b: seq<Entry>, s: Text, t: Text)
    requires a != [] && b != [] && s != [] && t != [] && s[0] == 0x7D && t[0] == 0x7D
    requires JoinEntries(a) + s == JoinEntries(b) + t && AllPrefixFree(a, b)
    ensures a[0] == b[0] && EntriesRest(a, s) == EntriesRest(b, t) && (|a| == 1 <==> |b| == 1)
  {
    hide Quote, JoinEntries;
    EntriesUnfold(a, s);
    EntriesUnfold(b, t);
    var u, v := a[0].text + EntriesRest(a, s), b[0].text + EntriesRest(b, t);
    QuoteIsPrefixFree(a[0].key, b[0].key, [COLON] + u, [COLON] + v);
    SameHead([COLON], u, [COLON], v);
    assert TextsPrefixFree(a[0].text, b[0].text);
    assert Terminated(EntriesRest(a, s)) && Terminated(EntriesRest(b, t));
    assert |a| > 1 ==> EntriesRest(a, s)[0] == COMMA;
    assert |b| > 1 ==> EntriesRest(b, t)[0] == COMMA;
  }

  lemma EmptyEntries(a: seq<Entry>, b: seq<Entry>, x: Text, y: Text)
    requires JoinEntries(a) + ([0x7D] + x) == JoinEntries(b) + ([0x7D] + y) && (a == [] || b == [])
    ensures a == b && x == y
  {
    assert JoinEntries([]) + ([0x7D] + x) == [0x7D] + x && JoinEntries([]) + ([0x7D] + y) == [0x7D] + y;
    hide JoinEntries, EntriesRest, Inside;
    if a != [] {
      EntriesUnfold(a, [0x7D] + x);
      SameStart(Quote(a[0].key), [COLON] + (a[0].text + EntriesRest(a, [0x7D] + x)), [0x7D], y);
    } else if b != [] {
      EntriesUnfold(b, [0x7D] + y);
      SameStart(Quote(b[0].key), [COLON] + (b[0].text + EntriesRest(b, [0x7D] + y)), [0x7D], x);
    } else {
      SameHead([0x7D], x, [0x7D], y);
    }
  }

  /** Every entry is the printing of a field that is not undefined, and every such field has its entry. */
  lemma {:induction false} EntriesAreFields(fields: seq<Field>, e: Entry)
    ensures e in Entries(fields) <==>
      exists i :: 0 <= i < |fields| && !fields[i].value.Undefined? && e == Entry(fields[i].key, Print(fields[i].value))
  {
    hide Print;
    if fields != [] {
      EntriesAreFields(fields[1..], e);
      assert fields == [fields[0]] + fields[1..];
      if e in Entries(fields[1..]) {
        var i :| 0 <= i < |fields[1..]| && !fields[1..][i].value.Undefined?
          && e == Entry(fields[1..][i].key, Print(fields[1..][i].value));
        assert fields[i + 1] == fields[1..][i];
      }
    }
  }

  lemma RecordUnfolds(fields: seq<Field>, x: Text)
    ensures Print(Obj(fields)) + x == [0x7B] + (JoinEntries(Sort(Entries(fields))) + ([0x7D] + x))
  {
    hide JoinEntries, Sort, Entries;
    var joined := JoinEntries(Sort(Entries(fields)));
    Assoc([0x7B] + joined, [0x7D], x);
    Assoc([0x7B], joined, [0x7D] + x);
  }

  lemma {:induction false} FieldsArePrefixFree(a: Value, b: Value)
    requires a.Obj? && b.Obj?
    ensures AllPrefixFree(Sort(Entries(a.fields)), Sort(Entries(b.fields)))
    decreases a, 0, 0
  {
    hide Sort, Entries, Terminated;
    forall d, e | d in Sort(Entries(a.fields)) && e in Sort(Entries(b.fields)) ensures TextsPrefixFree(d.text, e.text) {
      SortMembers(Entries(a.fields), d);
      SortMembers(Entries(b.fields), e);
      EntriesAreFields(a.fields, d);
      EntriesAreFields(b.fields, e);
      var i :| 0 <= i < |a.fields| && d == Entry(a.fields[i].key, Print(a.fields[i].value));
      var j :| 0 <= j < |b.fields| && e == Entry(b.fields[j].key, Print(b.fields[j].value));
      forall x, y | Terminated(x) && Terminated(y) && d.text + x == e.text + y ensures d.text == e.text && x == y {
        PrintIsPrefixFree(a.fields[i].value, b.fields[j].value, x, y);
      }
    }
  }

  lemma {:induction false} RecordsAgree(a: Value, b: Value, x: Text, y: Text)
    requires a.Obj? && b.Obj? && Print(a) + x == Print(b) + y
    ensures Sort(Entries(a.fields)) == Sort(Entries(b.fields)) && x == y
    decreases a, 0, 1
  {
    hide Print, Sort, Entries, JoinEntries;
    var s, t := Sort(Entries(a.fields)), Sort(Entries(b.fields));
    RecordUnfolds(a.fields, x);
    RecordUnfolds(b.fields, y);
    SameHead([0x7B], JoinEntries(s) + ([0x7D] + x), [0x7B], JoinEntries(t) + ([0x7D] + y));
    FieldsArePrefixFree(a, b);
    EntriesArePrefixFree(s, t, x, y);
  }

  lemma {:induction false} RecordIsPrefixFree(a: Value, b: Value, x: Text, y: Text)
    requires a.Obj? && b.Obj? && Print(a) + x == Print(b) + y
    ensures Print(a) == Print(b) && x == y
    decreases a, 0, 2
  {
    hide Sort, Entries, JoinEntries;
    RecordsAgree(a, b, x, y);
  }

  // ---------- Printing and meaning ----------

  lemma {:induction false} MeaningsAt(items: seq<Value>, i: nat)
    requires i < |items|
    ensures Meanings(items)[i] == Meaning(items[i])
  {
    hide Meaning;
    if i > 0 {
      MeaningsAt(items[1..], i - 1);
    }
  }

  ghost predicate DistinctKeys(fields: seq<Field>) {
    forall i, j :: 0 <= i < j < |fields| ==> fields[i].key != fields[j].key
  }

  predicate MeansAt(fields: seq<Field>, key: Text, i: int) {
    0 <= i < |fields| && fields[i].key == key && !fields[i].value.Undefined?
  }

  lemma MeansAtTail(fields: seq<Field>, key: Text, i: nat)
    requires fields != []
    ensures MeansAt(fields, key, i + 1) <==> MeansAt(fields[1..], key, i)
  {
  }

  lemma DistinctTail(fields: seq<Field>)
    requires DistinctKeys(fields) && fields != []
    ensures DistinctKeys(fields[1..]) && forall i :: 0 <= i < |fields[1..]| ==> fields[1..][i].key != fields[0].key
  {
  }

  /** A key has a meaning only through a field that has it. */
  lemma {:induction false} MeaningHasField(fields: seq<Field>, key: Text) returns (i: nat)
    requires key in FieldMeanings(fields)
    ensures MeansAt(fields, key, i)
  {
    hide Meaning;
    if !fields[0].value.Undefined? && fields[0].key == key {
      i := 0;
    } else {
      var j := MeaningHasField(fields[1..], key);
      MeansAtTail(fields, key, j);
      i := j + 1;
    }
  }

  /** And every field with a value gives its key its meaning. */
  lemma {:induction false} FieldHasMeaning(fields: seq<Field>, key: Text, i: nat)
    requires DistinctKeys(fields) && MeansAt(fields, key, i)
    ensures key in FieldMeanings(fields) && FieldMeanings(fields)[key] == Meaning(fields[i].value)
  {
    hide Meaning, DistinctKeys;
    DistinctTail(fields);
    if i > 0 {
      MeansAtTail(fields, key, i - 1);
      FieldHasMeaning(fields[1..], key, i - 1);
    }
  }

  lemma FieldMeaningAt(fields: seq<Field>, key: Text)
    requires DistinctKeys(fields)
    ensures key in FieldMeanings(fields) <==>
      exists i :: 0 <= i < |fields| && fields[i].key == key && !fields[i].value.Undefined?
    ensures forall i :: 0 <= i < |fields| && fields[i].key == key && !fields[i].value.Undefined? ==>
      key in FieldMeanings(fields) && FieldMeanings(fields)[key] == Meaning(fields[i].value)
  {
    hide Meaning, FieldMeanings, DistinctKeys;
    if key in FieldMeanings(fields) {
      var i := MeaningHasField(fields, key);
    }
    forall i | MeansAt(fields, key, i)
      ensures key in FieldMeanings(fields) && FieldMeanings(fields)[key] == Meaning(fields[i].value)
    {
      FieldHasMeaning(fields, key, i);
    }
  }

  lemma {:induction false} EntriesDistinct(fields: seq<Field>)
    requires DistinctKeys(fields)
    ensures KeysDistinct(Entries(fields))
  {
    hide Print;
    if fields != [] {
      EntriesDistinct(fields[1..]);
      forall i | 0 <= i < |Entries(fields[1..])| ensures Entries(fields[1..])[i].key != fields[0].key {
        EntriesAreFields(fields[1..], Entries(fields[1..])[i]);
      }
    }
  }

  /** Where `b` has the field that printed like this one of `a`. */
  lemma Counterpart(a: seq<Field>, b: seq<Field>, i: nat) returns (j: nat)
    requires i < |a| && !a[i].value.Undefined? && Sort(Entries(a)) == Sort(Entries(b))
    ensures j < |b| && !b[j].value.Undefined? && b[j].key == a[i].key && Print(b[j].value) == Print(a[i].value)
  {
    hide Print, Sort, Entries;
    var e := Entry(a[i].key, Print(a[i].value));
    EntriesAreFields(a, e);
    SortMembers(Entries(a), e);
    SortMembers(Entries(b), e);
    EntriesAreFields(b, e);
    j :| 0 <= j < |b| && !b[j].value.Undefined? && e == Entry(b[j].key, Print(b[j].value));
  }

  lemma {:induction false} PrintDeterminesMeaning(a: Value, b: Value)
    requires WellFormed(a) && WellFormed(b) && Print(a) == Print(b)
    ensures Meaning(a) == Meaning(b)
    decreases a, 1
  {
    assert Print(a) + [] == Print(b) + [];
    SameShape(a, b, [], []);
    match a
    case Number(m) =>
      assert Decimal(m) + [] == Decimal(b.n) + [];
      DecimalIsPrefixFree(m, b.n, [], []);
    case Str(s) =>
      assert Quote(s) + [] == Quote(b.s) + [];
      QuoteIsPrefixFree(s, b.s, [], []);
    case Arr(items) =>
      ListUnfolds(a.items, []);
      ListUnfolds(b.items, []);
      SameHead([0x5B], JoinItems(a.items) + ([0x5D] + []), [0x5B], JoinItems(b.items) + ([0x5D] + []));
      ItemsArePrefixFree(a.items, b.items, [], []);
      forall i | 0 <= i < |a.items| ensures Meanings(a.items)[i] == Meanings(b.items)[i] {
        PrintDeterminesMeaning(a.items[i], b.items[i]);
        MeaningsAt(a.items, i);
        MeaningsAt(b.items, i);
      }
    case Obj(fields) =>
      RecordsMeanTheSame(a, b);
    case _ =>
  }

  lemma {:induction false} RecordsMeanTheSame(a: Value, b: Value)
    requires a.Obj? && b.Obj? && WellFormed(a) && WellFormed(b) && Print(a) == Print(b)
    ensures Meaning(a) == Meaning(b)
    decreases a, 0
  {
    hide Sort, Entries, JoinEntries;
    assert Print(a) + [] == Print(b) + [];
    RecordsAgree(a, b, [], []);
    forall key ensures key in FieldMeanings(a.fields) <==> key in FieldMeanings(b.fields)
      ensures key in FieldMeanings(a.fields) && key in FieldMeanings(b.fields) ==>
        FieldMeanings(a.fields)[key] == FieldMeanings(b.fields)[key]
    {
      FieldMeaningAt(a.fields, key);
      FieldMeaningAt(b.fields, key);
      if key in FieldMeanings(a.fields) {
        var i :| 0 <= i < |a.fields| && a.fields[i].key == key && !a.fields[i].value.Undefined?;
        var j := Counterpart(a.fields, b.fields, i);
        PrintDeterminesMeaning(a.fields[i].value, b.fields[j].value);
      } else if key in FieldMeanings(b.fields) {
        var j :| 0 <= j < |b.fields| && b.fields[j].key == key && !b.fields[j].value.Undefined?;
        var i := Counterpart(b.fields, a.fields, j);
      }
    }
    assert FieldMeanings(a.fields) == FieldMeanings(b.fields);
  }

  lemma {:induction false} MeaningDeterminesPrint(a: Value, b: Value)
    requires WellFormed(a) && WellFormed(b) && Meaning(a) == Meaning(b)
    ensures Print(a) == Print(b)
    decreases a, 1
  {
    if a.Arr? {
      forall i | 0 <= i < |a.items| ensures Print(a.items[i]) == Print(b.items[i]) {
        MeaningsAt(a.items, i);
        MeaningsAt(b.items, i);
        MeaningDeterminesPrint(a.items[i], b.items[i]);
      }
      assert |Meanings(a.items)| == |Meanings(b.items)|;
      SamePrintsJoin(a.items, b.items);
    } else if a.Obj? {
      SameFieldsPrint(a, b);
    }
  }

  lemma {:induction false} SameFieldsPrint(a: Value, b: Value)
    requires a.Obj? && b.Obj? && WellFormed(a) && WellFormed(b) && Meaning(a) == Meaning(b)
    ensures Print(a) == Print(b)
    decreases a, 0
  {
    hide Sort, Entries, JoinEntries;
    EntriesDistinct(a.fields);
    EntriesDistinct(b.fields);
    forall e ensures e in Entries(a.fields) <==> e in Entries(b.fields) {
      EntriesAreFields(a.fields, e);
      EntriesAreFields(b.fields, e);
      FieldMeaningAt(a.fields, e.key);
      FieldMeaningAt(b.fields, e.key);
      if e in Entries(a.fields) {
        var i :| 0 <= i < |a.fields| && !a.fields[i].value.Undefined?
          && e == Entry(a.fields[i].key, Print(a.fields[i].value));
        var j :| 0 <= j < |b.fields| && b.fields[j].key == e.key && !b.fields[j].value.Undefined?;
        MeaningDeterminesPrint(a.fields[i].value, b.fields[j].value);
      }
      if e in Entries(b.fields) {
        var j :| 0 <= j < |b.fields| && !b.fields[j].value.Undefined?
          && e == Entry(b.fields[j].key, Print(b.fields[j].value));
        var i :| 0 <= i < |a.fields| && a.fields[i].key == e.key && !a.fields[i].value.Undefined?;
        MeaningDeterminesPrint(a.fields[i].value, b.fields[j].value);
      }
    }
    SortForgetsOrder(Entries(a.fields), Entries(b.fields));
  }

  /** Two values print alike exactly when they mean the same JSON. */
  lemma PrintsAlikeExactly(a: Value, b: Value)
    requires WellFormed(a) && WellFormed(b)
    ensures Print(a) == Print(b) <==> Meaning(a) == Meaning(b)
  {
    hide Print, Meaning, WellFormed;
    if Print(a) == Print(b) {
      PrintDeterminesMeaning(a, b);
    }
    if Meaning(a) == Meaning(b) {
      MeaningDeterminesPrint(a, b);
    }
  }

  /** With a hash free of collisions, equal hashes mean equal passports. */
  lemma HashIdentifiesMeaning<H>(hash: Text -> H, a: Value, b: Value)
    requires WellFormed(a) && WellFormed(b)
    requires forall s, t :: hash(s) == hash(t) ==> s == t
    ensures hash(Print(a)) == hash(Print(b)) <==> Meaning(a) == Meaning(b)
  {
    hide Print, Meaning, WellFormed;
    PrintsAlikeExactly(a, b);
  }

  // ---------- Some values, as they are printed ----------

  function Units(s: string): Text {
    seq(|s|, i requires 0 <= i < |s| => if s[i] < 128 as char then s[i] as int else 0)
  }

  lemma EscapesAsWritten()
    ensures Escape(0x22) == Units("\\\"") && Escape(0x5C) == Units("\\\\") && Escape(0x61) == Units("a")
    ensures Escape(0x08) == Units("\\b") && Escape(0x09) == Units("\\t") && Escape(0x0A) == Units("\\n")
    ensures Escape(0x0C) == Units("\\f") && Escape(0x0D) == Units("\\r")
    ensures Escape(0x1F) == Units("\\u001f") && Escape(0xD8AB) == Units("\\ud8ab")
  {
  }

  lemma ScalarsAsWritten()
    ensures Print(Null) == Units("null") && Print(Undefined) == Units("null")
    ensures Print(Bool(true)) == Units("true") && Print(Bool(false)) == Units("false")
    ensures Print(Number(0)) == Units("0") && Print(Number(-120)) == Units("-120")
  {
    assert Digits(120) == Digits(12) + [48];
  }

  lemma ListAsWritten(items: seq<Value>)
    ensures Print(Arr(items)) == Units("[") + JoinItems(items) + Units("]")
  {
    assert [0x5B] == Units("[") && [0x5D] == Units("]");
  }

  lemma ListsAsWritten(a: Value, b: Value)
    ensures Print(Arr([])) == Units("[]")
    ensures Print(Arr([a])) == Units("[") + Print(a) + Units("]")
    ensures Print(Arr([a, b])) == Units("[") + (Print(a) + Units(",") + Print(b)) + Units("]")
  {
    hide Print;
    ListAsWritten([]);
    ListAsWritten([a]);
    ListAsWritten([a, b]);
    assert [a, b][1..] == [b] && [COMMA] == Units(",");
  }

  lemma RecordAsWritten(fields: seq<Field>)
    ensures Print(Obj(fields)) == Units("{") + JoinEntries(Sort(Entries(fields))) + Units("}")
  {
    assert [0x7B] == Units("{") && [0x7D] == Units("}");
  }

  lemma LessAsWritten()
    ensures Less([97], [98])
  {
  }

  lemma KeysAsWritten(text: Text)
    ensures EntryText(Entry([97], text)) == Units("\"a\":") + text
    ensures EntryText(Entry([98], text)) == Units("\"b\":") + text
  {
    assert [97][1..] == [] && [98][1..] == [];
    assert Inside([97]) == [97] && Inside([98]) == [98];
  }

  lemma TwoEntries(x: Entry, y: Entry)
    requires Less(x.key, y.key)
    ensures Sort([y, x]) == [x, y] && JoinEntries([x, y]) == EntryText(x) + Units(",") + EntryText(y)
  {
    hide Less;
    LessIsTotal(x.key, y.key);
    assert [y, x][1..] == [x] && [x][1..] == [] && [x, y][1..] == [y] && [COMMA] == Units(",");
    assert Sort([x]) == Insert(x, []);
    assert Insert(y, [x]) == [x] + Insert(y, []);
  }

  /** Keys in ascending order, and a field that is undefined left out. */
  lemma RecordsAsWritten(a: Value, b: Value)
    requires a != Undefined && b != Undefined
    ensures Print(Obj([Field([98], b), Field([99], Undefined), Field([97], a)]))
      == Units("{") + ((Units("\"a\":") + Print(a)) + Units(",") + (Units("\"b\":") + Print(b))) + Units("}")
  {
    var x, y := Entry([97], Print(a)), Entry([98], Print(b));
    hide Print, EntryText, Sort, Entries, Less;
    KeysAsWritten(Print(a));
    KeysAsWritten(Print(b));
    RecordAsWritten([Field([98], b), Field([99], Undefined), Field([97], a)]);
    TwoOfThreeFields(a, b);
    assert Less([97], [98]) by {
      LessAsWritten();
    }
    TwoEntries(x, y);
  }

  lemma TwoOfThreeFields(a: Value, b: Value)
    requires a != Undefined && b != Undefined
    ensures Entries([Field([98], b), Field([99], Undefined), Field([97], a)])
      == [Entry([98], Print(b)), Entry([97], Print(a))]
  {
    hide Print;
    var fields := [Field([98], b), Field([99], Undefined), Field([97], a)];
    assert fields[1..] == [Field([99], Undefined), Field([97], a)];
    assert fields[1..][1..] == [Field([97], a)] && fields[1..][1..][1..] == [];
    assert Entries(fields[1..][1..]) == [Entry([97], Print(a))];
  }
}
