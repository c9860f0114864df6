/**
 * Python values as they cross the application's boundaries: decoded JSON
 * (what `json.loads` returns) and the pandas frame an executor hands back.
 */
module PyValues {
  import opened Base
  import opened PyText

  /** A decoded JSON value. Objects keep their members in document order,
      as a Python `dict` does. Floating-point numbers are not modelled. */
  datatype Json =
    | JNull
    | JBool(b: bool)
    | JInt(i: int)
    | JStr(s: string)
    | JArr(items: seq<Json>)
    | JObj(fields: seq<Field>)

  datatype Field = Field(key: string, value: Json)

  /** Python's truth value of the decoded object (`if x:` / `not x`). */
  predicate Truthy(j: Json) {
    match j
    case JNull => false
    case JBool(b) => b
    case JInt(i) => i != 0
    case JStr(s) => |s| > 0
    case JArr(items) => |items| > 0
    case JObj(fields) => |fields| > 0
  }

  /** `d.get(key)` on a decoded object: `json.loads` keeps the last of
      duplicated members, so the lookup answers with the last match. */
  function Lookup(fields: seq<Field>, key: string): (r: Option<Json>)
    ensures r.None? <==> forall i :: 0 <= i < |fields| ==> fields[i].key != key
    ensures r.Some? ==> exists i :: 0 <= i < |fields| && fields[i] == Field(key, r.value)
                                   && forall k :: i < k < |fields| ==> fields[k].key != key
  {
    if |fields| == 0 then None
    else if fields[|fields| - 1].key == key then Some(fields[|fields| - 1].value)
    else Lookup(fields[..|fields| - 1], key)
  }

  /** A key present once is found with its own value. */
  lemma LookupUnique(fields: seq<Field>, i: nat)
    requires i < |fields|
    requires forall j :: 0 <= j < |fields| && j != i ==> fields[j].key != fields[i].key
    ensures Lookup(fields, fields[i].key) == Some(fields[i].value)
  {
  }

  /** `d.get(key, default)`. */
  function Get(fields: seq<Field>, key: string, default: Json): Json {
    Lookup(fields, key).GetOr(default)
  }

  /** `type(x).__name__` of the decoded object. */
  function TypeName(j: Json): string {
    match j
    case JNull => "NoneType"
    case JBool(_) => "bool"
    case JInt(_) => "int"
    case JStr(_) => "str"
    case JArr(_) => "list"
    case JObj(_) => "dict"
  }

  /** `str(n)` for any integer. */
  function IntToString(i: int): (r: string)
    ensures |r| > 0
  {
    if i < 0 then "-" + NatToString(-i) else NatToString(i)
  }

  function Join(sep: string, parts: seq<string>): string {
    if |parts| == 0 then ""
    else if |parts| == 1 then parts[0]
    else parts[0] + sep + Join(sep, parts[1..])
  }

  /** `str(x)` of the decoded object. Strings, None, booleans and integers
      print exactly as Python prints them; containers use `Repr`. */
  function Str(j: Json): string {
    match j
    case JStr(s) => s
    case _ => Repr(j)
  }

  /** `repr(x)`, with strings quoted in single quotes and not escaped. */
  function Repr(j: Json): string {
    match j
    case JNull => "None"
    case JBool(b) => if b then "True" else "False"
    case JInt(i) => IntToString(i)
    case JStr(s) => "'" + s + "'"
    case JArr(items) =>
      "[" + Join(", ", seq(|items|, k requires 0 <= k < |items| => Repr(items[k]))) + "]"
    case JObj(fields) =>
      "{" + Join(", ", seq(|fields|, k requires 0 <= k < |fields| =>
                          "'" + fields[k].key + "': " + Repr(fields[k].value))) + "}"
  }

  /** A pandas DataFrame reduced to what the application looks at: column
      labels and rows of cell values. */
  datatype DataFrame = DataFrame(columns: seq<string>, rows: seq<seq<Json>>) {

    /** `df.empty`: true when either axis has length zero. */
    predicate Empty() {
      |columns| == 0 || |rows| == 0
    }

    /** Every row has one cell per column. */
    predicate Rectangular() {
      forall k :: 0 <= k < |rows| ==> |rows[k]| == |columns|
    }
  }

  /** The frames a DataFrame can hold: labels may repeat (`SELECT a.id,
      b.id`), rows cannot be ragged. */
  type Frame = f: DataFrame | f.Rectangular() witness DataFrame([], [])

  /** The keys of a dict, in insertion order. */
  function Keys(fields: seq<Field>): (r: seq<string>)
    ensures |r| == |fields|
  {
    seq(|fields|, i requires 0 <= i < |fields| => fields[i].key)
  }

  lemma KeysCons(f: Field, rest: seq<Field>)
    ensures Keys([f] + rest) == [f.key] + Keys(rest)
    ensures Distinct(Keys([f] + rest)) <==> f.key !in Keys(rest) && Distinct(Keys(rest))
  {
    assert Keys([f] + rest) == [f.key] + Keys(rest);
    DistinctCons(f.key, Keys(rest));
  }

  /** `d[key] = value`: a key already present keeps its place and takes the
      new value; a new key goes last. */
  function Insert(fields: seq<Field>, key: string, value: Json): seq<Field>
    decreases |fields|
  {
    if |fields| == 0 then [Field(key, value)]
    else if fields[0].key == key then [Field(key, value)] + fields[1..]
    else [fields[0]] + Insert(fields[1..], key, value)
  }

  /** A key is absent exactly when it is not among the keys. */
  lemma LookupKeys(fields: seq<Field>, l: string)
    ensures Lookup(fields, l).None? <==> l !in Keys(fields)
  {
    if l in Keys(fields) {
      var i :| 0 <= i < |fields| && Keys(fields)[i] == l;
      assert fields[i].key == l;
    } else {
      forall i | 0 <= i < |fields|
        ensures fields[i].key != l
      {
        assert Keys(fields)[i] == fields[i].key;
      }
    }
  }

  /** Looking a key up after a member put in front: members further on win. */
  lemma {:induction false} LookupFront(f: Field, rest: seq<Field>, l: string)
    ensures Lookup([f] + rest, l)
            == if Lookup(rest, l).Some? then Lookup(rest, l) else if f.key == l then Some(f.value) else None
    decreases |rest|
  {
    var s := [f] + rest;
    if |rest| == 0 {
      assert s[..|s| - 1] == [];
    } else {
      assert s[..|s| - 1] == [f] + rest[..|rest| - 1];
      assert s[|s| - 1] == rest[|rest| - 1];
      LookupFront(f, rest[..|rest| - 1], l);
    }
  }

  /** `r` is `fields` after storing `value` under `key`: the key reads back
      the new value, every other key reads as before, and the keys stay
      distinct and in insertion order. */
  ghost predicate Stored(fields: seq<Field>, r: seq<Field>, key: string, value: Json) {
    && Distinct(Keys(r))
    && Keys(r) == (if key in Keys(fields) then Keys(fields) else Keys(fields) + [key])
    && Lookup(r, key) == Some(value)
    && forall l :: l != key ==> Lookup(r, l) == Lookup(fields, l)
  }

  lemma {:induction false} InsertSpec(fields: seq<Field>, key: string, value: Json)
    requires Distinct(Keys(fields))
    ensures Stored(fields, Insert(fields, key, value), key, value)
    decreases |fields|
  {
    if |fields| == 0 {
      InsertEmpty(key, value);
    } else if fields[0].key == key {
      InsertAtHead(fields, key, value);
    } else {
      KeysCons(fields[0], fields[1..]);
      assert fields == [fields[0]] + fields[1..];
      InsertSpec(fields[1..], key, value);
      InsertPastHead(fields[0], fields[1..], key, value);
    }
  }

  lemma InsertEmpty(key: string, value: Json)
    ensures Stored([], Insert([], key, value), key, value)
  {
    var r := Insert([], key, value);
    assert r == [Field(key, value)];
    forall l | l != key
      ensures Lookup(r, l) == Lookup([], l)
    {
      assert r[..0] == [];
    }
  }

  /** Storing under the first key replaces that member in place. */
  lemma InsertAtHead(fields: seq<Field>, key: string, value: Json)
    requires |fields| > 0 && fields[0].key == key && Distinct(Keys(fields))
    ensures Stored(fields, Insert(fields, key, value), key, value)
  {
    var rest := fields[1..];
    var r := Insert(fields, key, value);
    assert fields == [fields[0]] + rest;
    assert r == [Field(key, value)] + rest;
    KeysCons(fields[0], rest);
    KeysCons(Field(key, value), rest);
    LookupKeys(rest, key);
    LookupFront(Field(key, value), rest, key);
    forall l | l != key
      ensures Lookup(r, l) == Lookup(fields, l)
    {
      LookupFront(Field(key, value), rest, l);
      LookupFront(fields[0], rest, l);
    }
  }

  /** Storing past a first member of another key keeps that member first. */
  lemma InsertPastHead(f: Field, rest: seq<Field>, key: string, value: Json)
    requires f.key != key && Distinct(Keys([f] + rest))
    requires Stored(rest, Insert(rest, key, value), key, value)
    ensures Stored([f] + rest, Insert([f] + rest, key, value), key, value)
  {
    var fields := [f] + rest;
    var r' := Insert(rest, key, value);
    assert fields[1..] == rest;
    var r := Insert(fields, key, value);
    assert r == [f] + r';
    KeysCons(f, rest);
    KeysCons(f, r');
    LookupFront(f, r', key);
    forall l | l != key
      ensures Lookup(r, l) == Lookup(fields, l)
    {
      LookupFront(f, r', l);
      LookupFront(f, rest, l);
    }
  }

  /** The key part of `Stored`, on its own. */
  lemma InsertKeys(fields: seq<Field>, key: string, value: Json)
    requires Distinct(Keys(fields))
    ensures Distinct(Keys(Insert(fields, key, value)))
    ensures Keys(Insert(fields, key, value)) == if key in Keys(fields) then Keys(fields) else Keys(fields) + [key]
  {
    InsertSpec(fields, key, value);
  }

  /** The lookup part of `Stored`, for one label. */
  lemma InsertLookup(fields: seq<Field>, key: string, value: Json, l: string)
    requires Distinct(Keys(fields))
    ensures Lookup(Insert(fields, key, value), l) == if l == key then Some(value) else Lookup(fields, l)
  {
    InsertSpec(fields, key, value);
  }

  /** One row of `df.to_dict(orient='records')`: the row's cells stored left
      to right under their column labels in a dict. */
  function RowRecord(columns: seq<string>, row: seq<Json>): seq<Field>
    requires |row| == |columns|
    decreases |columns|
  {
    if |columns| == 0 then []
    else Insert(RowRecord(columns[..|columns| - 1], row[..|row| - 1]), columns[|columns| - 1], row[|row| - 1])
  }

  /** A record has each label once, in first-appearance order. */
  lemma {:induction false} RowRecordKeys(columns: seq<string>, row: seq<Json>)
    requires |row| == |columns|
    ensures Distinct(Keys(RowRecord(columns, row)))
    ensures Keys(RowRecord(columns, row)) == Dedup(columns)
    decreases |columns|
  {
    if |columns| > 0 {
      var n := |columns| - 1;
      RowRecordKeys(columns[..n], row[..n]);
      InsertKeys(RowRecord(columns[..n], row[..n]), columns[n], row[n]);
      assert columns == columns[..n] + [columns[n]];
      DedupSnoc(columns[..n], columns[n]);
    }
  }

  /** A label reads the cell of the last column carrying it. */
  lemma {:induction false} RowRecordLast(columns: seq<string>, row: seq<Json>, c: nat)
    requires |row| == |columns| && c < |columns|
    requires forall d :: c < d < |columns| ==> columns[d] != columns[c]
    ensures Lookup(RowRecord(columns, row), columns[c]) == Some(row[c])
    decreases |columns|
  {
    var n := |columns| - 1;
    var init := columns[..n];
    RowRecordKeys(init, row[..n]);
    InsertLookup(RowRecord(init, row[..n]), columns[n], row[n], columns[c]);
    if c < n {
      assert columns[c] != columns[n];
      assert forall d :: c < d < |init| ==> init[d] != init[c];
      RowRecordLast(init, row[..n], c);
    }
  }

  /** A record has each label once, in first-appearance order; a label reads
      the cell of the last column carrying it, and any other key is absent. */
  lemma RowRecordSpec(columns: seq<string>, row: seq<Json>)
    requires |row| == |columns|
    ensures Distinct(Keys(RowRecord(columns, row)))
    ensures Keys(RowRecord(columns, row)) == Dedup(columns)
    ensures forall c :: 0 <= c < |columns| && (forall d :: c < d < |columns| ==> columns[d] != columns[c]) ==>
              Lookup(RowRecord(columns, row), columns[c]) == Some(row[c])
    ensures forall l :: l !in columns ==> Lookup(RowRecord(columns, row), l).None?
  {
    RowRecordKeys(columns, row);
    DedupSpec(columns);
    forall c | 0 <= c < |columns| && (forall d :: c < d < |columns| ==> columns[d] != columns[c])
      ensures Lookup(RowRecord(columns, row), columns[c]) == Some(row[c])
    {
      RowRecordLast(columns, row, c);
    }
    forall l | l !in columns
      ensures Lookup(RowRecord(columns, row), l).None?
    {
      LookupKeys(RowRecord(columns, row), l);
    }
  }

  /** `df.to_dict(orient='records')`: one record per row, in row order. */
  function Records(f: Frame): (r: seq<seq<Field>>)
    ensures |r| == |f.rows|
  {
    seq(|f.rows|, k requires 0 <= k < |f.rows| => RowRecord(f.columns, f.rows[k]))
  }

  /** Record `k` holds the labels of the frame once each, in first-appearance
      order; a label reads the cell of the last column carrying it in row
      `k`. */
  lemma RecordsRead(f: Frame, k: nat)
    requires k < |f.rows|
    ensures Distinct(Keys(Records(f)[k])) && Keys(Records(f)[k]) == Dedup(f.columns)
    ensures forall c :: 0 <= c < |f.columns| && (forall d :: c < d < |f.columns| ==> f.columns[d] != f.columns[c]) ==>
              Lookup(Records(f)[k], f.columns[c]) == Some(f.rows[k][c])
    ensures forall l :: l !in f.columns ==> Lookup(Records(f)[k], l).None?
  {
    RowRecordSpec(f.columns, f.rows[k]);
  }

  /** A frame with rows but no columns is empty, yet its records are not:
      every row becomes an empty record. */
  lemma ColumnlessFrameRecords(n: nat)
    requires n > 0
    ensures var f := DataFrame([], seq(n, _ => []));
            f.Empty() && |Records(f)| == n && Records(f)[0] == []
  {
  }
}
