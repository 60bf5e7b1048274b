/** The column extractor of appv1.py (`get_list_from_data`): it turns a record, a list of
    records or a table into a table, normalises the column names and returns the values of
    the column named like the target, as strings. It never fails: every shape it does not
    recognise yields the empty list. */
module Extractor {
  import opened Wrappers
  import opened Text
  import opened Json

  /** A flat record: a decoded JSON object, entries in insertion order. */
  type Record = seq<(string, Json)>

  /** One column of a table: its label and one cell per row. A `Null` cell is a missing value. */
  datatype Column = Column(header: string, cells: seq<Json>)

  /** What the extractor is handed: a decoded value, or a table as the plan editor returns it. */
  datatype Data = Value(v: Json) | Table(columns: seq<Column>)

  /** Column names and the target are compared lower-cased and stripped. */
  function Norm(name: string): string
  {
    Strip(Lower(name))
  }

  predicate HasKey(r: Record, key: string)
  {
    exists k :: 0 <= k < |r| && r[k].0 == key
  }

  /** The value under `key`, `Null` (a missing value) when the record has no such entry. A
      decoded object has each key once; on a repeated key the first entry is read. */
  function Lookup(r: Record, key: string): (v: Json)
    ensures !HasKey(r, key) ==> v == Null
    ensures HasKey(r, key) ==>
      exists i :: 0 <= i < |r| && r[i].0 == key && v == r[i].1 && forall j :: 0 <= j < i ==> r[j].0 != key
  {
    if |r| == 0 then Null
    else if r[0].0 == key then
      assert r[0].0 == key && r[0].1 == r[0].1;
      r[0].1
    else
      var v := Lookup(r[1..], key);
      if HasKey(r, key) then
        var k :| 0 <= k < |r| && r[k].0 == key;
        assert r[1..][k - 1].0 == key;
        var i :| 0 <= i < |r| - 1 && r[1..][i].0 == key && v == r[1..][i].1
                 && forall j :: 0 <= j < i ==> r[1..][j].0 != key;
        assert r[i + 1].0 == key && v == r[i + 1].1;
        assert forall j :: 0 <= j < i + 1 ==> r[j].0 != key by {
          forall j | 0 <= j < i + 1 ensures r[j].0 != key {
            if j > 0 { assert r[j] == r[1..][j - 1]; }
          }
        }
        v
      else v
  }

  /** The keys of a record, in its order. */
  function KeysOf(r: Record): (ks: seq<string>)
    ensures |ks| == |r|
    ensures forall k :: 0 <= k < |r| ==> ks[k] == r[k].0
    ensures forall x :: x in ks <==> HasKey(r, x)
  {
    var ks := seq(|r|, k requires 0 <= k < |r| => r[k].0);
    assert forall x :: HasKey(r, x) ==> x in ks by {
      forall x | HasKey(r, x) ensures x in ks {
        var k :| 0 <= k < |r| && r[k].0 == x;
        assert ks[k] == x;
      }
    }
    ks
  }

  /** Reference order of the columns: the items of `xs` not in `seen`, each taken at its first
      occurrence, in the order of `xs`. */
  function FirstSeen(seen: seq<string>, xs: seq<string>): seq<string>
  {
    if |xs| == 0 then []
    else
      var front, last := xs[..|xs| - 1], xs[|xs| - 1];
      FirstSeen(seen, front) + (if last !in seen && last !in front then [last] else [])
  }

  /** The first occurrences are the items not seen before, each once. */
  lemma {:induction false} FirstSeenMembers(seen: seq<string>, xs: seq<string>)
    ensures forall x :: x in FirstSeen(seen, xs) <==> x in xs && x !in seen
    ensures Distinct(FirstSeen(seen, xs))
  {
    if |xs| > 0 {
      var front := xs[..|xs| - 1];
      FirstSeenMembers(seen, front);
      assert xs == front + [xs[|xs| - 1]];
    }
  }

  /** Only which items were seen matters, not their order or repetitions. */
  lemma {:induction false} FirstSeenSame(s1: seq<string>, s2: seq<string>, xs: seq<string>)
    requires forall x :: x in s1 <==> x in s2
    ensures FirstSeen(s1, xs) == FirstSeen(s2, xs)
  {
    if |xs| > 0 {
      FirstSeenSame(s1, s2, xs[..|xs| - 1]);
    }
  }

  /** The first occurrences in `xs + ys` are those in `xs`, then those in `ys` of items not
      seen in `xs` either. */
  lemma {:induction false} FirstSeenAppend(seen: seq<string>, xs: seq<string>, ys: seq<string>)
    ensures FirstSeen(seen, xs + ys) == FirstSeen(seen, xs) + FirstSeen(seen + xs, ys)
    decreases |ys|
  {
    if |ys| == 0 {
      assert xs + ys == xs;
    } else {
      var front := ys[..|ys| - 1];
      assert (xs + ys)[..|xs + ys| - 1] == xs + front;
      FirstSeenAppend(seen, xs, front);
    }
  }

  /** `pd.DataFrame` adding a row's keys to the column labels: the keys of `r` not yet labels
      are appended, each at its first occurrence, in the record's order. */
  function AddKeys(ks: seq<string>, r: Record): (out: seq<string>)
    ensures out == ks + FirstSeen(ks, KeysOf(r))
    ensures forall x :: x in out <==> x in ks || HasKey(r, x)
    ensures Distinct(ks) ==> Distinct(out)
    decreases |r|
  {
    if |r| == 0 then ks
    else
      var front, key := r[..|r| - 1], r[|r| - 1].0;
      var acc := AddKeys(ks, front);
      assert KeysOf(r)[..|r| - 1] == KeysOf(front);
      var out := if key in acc then acc else acc + [key];
      FirstSeenMembers(ks, KeysOf(r));
      out
  }

  predicate Distinct(ks: seq<string>)
  {
    forall i, j :: 0 <= i < j < |ks| ==> ks[i] != ks[j]
  }

  predicate SomeRowHas(rows: seq<Record>, key: string)
  {
    exists i :: 0 <= i < |rows| && HasKey(rows[i], key)
  }

  /** The keys of all rows, row after row. */
  function AllKeys(rows: seq<Record>): seq<string>
  {
    if |rows| == 0 then [] else AllKeys(rows[..|rows| - 1]) + KeysOf(rows[|rows| - 1])
  }

  /** A key is in some row exactly when it is in some earlier row or in the last one. */
  lemma SomeRowHasSnoc(rows: seq<Record>)
    requires |rows| > 0
    ensures forall x :: SomeRowHas(rows, x) <==> SomeRowHas(rows[..|rows| - 1], x) || HasKey(rows[|rows| - 1], x)
  {
  }

  /** The column labels `pd.DataFrame(rows)` gives: every key of every row, each once, in order
      of first appearance. */
  function Labels(rows: seq<Record>): (ks: seq<string>)
    ensures ks == FirstSeen([], AllKeys(rows))
    ensures Distinct(ks)
    ensures forall x :: x in ks <==> SomeRowHas(rows, x)
  {
    if |rows| == 0 then []
    else
      var front, last := rows[..|rows| - 1], rows[|rows| - 1];
      var labels := Labels(front);
      assert FirstSeen([], AllKeys(rows)) == labels + FirstSeen(labels, KeysOf(last)) by {
        FirstSeenMembers([], AllKeys(front));
        FirstSeenSame(labels, [] + AllKeys(front), KeysOf(last));
        FirstSeenAppend([], AllKeys(front), KeysOf(last));
      }
      SomeRowHasSnoc(rows);
      AddKeys(labels, last)
  }

  /** A key already labelled by an earlier row keeps its place: rows `{b, a}` and `{c, a}` give
      the columns `b`, `a`, `c`. */
  lemma LabelsInFirstAppearanceOrder()
    ensures Labels([[("b", Int(1)), ("a", Int(2))], [("c", Int(3)), ("a", Int(4))]]) == ["b", "a", "c"]
  {
    var r1: Record := [("b", Int(1)), ("a", Int(2))];
    var r2: Record := [("c", Int(3)), ("a", Int(4))];
    var xs := ["b", "a", "c", "a"];
    assert AllKeys([r1, r2]) == xs by {
      assert [r1, r2][..1] == [r1];
      assert KeysOf(r1) == ["b", "a"] && KeysOf(r2) == ["c", "a"];
    }
    assert FirstSeen([], xs[..1]) == ["b"];
    assert xs[..2][..1] == xs[..1];
    assert FirstSeen([], xs[..2]) == ["b", "a"];
    assert xs[..3][..2] == xs[..2];
    assert FirstSeen([], xs[..3]) == ["b", "a", "c"];
    assert xs[..3] == xs[..|xs| - 1];
  }

  /** `pd.DataFrame(rows)` for a list of flat records: a row lacking a key has a missing cell there. */
  function FromRecords(rows: seq<Record>): seq<Column>
  {
    var ks := Labels(rows);
    seq(|ks|, j requires 0 <= j < |ks| =>
      Column(ks[j], seq(|rows|, i requires 0 <= i < |rows| => Lookup(rows[i], ks[j]))))
  }

  /** The table pandas builds from a decoded value: a list of records, a list of scalars (one
      column labelled `0`) or a single record (one row). Other shapes are not recognised and
      stand for the branch that returns `[]` or raises inside the `try`. */
  function AsTable(data: Data): (t: Option<seq<Column>>)
    ensures data.Value? && data.v.IsScalar() ==> t == None
  {
    match data
    case Table(columns) => Some(columns)
    case Value(v) =>
      match v
      case List(items) =>
        if forall k :: 0 <= k < |items| ==> items[k].Object? then
          Some(FromRecords(seq(|items|, k requires 0 <= k < |items| => items[k].fields)))
        else if forall k :: 0 <= k < |items| ==> items[k].IsScalar() then
          Some([Column("0", items)])
        else None
      case Object(fields) => Some(FromRecords([fields]))
      case _ => None
  }

  /** The index of the first name, from `i` on, equal to `target`. */
  function FirstExact(names: seq<string>, target: string, i: nat := 0): (j: Option<nat>)
    requires i <= |names|
    ensures j.Some? ==> i <= j.value < |names| && names[j.value] == target
    ensures j.Some? ==> forall k :: i <= k < j.value ==> names[k] != target
    ensures j.None? ==> forall k :: i <= k < |names| ==> names[k] != target
    decreases |names| - i
  {
    if i == |names| then None
    else if names[i] == target then Some(i)
    else FirstExact(names, target, i + 1)
  }

  /** The index of the first name, from `i` on, that contains `target`. */
  function FirstContaining(names: seq<string>, target: string, i: nat := 0): (j: Option<nat>)
    requires i <= |names|
    ensures j.Some? ==> i <= j.value < |names| && Contains(names[j.value], target)
    ensures j.Some? ==> forall k :: i <= k < j.value ==> !Contains(names[k], target)
    ensures j.None? ==> forall k :: i <= k < |names| ==> !Contains(names[k], target)
    decreases |names| - i
  {
    if i == |names| then None
    else if Contains(names[i], target) then Some(i)
    else FirstContaining(names, target, i + 1)
  }

  lemma {:induction false} FirstExactAt(names: seq<string>, target: string, i: nat, j: nat)
    requires i <= j < |names| && names[j] == target
    requires forall k :: i <= k < j ==> names[k] != target
    ensures FirstExact(names, target, i) == Some(j)
    decreases j - i
  {
    if i < j { FirstExactAt(names, target, i + 1, j); }
  }

  lemma {:induction false} FirstExactNone(names: seq<string>, target: string, i: nat)
    requires i <= |names|
    requires forall k :: i <= k < |names| ==> names[k] != target
    ensures FirstExact(names, target, i) == None
    decreases |names| - i
  {
    if i < |names| { FirstExactNone(names, target, i + 1); }
  }

  lemma {:induction false} FirstContainingAt(names: seq<string>, target: string, i: nat, j: nat)
    requires i <= j < |names| && Contains(names[j], target)
    requires forall k :: i <= k < j ==> !Contains(names[k], target)
    ensures FirstContaining(names, target, i) == Some(j)
    decreases j - i
  {
    if i < j { FirstContainingAt(names, target, i + 1, j); }
  }

  lemma {:induction false} FirstContainingNone(names: seq<string>, target: string, i: nat)
    requires i <= |names|
    requires forall k :: i <= k < |names| ==> !Contains(names[k], target)
    ensures FirstContaining(names, target, i) == None
    decreases |names| - i
  {
    if i < |names| { FirstContainingNone(names, target, i + 1); }
  }

  /** `.dropna().astype(str).tolist()`: the non-missing cells, as strings, in row order. */
  function Values(cells: seq<Json>): (r: seq<string>)
    ensures |r| <= |cells|
  {
    if |cells| == 0 then []
    else (if cells[0].Null? then [] else [Render(cells[0])]) + Values(cells[1..])
  }

  /** `df.columns = [str(c).lower().strip() for c in df.columns]`. */
  function Headers(columns: seq<Column>): (names: seq<string>)
    ensures |names| == |columns|
    ensures forall k :: 0 <= k < |columns| ==> names[k] == Norm(columns[k].header)
  {
    seq(|columns|, k requires 0 <= k < |columns| => Norm(columns[k].header))
  }

  /** The column lookup on a table: exact normalised name first, then the first column whose
      normalised name contains the normalised target, else nothing. */
  function ColumnValues(columns: seq<Column>, name: string): seq<string>
  {
    var names, target := Headers(columns), Norm(name);
    match FirstExact(names, target)
    case Some(j) => Values(columns[j].cells)
    case None =>
      match FirstContaining(names, target)
      case Some(j) => Values(columns[j].cells)
      case None => []
  }

  /** `get_list_from_data(data, column_name)`. Total: every input has a result. */
  function GetListFromData(data: Data, name: string): (r: seq<string>)
    ensures data.Value? && data.v.IsScalar() ==> r == []
  {
    match AsTable(data)
    case None => []
    case Some(columns) => ColumnValues(columns, name)
  }

  // ---------------------------------------------------------------------------------
  // Properties of the extractor

  /** A decoded list of flat records. */
  function Records(rows: seq<Record>): (v: Json)
    ensures v.List? && |v.items| == |rows|
  {
    List(seq(|rows|, i requires 0 <= i < |rows| => Object(rows[i])))
  }

  /** Reference meaning of "the column `key` of a list of records": the non-null values under
      `key`, as strings, in row order, skipping rows that lack the key. */
  function ColumnOf(rows: seq<Record>, key: string): seq<string>
  {
    if |rows| == 0 then []
    else
      var v := Lookup(rows[0], key);
      (if !HasKey(rows[0], key) || v.Null? then [] else [Render(v)]) + ColumnOf(rows[1..], key)
  }

  lemma {:induction false} ValuesOfLookups(rows: seq<Record>, key: string)
    ensures Values(seq(|rows|, i requires 0 <= i < |rows| => Lookup(rows[i], key))) == ColumnOf(rows, key)
  {
    var cells := seq(|rows|, i requires 0 <= i < |rows| => Lookup(rows[i], key));
    if |rows| > 0 {
      ValuesOfLookups(rows[1..], key);
      assert cells[1..] == seq(|rows[1..]|, i requires 0 <= i < |rows[1..]| => Lookup(rows[1..][i], key));
    }
  }

  lemma RecordsTable(rows: seq<Record>)
    ensures AsTable(Value(Records(rows))) == Some(FromRecords(rows))
  {
    var items := Records(rows).items;
    assert seq(|items|, k requires 0 <= k < |items| => items[k].fields) == rows;
  }

  /** On a table: when column `j` is the first whose normalised name is the normalised
      target, its values are read. */
  lemma TableExact(columns: seq<Column>, name: string, j: nat)
    requires j < |columns| && Norm(columns[j].header) == Norm(name)
    requires forall k :: 0 <= k < j ==> Norm(columns[k].header) != Norm(name)
    ensures ColumnValues(columns, name) == Values(columns[j].cells)
  {
    FirstExactAt(Headers(columns), Norm(name), 0, j);
  }

  /** On a table: with no exact match, the first column whose normalised name contains the
      normalised target is the one read. */
  lemma TableFallback(columns: seq<Column>, name: string, j: nat)
    requires forall k :: 0 <= k < |columns| ==> Norm(columns[k].header) != Norm(name)
    requires j < |columns| && Contains(Norm(columns[j].header), Norm(name))
    requires forall k :: 0 <= k < j ==> !Contains(Norm(columns[k].header), Norm(name))
    ensures ColumnValues(columns, name) == Values(columns[j].cells)
  {
    FirstExactNone(Headers(columns), Norm(name), 0);
    FirstContainingAt(Headers(columns), Norm(name), 0, j);
  }

  /** On a table: no normalised column name contains the normalised target, so nothing is read. */
  lemma TableNoMatch(columns: seq<Column>, name: string)
    requires forall k :: 0 <= k < |columns| ==> !Contains(Norm(columns[k].header), Norm(name))
    ensures ColumnValues(columns, name) == []
  {
    ContainsSelf(Norm(name));
    FirstExactNone(Headers(columns), Norm(name), 0);
    FirstContainingNone(Headers(columns), Norm(name), 0);
  }

  /** The columns built from a list of records carry its labels, in order. */
  lemma RecordHeaders(rows: seq<Record>)
    ensures AsTable(Value(Records(rows))) == Some(FromRecords(rows))
    ensures |FromRecords(rows)| == |Labels(rows)|
    ensures forall k :: 0 <= k < |Labels(rows)| ==> FromRecords(rows)[k].header == Labels(rows)[k]
  {
    RecordsTable(rows);
  }

  /** Exact match: when the `j`-th column of a list of records is the first whose lower-cased,
      stripped name equals the lower-cased, stripped target, the result is that column's
      non-null values as strings, in row order, rows lacking the key skipped. */
  lemma ExactMatch(rows: seq<Record>, name: string, j: nat)
    requires j < |Labels(rows)|
    requires Norm(Labels(rows)[j]) == Norm(name)
    requires forall k :: 0 <= k < j ==> Norm(Labels(rows)[k]) != Norm(name)
    ensures GetListFromData(Value(Records(rows)), name) == ColumnOf(rows, Labels(rows)[j])
  {
    RecordHeaders(rows);
    TableExact(FromRecords(rows), name, j);
    ValuesOfLookups(rows, Labels(rows)[j]);
  }

  /** Substring fallback: with no exact match, the first column (in column order) whose
      normalised name contains the normalised target is used. */
  lemma SubstringFallback(rows: seq<Record>, name: string, j: nat)
    requires forall k :: 0 <= k < |Labels(rows)| ==> Norm(Labels(rows)[k]) != Norm(name)
    requires j < |Labels(rows)| && Contains(Norm(Labels(rows)[j]), Norm(name))
    requires forall k :: 0 <= k < j ==> !Contains(Norm(Labels(rows)[k]), Norm(name))
    ensures GetListFromData(Value(Records(rows)), name) == ColumnOf(rows, Labels(rows)[j])
  {
    RecordHeaders(rows);
    TableFallback(FromRecords(rows), name, j);
    ValuesOfLookups(rows, Labels(rows)[j]);
  }

  /** No column name equals or contains the target: the result is empty. */
  lemma NoMatchIsEmpty(rows: seq<Record>, name: string)
    requires forall k :: 0 <= k < |Labels(rows)| ==> !Contains(Norm(Labels(rows)[k]), Norm(name))
    ensures GetListFromData(Value(Records(rows)), name) == []
  {
    RecordHeaders(rows);
    TableNoMatch(FromRecords(rows), name);
  }

  /** A single record is read as a one-row table: extracting from it is extracting from
      the list holding only it. */
  lemma SingleRecordIsOneRow(r: Record, name: string)
    ensures GetListFromData(Value(Object(r)), name) == GetListFromData(Value(Records([r])), name)
  {
    RecordsTable([r]);
  }
}
