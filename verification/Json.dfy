/** JSON trees with their fields in insertion order, and the sorted key order of packages/harness/src/grade.ts. */
module Json {
  import opened Wrappers

  datatype Json =
    | Null
    | Bool(value: bool)
    | Num(number: real)
    | Str(text: string)
    | Arr(items: seq<Json>)
    | Obj(fields: seq<Field>)

  datatype Field = Field(key: string, value: Json)

  // ----- sizes, for recursion through sorted fields -----

  function Size(j: Json): nat
    decreases j, 1
  {
    match j
    case Arr(items) => 1 + ItemsSize(items)
    case Obj(fields) => 1 + FieldsSize(fields)
    case _ => 1
  }

  function ItemsSize(items: seq<Json>): nat
    decreases items, 0
  {
    if items == [] then 0 else 1 + Size(items[0]) + ItemsSize(items[1..])
  }

  function FieldsSize(fields: seq<Field>): nat
    decreases fields, 0
  {
    if fields == [] then 0 else 1 + Size(fields[0].value) + FieldsSize(fields[1..])
  }

  // ----- key order -----

  predicate LexLess(a: string, b: string) {
    if b == "" then false
    else if a == "" then true
    else if a[0] != b[0] then a[0] < b[0]
    else LexLess(a[1..], b[1..])
  }

  lemma {:induction false} LexIrreflexive(a: string)
    ensures !LexLess(a, a)
  {
    if a == "" {
    } else {
      LexIrreflexive(a[1..]);
    }
  }

  lemma {:induction false} LexTransitive(a: string, b: string, c: string)
    requires LexLess(a, b) && LexLess(b, c)
    ensures LexLess(a, c)
  {
    if a != "" && a[0] == b[0] == c[0] {
      LexTransitive(a[1..], b[1..], c[1..]);
    }
  }

  lemma {:induction false} LexTotal(a: string, b: string)
    ensures LexLess(a, b) || a == b || LexLess(b, a)
  {
    if a != "" && b != "" && a[0] == b[0] {
      LexTotal(a[1..], b[1..]);
      assert a == [a[0]] + a[1..] && b == [b[0]] + b[1..];
    }
  }

  // ----- fields -----

  function Keys(fields: seq<Field>): set<string> {
    set f | f in fields :: f.key
  }

  function Lookup(fields: seq<Field>, key: string): (r: Option<Json>)
    ensures r.Some? <==> key in Keys(fields)
    ensures r.Some? ==> Size(r.value) < FieldsSize(fields)
  {
    if fields == [] then None
    else
      assert fields == [fields[0]] + fields[1..];
      if fields[0].key == key then Some(fields[0].value) else Lookup(fields[1..], key)
  }

  ghost predicate DistinctKeys(fields: seq<Field>) {
    forall i, j :: 0 <= i < j < |fields| ==> fields[i].key != fields[j].key
  }

  ghost predicate SortedKeys(fields: seq<Field>) {
    forall i, j :: 0 <= i < j < |fields| ==> LexLess(fields[i].key, fields[j].key)
  }

  /** A JSON value: no object has a key twice. */
  ghost predicate WellFormed(j: Json)
    decreases Size(j)
  {
    match j
    case Arr(items) => AllWellFormed(items)
    case Obj(fields) => DistinctKeys(fields) && FieldsWellFormed(fields)
    case _ => true
  }

  ghost predicate AllWellFormed(items: seq<Json>)
    decreases ItemsSize(items)
  {
    items == [] || (WellFormed(items[0]) && AllWellFormed(items[1..]))
  }

  ghost predicate FieldsWellFormed(fields: seq<Field>)
    decreases FieldsSize(fields)
  {
    fields == [] || (WellFormed(fields[0].value) && FieldsWellFormed(fields[1..]))
  }

  function InsertField(sorted: seq<Field>, f: Field): (r: seq<Field>)
    ensures FieldsSize(r) == FieldsSize(sorted) + 1 + Size(f.value)
    ensures |r| == |sorted| + 1
  {
    if sorted == [] then
      assert [f][1..] == [];
      [f]
    else if LexLess(f.key, sorted[0].key) then
      assert ([f] + sorted)[1..] == sorted;
      [f] + sorted
    else
      var r := InsertField(sorted[1..], f);
      assert ([sorted[0]] + r)[1..] == r;
      [sorted[0]] + r
  }

  function SortFields(fields: seq<Field>): (r: seq<Field>)
    ensures FieldsSize(r) == FieldsSize(fields)
    ensures |r| == |fields|
  {
    if fields == [] then [] else InsertField(SortFields(fields[1..]), fields[0])
  }

  lemma {:induction false} InsertFieldMembers(sorted: seq<Field>, f: Field, g: Field)
    ensures g in InsertField(sorted, f) <==> g in sorted || g == f
  {
    if sorted == [] {
    } else {
      InsertFieldMembers(sorted[1..], f, g);
      assert sorted == [sorted[0]] + sorted[1..];
    }
  }

  lemma {:induction false} SortFieldsMembers(fields: seq<Field>, g: Field)
    ensures g in SortFields(fields) <==> g in fields
  {
    if fields == [] {
    } else {
      SortFieldsMembers(fields[1..], g);
      InsertFieldMembers(SortFields(fields[1..]), fields[0], g);
      assert fields == [fields[0]] + fields[1..];
    }
  }

  lemma {:induction false} InsertFieldSorts(sorted: seq<Field>, f: Field)
    requires SortedKeys(sorted) && forall i :: 0 <= i < |sorted| ==> sorted[i].key != f.key
    ensures SortedKeys(InsertField(sorted, f))
  {
    if sorted == [] {
    } else {
      var rest := sorted[1..];
      forall i, j | 0 <= i < j < |rest| ensures LexLess(rest[i].key, rest[j].key) {
        assert rest[i] == sorted[i + 1] && rest[j] == sorted[j + 1];
      }
      forall i | 0 <= i < |rest| ensures rest[i].key != f.key {
        assert rest[i] == sorted[i + 1];
      }
      if LexLess(f.key, sorted[0].key) {
        forall i | 0 <= i < |sorted| ensures LexLess(f.key, sorted[i].key) {
          if i > 0 {
            LexTransitive(f.key, sorted[0].key, sorted[i].key);
          }
        }
      } else {
        LexTotal(f.key, sorted[0].key);
        InsertFieldSorts(rest, f);
        var r := InsertField(rest, f);
        forall i | 0 <= i < |r| ensures LexLess(sorted[0].key, r[i].key) {
          InsertFieldMembers(rest, f, r[i]);
          assert r[i] in r;
          if r[i] != f {
            var j :| 0 <= j < |rest| && rest[j] == r[i];
            assert sorted[j + 1] == r[i];
          }
        }
      }
    }
  }

  lemma {:induction false} SortFieldsSorts(fields: seq<Field>)
    requires DistinctKeys(fields)
    ensures SortedKeys(SortFields(fields))
  {
    if fields == [] {
    } else {
      var rest := fields[1..];
      forall i, j | 0 <= i < j < |rest| ensures rest[i].key != rest[j].key {
        assert rest[i] == fields[i + 1] && rest[j] == fields[j + 1];
      }
      SortFieldsSorts(rest);
      var sorted := SortFields(rest);
      forall i | 0 <= i < |sorted| ensures sorted[i].key != fields[0].key {
        SortFieldsMembers(rest, sorted[i]);
        assert sorted[i] in sorted;
        var j :| 0 <= j < |rest| && rest[j] == sorted[i];
        assert fields[j + 1] == sorted[i];
      }
      InsertFieldSorts(sorted, fields[0]);
    }
  }

  lemma {:induction false} SortedIsDistinct(fields: seq<Field>)
    requires SortedKeys(fields)
    ensures DistinctKeys(fields)
  {
    forall i, j | 0 <= i < j < |fields| ensures fields[i].key != fields[j].key {
      LexIrreflexive(fields[i].key);
    }
  }

  /** In a list with distinct keys, looking up a key finds the field that has it. */
  lemma {:induction false} LookupAt(fields: seq<Field>, i: nat)
    requires DistinctKeys(fields) && i < |fields|
    ensures Lookup(fields, fields[i].key) == Some(fields[i].value)
  {
    if i == 0 {
    } else {
      var rest := fields[1..];
      forall a, b | 0 <= a < b < |rest| ensures rest[a].key != rest[b].key {
        assert rest[a] == fields[a + 1] && rest[b] == fields[b + 1];
      }
      LookupAt(rest, i - 1);
      assert rest[i - 1] == fields[i];
    }
  }

  lemma SortKeepsKeys(fields: seq<Field>)
    ensures Keys(SortFields(fields)) == Keys(fields)
  {
    forall k ensures k in Keys(SortFields(fields)) <==> k in Keys(fields) {
      if k in Keys(SortFields(fields)) {
        var f :| f in SortFields(fields) && f.key == k;
        SortFieldsMembers(fields, f);
      }
      if k in Keys(fields) {
        var f :| f in fields && f.key == k;
        SortFieldsMembers(fields, f);
      }
    }
  }

  lemma SortKeepsLookup(fields: seq<Field>, key: string)
    requires DistinctKeys(fields)
    ensures Lookup(SortFields(fields), key) == Lookup(fields, key)
  {
    SortKeepsKeys(fields);
    if key in Keys(fields) {
      var f :| f in fields && f.key == key;
      SortFieldsMembers(fields, f);
      SortFieldsSorts(fields);
      SortedIsDistinct(SortFields(fields));
      var i :| 0 <= i < |fields| && fields[i] == f;
      var j :| 0 <= j < |SortFields(fields)| && SortFields(fields)[j] == f;
      LookupAt(fields, i);
      LookupAt(SortFields(fields), j);
    }
  }

  lemma TailSorted(fields: seq<Field>)
    requires SortedKeys(fields) && fields != []
    ensures SortedKeys(fields[1..])
    ensures forall f :: f in fields[1..] ==> LexLess(fields[0].key, f.key)
    ensures Keys(fields) == {fields[0].key} + Keys(fields[1..]) && fields[0].key !in Keys(fields[1..])
  {
    var rest := fields[1..];
    forall i, j | 0 <= i < j < |rest| ensures LexLess(rest[i].key, rest[j].key) {
      assert rest[i] == fields[i + 1] && rest[j] == fields[j + 1];
    }
    forall f | f in rest ensures LexLess(fields[0].key, f.key) && f.key != fields[0].key {
      var i :| 0 <= i < |rest| && rest[i] == f;
      assert fields[i + 1] == f;
      LexIrreflexive(f.key);
    }
    assert fields == [fields[0]] + rest;
  }

  lemma SmallestKey(fields: seq<Field>, key: string)
    requires SortedKeys(fields) && fields != [] && key in Keys(fields)
    ensures key == fields[0].key || LexLess(fields[0].key, key)
  {
    TailSorted(fields);
    var f :| f in fields && f.key == key;
    assert fields == [fields[0]] + fields[1..];
  }

  /** Two sorted field lists with the same keys list them in the same order. */
  lemma {:induction false} SameKeysSameOrder(a: seq<Field>, b: seq<Field>)
    requires SortedKeys(a) && SortedKeys(b) && Keys(a) == Keys(b)
    ensures |a| == |b| && forall i :: 0 <= i < |a| ==> a[i].key == b[i].key
  {
    if a == [] {
      assert b == [] || b[0].key in Keys(b);
    } else {
      assert a[0].key in Keys(a);
      assert b != [];
      assert b[0].key in Keys(b);
      SmallestKey(a, b[0].key);
      SmallestKey(b, a[0].key);
      LexIrreflexive(a[0].key);
      if a[0].key != b[0].key {
        LexTransitive(a[0].key, b[0].key, a[0].key);
      }
      TailSorted(a);
      TailSorted(b);
      SameKeysSameOrder(a[1..], b[1..]);
    }
  }
}
