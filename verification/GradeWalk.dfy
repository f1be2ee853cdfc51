/** The first divergence of two JSON trees (packages/harness/src/grade.ts): walk and firstDivergence. */
module GradeWalk {
  import opened Sequences
  import opened Wrappers
  import opened Decimal
  import opened Json
  import opened Grade

  // ----- the code -----

  datatype Divergence = Divergence(path: string, expected: Option<Json>, actual: Option<Json>)

  function ChildPath(path: string, key: string): string {
    path + "." + key
  }

  function IndexPath(path: string, index: nat): string {
    path + "[" + Render(index) + "]"
  }

  function KeyList(fields: seq<Field>): seq<string> {
    if fields == [] then [] else [fields[0].key] + KeyList(fields[1..])
  }

  function Dedupe(keys: seq<string>): seq<string> {
    if keys == [] then []
    else
      var kept := Dedupe(keys[..|keys| - 1]);
      var last := keys[|keys| - 1];
      if last in kept then kept else kept + [last]
  }

  function InsertKey(sorted: seq<string>, key: string): seq<string> {
    if sorted == [] then [key]
    else if LexLess(key, sorted[0]) then [key] + sorted
    else [sorted[0]] + InsertKey(sorted[1..], key)
  }

  function SortKeys(keys: seq<string>): seq<string> {
    if keys == [] then [] else InsertKey(SortKeys(keys[1..]), keys[0])
  }

  function AllKeys(a: seq<Field>, b: seq<Field>): seq<string> {
    SortKeys(Dedupe(KeyList(a) + KeyList(b)))
  }

  function Walk(a: Json, b: Json, path: string): Option<Divergence>
    decreases Size(a), 0
  {
    if a == b then None
    else if a.Arr? && b.Arr? then WalkItems(a.items, b.items, 0, path)
    else if a.Obj? && b.Obj? then WalkKeys(a.fields, b.fields, AllKeys(a.fields, b.fields), path)
    else Some(Divergence(path, Some(a), Some(b)))
  }

  /** The items from position `index` on; the first divergence found ends the walk. */
  function WalkItems(a: seq<Json>, b: seq<Json>, index: nat, path: string): Option<Divergence>
    decreases ItemsSize(a), 0
  {
    if a == [] && b == [] then None
    else if a == [] then Some(Divergence(IndexPath(path, index), None, Some(b[0])))
    else if b == [] then Some(Divergence(IndexPath(path, index), Some(a[0]), None))
    else
      var found := Walk(a[0], b[0], IndexPath(path, index));
      if found.Some? then found else WalkItems(a[1..], b[1..], index + 1, path)
  }

  function WalkKeys(a: seq<Field>, b: seq<Field>, keys: seq<string>, path: string): Option<Divergence>
    decreases FieldsSize(a), |keys|
  {
    if keys == [] then None
    else
      var found := WalkKey(a, b, keys[0], path);
      if found.Some? then found else WalkKeys(a, b, keys[1..], path)
  }

  function WalkKey(a: seq<Field>, b: seq<Field>, key: string, path: string): Option<Divergence>
    decreases FieldsSize(a), 0
  {
    var left := Lookup(a, key);
    var right := Lookup(b, key);
    if left.None? then Some(Divergence(ChildPath(path, key), None, right))
    else if right.None? then Some(Divergence(ChildPath(path, key), left, None))
    else Walk(left.value, right.value, ChildPath(path, key))
  }

  function FirstDivergence(rules: Rules, expected: Json, actual: Json, path: string): Option<Divergence> {
    Walk(NormalizeJson(rules, expected), NormalizeJson(rules, actual), path)
  }

  // ----- what a report means -----

  datatype Segment = Key(key: string) | Index(index: nat)

  function PathText(segments: seq<Segment>): string {
    if segments == [] then ""
    else (match segments[0]
          case Key(key) => "." + key
          case Index(index) => "[" + Render(index) + "]") + PathText(segments[1..])
  }

  /** The value at a path, if the tree has one there. */
  function At(j: Json, segments: seq<Segment>): Option<Json>
    decreases |segments|
  {
    if segments == [] then Some(j)
    else
      match segments[0]
      case Key(key) =>
        if j.Obj? && Lookup(j.fields, key).Some? then At(Lookup(j.fields, key).value, segments[1..]) else None
      case Index(index) =>
        if j.Arr? && index < |j.items| then At(j.items[index], segments[1..]) else None
  }

  /**
   * The trees part at this path and nowhere earlier: items before the index and children under
   * smaller keys are equal on both sides, at every level of the path.
   */
  ghost predicate FirstDifference(a: Json, b: Json, segments: seq<Segment>)
    decreases |segments|, 0
  {
    if segments == [] then a != b && !(a.Arr? && b.Arr?) && !(a.Obj? && b.Obj?)
    else
      match segments[0]
      case Key(key) =>
        && a.Obj? && b.Obj?
        && (forall k :: LexLess(k, key) ==> Lookup(a.fields, k) == Lookup(b.fields, k))
        && PartAt(Lookup(a.fields, key), Lookup(b.fields, key), segments[1..])
      case Index(i) =>
        && a.Arr? && b.Arr?
        && i <= |a.items| && i <= |b.items| && a.items[..i] == b.items[..i]
        && PartAt(ItemAt(a.items, i), ItemAt(b.items, i), segments[1..])
  }

  function ItemAt(items: seq<Json>, i: nat): Option<Json> {
    if i < |items| then Some(items[i]) else None
  }

  ghost predicate PartAt(a: Option<Json>, b: Option<Json>, rest: seq<Segment>)
    decreases |rest|, 1
  {
    if a.Some? && b.Some? then FirstDifference(a.value, b.value, rest) else rest == [] && a != b
  }

  ghost predicate Reports(a: Json, b: Json, path: string, d: Divergence, segments: seq<Segment>) {
    && d.path == path + PathText(segments)
    && d.expected == At(a, segments)
    && d.actual == At(b, segments)
    && FirstDifference(a, b, segments)
  }

  // ----- canonical trees: what normalisation produces -----

  ghost predicate Canonical(j: Json)
    decreases Size(j)
  {
    match j
    case Arr(items) => ItemsCanonical(items)
    case Obj(fields) => SortedKeys(fields) && FieldsCanonical(fields)
    case _ => true
  }

  ghost predicate ItemsCanonical(items: seq<Json>)
    decreases ItemsSize(items)
  {
    items == [] || (Canonical(items[0]) && ItemsCanonical(items[1..]))
  }

  ghost predicate FieldsCanonical(fields: seq<Field>)
    decreases FieldsSize(fields)
  {
    fields == [] || (Canonical(fields[0].value) && FieldsCanonical(fields[1..]))
  }

  lemma {:induction false} NodeIsCanonical(rules: Rules, j: Json, s: Subst, field: Option<string>)
    requires WellFormed(j)
    ensures Canonical(NormalizeNode(rules, j, s, field).0)
    decreases Size(j)
  {
    match j
    case Arr(items) => ItemsAreCanonical(rules, items, s);
    case Obj(fields) =>
      SortedWellFormed(fields);
      SortFieldsSorts(fields);
      FieldsAreCanonical(rules, SortFields(fields), s);
    case _ =>
  }

  lemma {:induction false} ItemsAreCanonical(rules: Rules, items: seq<Json>, s: Subst)
    requires AllWellFormed(items)
    ensures ItemsCanonical(NormalizeItems(rules, items, s).0)
    decreases ItemsSize(items)
  {
    if items == [] {
    } else {
      NodeIsCanonical(rules, items[0], s, None);
      var next := NormalizeNode(rules, items[0], s, None).1;
      ItemsAreCanonical(rules, items[1..], next);
      assert NormalizeItems(rules, items, s).0[1..] == NormalizeItems(rules, items[1..], next).0;
    }
  }

  lemma {:induction false} FieldsAreCanonical(rules: Rules, fields: seq<Field>, s: Subst)
    requires FieldsWellFormed(fields) && SortedKeys(fields)
    ensures var r := NormalizeFields(rules, fields, s).0;
      && |r| == |fields| && (forall i :: 0 <= i < |r| ==> r[i].key == fields[i].key)
      && SortedKeys(r) && FieldsCanonical(r)
    decreases FieldsSize(fields)
  {
    if fields == [] {
    } else {
      var field := Some(fields[0].key);
      NodeIsCanonical(rules, fields[0].value, s, field);
      TailSorted(fields);
      var next := NormalizeNode(rules, fields[0].value, s, field).1;
      FieldsAreCanonical(rules, fields[1..], next);
      assert NormalizeFields(rules, fields, s).0[1..] == NormalizeFields(rules, fields[1..], next).0;
    }
  }

  // ----- the key list -----

  lemma {:induction false} KeyListHolds(fields: seq<Field>, key: string)
    ensures key in KeyList(fields) <==> key in Keys(fields)
  {
    if fields == [] {
    } else {
      KeyListHolds(fields[1..], key);
      assert fields == [fields[0]] + fields[1..];
    }
  }

  ghost predicate Distinct(keys: seq<string>) {
    forall i, j :: 0 <= i < j < |keys| ==> keys[i] != keys[j]
  }

  ghost predicate Increasing(keys: seq<string>) {
    forall i, j :: 0 <= i < j < |keys| ==> LexLess(keys[i], keys[j])
  }

  lemma {:induction false} DedupeHolds(keys: seq<string>, key: string)
    ensures key in Dedupe(keys) <==> key in keys
  {
    if keys == [] {
    } else {
      DedupeHolds(keys[..|keys| - 1], key);
      assert keys == keys[..|keys| - 1] + [keys[|keys| - 1]];
    }
  }

  lemma {:induction false} DedupeIsDistinct(keys: seq<string>)
    ensures Distinct(Dedupe(keys))
  {
    if keys == [] {
    } else {
      DedupeIsDistinct(keys[..|keys| - 1]);
    }
  }

  lemma {:induction false} InsertKeyHolds(sorted: seq<string>, key: string, k: string)
    ensures k in InsertKey(sorted, key) <==> k in sorted || k == key
  {
    if sorted == [] {
    } else {
      InsertKeyHolds(sorted[1..], key, k);
      assert sorted == [sorted[0]] + sorted[1..];
    }
  }

  lemma {:induction false} SortKeysHolds(keys: seq<string>, k: string)
    ensures k in SortKeys(keys) <==> k in keys
  {
    if keys == [] {
    } else {
      SortKeysHolds(keys[1..], k);
      InsertKeyHolds(SortKeys(keys[1..]), keys[0], k);
      assert keys == [keys[0]] + keys[1..];
    }
  }

  lemma {:induction false} InsertKeyIncreases(sorted: seq<string>, key: string)
    requires Increasing(sorted) && key !in sorted
    ensures Increasing(InsertKey(sorted, key))
  {
    if sorted == [] {
    } else {
      var rest := sorted[1..];
      forall i, j | 0 <= i < j < |rest| ensures LexLess(rest[i], rest[j]) {
        assert rest[i] == sorted[i + 1] && rest[j] == sorted[j + 1];
      }
      if LexLess(key, sorted[0]) {
        forall i | 0 <= i < |sorted| ensures LexLess(key, sorted[i]) {
          if i > 0 {
            LexTransitive(key, sorted[0], sorted[i]);
          }
        }
      } else {
        LexTotal(key, sorted[0]);
        InsertKeyIncreases(rest, key);
        var r := InsertKey(rest, key);
        forall i | 0 <= i < |r| ensures LexLess(sorted[0], r[i]) {
          InsertKeyHolds(rest, key, r[i]);
        }
      }
    }
  }

  lemma {:induction false} SortKeysIncreases(keys: seq<string>)
    requires Distinct(keys)
    ensures Increasing(SortKeys(keys))
  {
    if keys == [] {
    } else {
      var rest := keys[1..];
      forall i, j | 0 <= i < j < |rest| ensures rest[i] != rest[j] {
        assert rest[i] == keys[i + 1] && rest[j] == keys[j + 1];
      }
      SortKeysIncreases(rest);
      SortKeysHolds(rest, keys[0]);
      InsertKeyIncreases(SortKeys(rest), keys[0]);
    }
  }

  /** The walked keys are the keys of either object, in increasing order. */
  lemma AllKeysMeaning(a: seq<Field>, b: seq<Field>)
    ensures Increasing(AllKeys(a, b))
    ensures forall k :: k in AllKeys(a, b) <==> k in Keys(a) || k in Keys(b)
  {
    var listed := KeyList(a) + KeyList(b);
    DedupeIsDistinct(listed);
    SortKeysIncreases(Dedupe(listed));
    forall k ensures k in AllKeys(a, b) <==> k in Keys(a) || k in Keys(b) {
      SortKeysHolds(Dedupe(listed), k);
      DedupeHolds(listed, k);
      KeyListHolds(a, k);
      KeyListHolds(b, k);
    }
  }

  // ----- sorted fields are their lookups -----

  lemma {:induction false} LookupsDetermine(a: seq<Field>, b: seq<Field>)
    requires SortedKeys(a) && SortedKeys(b) && forall k :: Lookup(a, k) == Lookup(b, k)
    ensures a == b
  {
    forall k ensures k in Keys(a) <==> k in Keys(b) {
      assert Lookup(a, k) == Lookup(b, k);
    }
    assert Keys(a) == Keys(b);
    SameKeysSameOrder(a, b);
    SortedIsDistinct(a);
    SortedIsDistinct(b);
    forall i | 0 <= i < |a| ensures a[i] == b[i] {
      LookupAt(a, i);
      LookupAt(b, i);
    }
  }

  lemma {:induction false} LookupCanonical(fields: seq<Field>, key: string)
    requires FieldsCanonical(fields) && key in Keys(fields)
    ensures Canonical(Lookup(fields, key).value)
  {
    if fields[0].key == key {
    } else {
      assert fields == [fields[0]] + fields[1..];
      LookupCanonical(fields[1..], key);
    }
  }

  // ----- the theorem -----

  /** A walk of two canonical trees finds nothing exactly when they are equal, and else reports the first difference. */
  lemma {:induction false} WalkFinds(a: Json, b: Json, path: string) returns (segments: seq<Segment>)
    requires Canonical(a) && Canonical(b)
    ensures Walk(a, b, path).None? <==> a == b
    ensures Walk(a, b, path).Some? ==> Reports(a, b, path, Walk(a, b, path).value, segments)
    decreases Size(a), 0
  {
    segments := [];
    if a != b {
      if a.Arr? && b.Arr? {
        var i, rest := WalkItemsFinds(a.items, b.items, 0, path);
        segments := [Index(i)] + rest;
        ArrayReport(a, b, path, Walk(a, b, path).value, i, rest);
      } else if a.Obj? && b.Obj? {
        ObjectsDiffer(a.fields, b.fields);
        AllKeysMeaning(a.fields, b.fields);
        var key, rest := WalkKeysFinds(a.fields, b.fields, AllKeys(a.fields, b.fields), path);
        segments := [Key(key)] + rest;
        EarlierKeysAgree(a.fields, b.fields, key);
        ObjectReport(a, b, path, Walk(a, b, path).value, key, rest);
      }
    }
  }

  lemma ArrayReport(a: Json, b: Json, path: string, d: Divergence, i: nat, rest: seq<Segment>)
    requires a.Arr? && b.Arr? && ItemReport(a.items, b.items, 0, path, d, i, rest)
    ensures Reports(a, b, path, d, [Index(i)] + rest)
  {
    var segments := [Index(i)] + rest;
    assert segments[1..] == rest;
    assert IndexPath(path, i) + PathText(rest) == path + PathText(segments);
  }

  lemma ObjectReport(a: Json, b: Json, path: string, d: Divergence, key: string, rest: seq<Segment>)
    requires a.Obj? && b.Obj?
    requires forall k :: LexLess(k, key) ==> Lookup(a.fields, k) == Lookup(b.fields, k)
    requires PartReport(Lookup(a.fields, key), Lookup(b.fields, key), ChildPath(path, key), d, rest)
    ensures Reports(a, b, path, d, [Key(key)] + rest)
  {
    KeyText(path, key, rest);
    KeyAt(a, key, rest);
    KeyAt(b, key, rest);
    var segments := [Key(key)] + rest;
    assert segments[1..] == rest;
  }

  lemma KeyText(path: string, key: string, rest: seq<Segment>)
    ensures ChildPath(path, key) + PathText(rest) == path + PathText([Key(key)] + rest)
  {
    assert ([Key(key)] + rest)[1..] == rest;
  }

  lemma KeyAt(j: Json, key: string, rest: seq<Segment>)
    requires j.Obj?
    ensures var child := Lookup(j.fields, key);
      At(j, [Key(key)] + rest) == if child.Some? then At(child.value, rest) else None
  {
    assert ([Key(key)] + rest)[1..] == rest;
  }

  lemma ObjectsDiffer(a: seq<Field>, b: seq<Field>)
    requires SortedKeys(a) && SortedKeys(b) && a != b
    ensures exists k :: k in AllKeys(a, b) && Lookup(a, k) != Lookup(b, k)
  {
    AllKeysMeaning(a, b);
    if forall k :: k in AllKeys(a, b) ==> Lookup(a, k) == Lookup(b, k) {
      forall k ensures Lookup(a, k) == Lookup(b, k) {
        assert k in AllKeys(a, b) || (k !in Keys(a) && k !in Keys(b));
      }
      LookupsDetermine(a, b);
    }
  }

  ghost predicate AgreeBefore(a: seq<Field>, b: seq<Field>, keys: seq<string>, key: string) {
    forall k :: k in keys && LexLess(k, key) ==> Lookup(a, k) == Lookup(b, k)
  }

  lemma EarlierKeysAgree(a: seq<Field>, b: seq<Field>, key: string)
    requires AgreeBefore(a, b, AllKeys(a, b), key)
    ensures forall k :: LexLess(k, key) ==> Lookup(a, k) == Lookup(b, k)
  {
    AllKeysMeaning(a, b);
    forall k | LexLess(k, key) ensures Lookup(a, k) == Lookup(b, k) {
      assert k in AllKeys(a, b) || (k !in Keys(a) && k !in Keys(b));
    }
  }

  ghost predicate ItemReport(a: seq<Json>, b: seq<Json>, index: nat, path: string, d: Divergence,
                             i: nat, rest: seq<Segment>) {
    && i <= |a| && i <= |b| && a[..i] == b[..i]
    && PartReport(ItemAt(a, i), ItemAt(b, i), IndexPath(path, index + i), d, rest)
  }

  ghost predicate PartReport(a: Option<Json>, b: Option<Json>, path: string, d: Divergence, rest: seq<Segment>) {
    && d.path == path + PathText(rest)
    && d.expected == (if a.Some? then At(a.value, rest) else None)
    && d.actual == (if b.Some? then At(b.value, rest) else None)
    && PartAt(a, b, rest)
  }

  lemma ReportBehind(
    a: seq<Json>, b: seq<Json>, index: nat, path: string, d: Divergence, j: nat, rest: seq<Segment>)
    requires a != [] && b != [] && a[0] == b[0] && ItemReport(a[1..], b[1..], index + 1, path, d, j, rest)
    ensures ItemReport(a, b, index, path, d, j + 1, rest)
  {
    assert a[..j + 1] == [a[0]] + a[1..][..j] && b[..j + 1] == [b[0]] + b[1..][..j];
  }

  lemma {:induction false} WalkItemsFinds(a: seq<Json>, b: seq<Json>, index: nat, path: string)
      returns (i: nat, rest: seq<Segment>)
    requires ItemsCanonical(a) && ItemsCanonical(b)
    ensures WalkItems(a, b, index, path).None? <==> a == b
    ensures WalkItems(a, b, index, path).Some? ==>
              ItemReport(a, b, index, path, WalkItems(a, b, index, path).value, i, rest)
    decreases ItemsSize(a), 0
  {
    i, rest := 0, [];
    if a != [] && b != [] {
      rest := WalkFinds(a[0], b[0], IndexPath(path, index));
      if a[0] == b[0] {
        var j;
        j, rest := WalkItemsFinds(a[1..], b[1..], index + 1, path);
        i := j + 1;
        HeadAndTail(a);
        HeadAndTail(b);
        if WalkItems(a[1..], b[1..], index + 1, path).Some? {
          ReportBehind(a, b, index, path, WalkItems(a[1..], b[1..], index + 1, path).value, j, rest);
        }
      }
    }
  }

  lemma {:induction false} WalkKeysFinds(a: seq<Field>, b: seq<Field>, keys: seq<string>, path: string)
      returns (key: string, rest: seq<Segment>)
    requires SortedKeys(a) && SortedKeys(b) && FieldsCanonical(a) && FieldsCanonical(b)
    requires Increasing(keys) && forall k :: k in keys ==> k in Keys(a) || k in Keys(b)
    requires exists k :: k in keys && Lookup(a, k) != Lookup(b, k)
    ensures WalkKeys(a, b, keys, path).Some? && AgreeBefore(a, b, keys, key)
    ensures PartReport(Lookup(a, key), Lookup(b, key), ChildPath(path, key), WalkKeys(a, b, keys, path).value, rest)
    decreases FieldsSize(a), |keys|
  {
    var head := keys[0];
    assert head in keys;
    var found, r := WalkKeyFinds(a, b, head, path);
    if found {
      key, rest := head, r;
      forall k | k in keys ensures !LexLess(k, head) {
        NothingBelowHead(keys, k);
      }
    } else {
      var tail := keys[1..];
      TailOfIncreasing(keys);
      var k :| k in keys && Lookup(a, k) != Lookup(b, k);
      assert keys == [head] + tail;
      assert k in tail;
      key, rest := WalkKeysFinds(a, b, tail, path);
    }
  }

  lemma NothingBelowHead(keys: seq<string>, k: string)
    requires Increasing(keys) && k in keys
    ensures !LexLess(k, keys[0])
  {
    var i :| 0 <= i < |keys| && keys[i] == k;
    LexIrreflexive(k);
    if i > 0 && LexLess(k, keys[0]) {
      LexTransitive(k, keys[0], k);
    }
  }

  lemma TailOfIncreasing(keys: seq<string>)
    requires Increasing(keys) && keys != []
    ensures Increasing(keys[1..]) && forall k :: k in keys[1..] ==> k in keys
  {
    var tail := keys[1..];
    forall i, j | 0 <= i < j < |tail| ensures LexLess(tail[i], tail[j]) {
      assert tail[i] == keys[i + 1] && tail[j] == keys[j + 1];
    }
  }

  lemma {:induction false} WalkKeyFinds(a: seq<Field>, b: seq<Field>, key: string, path: string)
      returns (found: bool, rest: seq<Segment>)
    requires FieldsCanonical(a) && FieldsCanonical(b) && (key in Keys(a) || key in Keys(b))
    ensures found <==> Lookup(a, key) != Lookup(b, key)
    ensures found <==> WalkKey(a, b, key, path).Some?
    ensures found ==>
              PartReport(Lookup(a, key), Lookup(b, key), ChildPath(path, key), WalkKey(a, b, key, path).value, rest)
    decreases FieldsSize(a), 0
  {
    found, rest := Lookup(a, key) != Lookup(b, key), [];
    if Lookup(a, key).Some? && Lookup(b, key).Some? {
      LookupCanonical(a, key);
      LookupCanonical(b, key);
      rest := WalkFinds(Lookup(a, key).value, Lookup(b, key).value, ChildPath(path, key));
    }
  }

  /** There is only one first difference, so a report leaves no choice. */
  lemma {:induction false} FirstDifferenceIsUnique(a: Json, b: Json, p: seq<Segment>, q: seq<Segment>)
    requires FirstDifference(a, b, p) && FirstDifference(a, b, q)
    ensures p == q
    decreases |p|
  {
    if p != [] && q != [] {
      match (p[0], q[0]) {
        case (Key(k), Key(l)) =>
          LexTotal(k, l);
          PartsDiffer(Lookup(a.fields, k), Lookup(b.fields, k), p[1..]);
          PartsDiffer(Lookup(a.fields, l), Lookup(b.fields, l), q[1..]);
          assert k == l;
          if Lookup(a.fields, k).Some? && Lookup(b.fields, k).Some? {
            FirstDifferenceIsUnique(Lookup(a.fields, k).value, Lookup(b.fields, k).value, p[1..], q[1..]);
          }
        case (Index(i), Index(j)) =>
          NotBefore(a.items, b.items, i, j, p[1..]);
          NotBefore(a.items, b.items, j, i, q[1..]);
          if i < |a.items| && i < |b.items| {
            FirstDifferenceIsUnique(a.items[i], b.items[i], p[1..], q[1..]);
          }
        case _ =>
      }
      assert p == [p[0]] + p[1..] && q == [q[0]] + q[1..];
    }
  }

  lemma ItemsBeforeAgree(a: seq<Json>, b: seq<Json>, i: nat, j: nat)
    requires i < j <= |a| && j <= |b| && a[..j] == b[..j]
    ensures ItemAt(a, i) == ItemAt(b, i)
  {
    assert a[i] == a[..j][i] && b[i] == b[..j][i];
  }

  lemma NotBefore(a: seq<Json>, b: seq<Json>, i: nat, j: nat, rest: seq<Segment>)
    requires i <= |a| && i <= |b| && j <= |a| && j <= |b| && a[..j] == b[..j]
    requires PartAt(ItemAt(a, i), ItemAt(b, i), rest)
    ensures j <= i
  {
    PartsDiffer(ItemAt(a, i), ItemAt(b, i), rest);
    if i < j {
      ItemsBeforeAgree(a, b, i, j);
    }
  }

  lemma {:induction false} PartsDiffer(a: Option<Json>, b: Option<Json>, rest: seq<Segment>)
    requires PartAt(a, b, rest)
    ensures a != b
    decreases |rest|, 1
  {
    if a.Some? && b.Some? {
      DifferenceMeansUnequal(a.value, b.value, rest);
    }
  }

  lemma {:induction false} DifferenceMeansUnequal(a: Json, b: Json, segments: seq<Segment>)
    requires FirstDifference(a, b, segments)
    ensures a != b
    decreases |segments|, 0
  {
    if segments == [] {
    } else {
      match segments[0]
      case Key(key) => PartsDiffer(Lookup(a.fields, key), Lookup(b.fields, key), segments[1..]);
      case Index(i) => PartsDiffer(ItemAt(a.items, i), ItemAt(b.items, i), segments[1..]);
    }
  }

  /** Two values show no divergence exactly when they agree up to key order, timestamps and one injective renaming. */
  lemma GradingIsAgreement(rules: Rules, expected: Json, actual: Json, path: string) returns (segments: seq<Segment>)
    requires WellFormed(expected) && WellFormed(actual)
    requires Clear(rules, expected, EMPTY_SUBST, None) && Clear(rules, actual, EMPTY_SUBST, None)
    ensures FirstDivergence(rules, expected, actual, path).None? <==> SameUpToRenaming(rules, expected, actual)
    ensures var found := FirstDivergence(rules, expected, actual, path);
      found.Some? ==>
        Reports(NormalizeJson(rules, expected), NormalizeJson(rules, actual), path, found.value, segments)
  {
    NodeIsCanonical(rules, expected, EMPTY_SUBST, None);
    NodeIsCanonical(rules, actual, EMPTY_SUBST, None);
    segments := WalkFinds(NormalizeJson(rules, expected), NormalizeJson(rules, actual), path);
    EqualNormalForms(rules, expected, actual);
  }
}
