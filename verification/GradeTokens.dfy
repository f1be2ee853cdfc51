/**
 * Literal tokens in graded trees (packages/harness/src/grade.ts): exactly when normal forms can be
 * trusted, and exactly which trees normalisation leaves alone.
 */
module GradeTokens {
  import opened Wrappers
  import opened Json
  import opened Grade
  import opened GradeWalk

  // ----- numbering a supply of ids -----

  ghost predicate AllDifferent(ids: nat -> string) {
    forall m, n :: ids(m) == ids(n) ==> m == n
  }

  /** The walk's state after meeting `ids(1)`, `ids(2)`, ... up to `next - 1`. */
  function Numbered(ids: nat -> string, next: nat): Subst
    requires next >= 1
  {
    if next == 1 then EMPTY_SUBST
    else Subst(next, Numbered(ids, next - 1).seen[ids(next - 1) := next - 1])
  }

  lemma {:induction false} NumberedHolds(ids: nat -> string, next: nat, n: nat)
    requires AllDifferent(ids) && next >= 1 && n >= 1
    ensures Numbered(ids, next).next == next
    ensures ids(n) in Numbered(ids, next).seen <==> n < next
    ensures n < next ==> Numbered(ids, next).seen[ids(n)] == n
  {
    if next == 1 {
    } else {
      NumberedHolds(ids, next - 1, n);
    }
  }

  /** Meeting one more of them numbers it, meeting an old one changes nothing. */
  lemma InternNumbered(ids: nat -> string, next: nat, n: nat)
    requires AllDifferent(ids) && 1 <= n <= next
    ensures InternId(ids(n), Numbered(ids, next)) == (IdToken(n), Numbered(ids, Advance(n, next)))
  {
    NumberedHolds(ids, next, n);
  }

  function Advance(n: nat, next: nat): nat {
    if n == next then next + 1 else next
  }

  /** The number of a token that a walk can produce next. */
  ghost function TokenNumber(text: string, next: nat): (r: Option<nat>)
    ensures r.Some? ==> 1 <= r.value <= next && text == IdToken(r.value)
    ensures r == None ==> forall n: nat :: 1 <= n <= next ==> text != IdToken(n)
  {
    if n: nat :| 1 <= n <= next && text == IdToken(n) then Some(n) else None
  }

  // ----- a tree for every normal form -----

  /** A timestamp, and as many ids as one likes. */
  datatype Supply = Supply(time: string, ids: nat -> string)

  ghost predicate SupplyOk(rules: Rules, supply: Supply) {
    && rules.isIsoDateTime(supply.time)
    && AllDifferent(supply.ids)
    && forall n :: rules.looksGenerated(supply.ids(n)) && !rules.isIsoDateTime(supply.ids(n))
  }

  /** Tokens turned back into a timestamp and ids, in walk order. */
  ghost function Realise(supply: Supply, j: Json, next: nat): (Json, nat)
    decreases Size(j)
  {
    match j
    case Str(text) =>
      if text == TIMESTAMP_TOKEN then (Str(supply.time), next)
      else
        (match TokenNumber(text, next)
         case None => (j, next)
         case Some(n) => (Str(supply.ids(n)), Advance(n, next)))
    case Arr(items) =>
      var (realised, last) := RealiseItems(supply, items, next);
      (Arr(realised), last)
    case Obj(fields) =>
      var (realised, last) := RealiseFields(supply, fields, next);
      (Obj(realised), last)
    case _ => (j, next)
  }

  ghost function RealiseItems(supply: Supply, items: seq<Json>, next: nat): (seq<Json>, nat)
    decreases ItemsSize(items)
  {
    if items == [] then ([], next)
    else
      var (first, middle) := Realise(supply, items[0], next);
      var (rest, last) := RealiseItems(supply, items[1..], middle);
      ([first] + rest, last)
  }

  ghost function RealiseFields(supply: Supply, fields: seq<Field>, next: nat): (seq<Field>, nat)
    decreases FieldsSize(fields)
  {
    if fields == [] then ([], next)
    else
      var (first, middle) := Realise(supply, fields[0].value, next);
      var (rest, last) := RealiseFields(supply, fields[1..], middle);
      ([Field(fields[0].key, first)] + rest, last)
  }

  /** `b` is the realisation of a normal form, and walks back to it. */
  ghost predicate WalksBack(rules: Rules, supply: Supply, normal: Json, next: nat, field: Option<string>) {
    && next >= 1
    && var (b, last) := Realise(supply, normal, next);
    && last >= next
    && NormalizeNode(rules, b, Numbered(supply.ids, next), field) == (normal, Numbered(supply.ids, last))
    && WellFormed(b) && Clear(rules, b, Numbered(supply.ids, next), field)
  }

  ghost predicate ItemsWalkBack(rules: Rules, supply: Supply, normal: seq<Json>, next: nat) {
    && next >= 1
    && var (b, last) := RealiseItems(supply, normal, next);
    && last >= next
    && NormalizeItems(rules, b, Numbered(supply.ids, next)) == (normal, Numbered(supply.ids, last))
    && AllWellFormed(b) && ItemsClear(rules, b, Numbered(supply.ids, next))
  }

  ghost predicate FieldsWalkBack(rules: Rules, supply: Supply, normal: seq<Field>, next: nat) {
    && next >= 1
    && var (b, last) := RealiseFields(supply, normal, next);
    && last >= next
    && NormalizeFields(rules, b, Numbered(supply.ids, next)) == (normal, Numbered(supply.ids, last))
    && FieldsWellFormed(b) && FieldsClear(rules, b, Numbered(supply.ids, next))
    && |b| == |normal| && forall i :: 0 <= i < |b| ==> b[i].key == normal[i].key
  }

  /** The state after a walk is a proper one, and at most as far as the realised walk. */
  ghost predicate Follows(s: Subst, last: nat) {
    SubstOk(s) && s.next <= last
  }

  /** Under a field that is not a timestamp field, an id of the supply walks to its token. */
  lemma IdWalksBack(rules: Rules, supply: Supply, n: nat, next: nat, field: Option<string>)
    requires SupplyOk(rules, supply) && 1 <= n <= next && !(field.Some? && IsTimestampField(field.value))
    ensures WalksBack(rules, supply, Str(IdToken(n)), next, field)
    ensures Realise(supply, Str(IdToken(n)), next) == (Str(supply.ids(n)), Advance(n, next))
    ensures IsId(rules, Str(supply.ids(n)), field)
  {
    TokensDiffer(n, n);
    TokensDiffer(TokenNumber(IdToken(n), next).value, n);
    InternNumbered(supply.ids, next, n);
    NumberedHolds(supply.ids, next, n);
  }

  lemma TimeWalksBack(rules: Rules, supply: Supply, next: nat, field: Option<string>)
    requires SupplyOk(rules, supply) && next >= 1
    ensures WalksBack(rules, supply, Str(TIMESTAMP_TOKEN), next, field)
    ensures IsTimestamp(rules, Realise(supply, Str(TIMESTAMP_TOKEN), next).0, field)
  {
  }

  lemma PlainWalksBack(rules: Rules, supply: Supply, a: Json, next: nat, field: Option<string>)
    requires SupplyOk(rules, supply) && next >= 1 && KindOf(rules, a, field) == Plain
    ensures WalksBack(rules, supply, a, next, field)
    ensures a.Str? && IsReachableToken(a.text, next) ==> KindOf(rules, Realise(supply, a, next).0, field) != Plain
  {
    if a.Str? {
      if a.text == TIMESTAMP_TOKEN {
        TimeWalksBack(rules, supply, next, field);
      } else if TokenNumber(a.text, next).Some? {
        IdWalksBack(rules, supply, TokenNumber(a.text, next).value, next, field);
      } else {
        NumberedHolds(supply.ids, next, 1);
      }
    }
  }

  lemma InternFollows(x: string, s: Subst, next: nat)
    requires Follows(s, next)
    ensures exists n: nat :: 1 <= n <= next &&
              InternId(x, s).0 == IdToken(n) && Follows(InternId(x, s).1, Advance(n, next))
  {
    var n := if x in s.seen then s.seen[x] else s.next;
    assert InternId(x, s).0 == IdToken(n);
    assert SubstOk(InternId(x, s).1);
  }

  lemma {:induction false} SortOfSorted(fields: seq<Field>)
    requires SortedKeys(fields)
    ensures SortFields(fields) == fields
  {
    if fields == [] {
    } else {
      TailSorted(fields);
      SortOfSorted(fields[1..]);
      assert fields[1..] != [] ==> fields[1] in fields[1..];
      assert fields == [fields[0]] + fields[1..];
    }
  }

  lemma {:induction false} NodeWalksBack(
    rules: Rules, supply: Supply, a: Json, s: Subst, next: nat, field: Option<string>)
    requires SupplyOk(rules, supply) && WellFormed(a) && Follows(s, next)
    ensures var (normal, after) := NormalizeNode(rules, a, s, field);
      WalksBack(rules, supply, normal, next, field) && Follows(after, Realise(supply, normal, next).1)
    decreases Size(a)
  {
    match KindOf(rules, a, field)
    case Time => TimeWalksBack(rules, supply, next, field);
    case Plain => PlainWalksBack(rules, supply, a, next, field);
    case Id =>
      InternFollows(a.text, s, next);
      var n: nat :| && 1 <= n <= next && InternId(a.text, s).0 == IdToken(n)
                    && Follows(InternId(a.text, s).1, Advance(n, next));
      IdWalksBack(rules, supply, n, next, field);
    case Array => ItemsGoBack(rules, supply, a.items, s, next);
    case Object =>
      SortedWellFormed(a.fields);
      SortFieldsSorts(a.fields);
      FieldsGoBack(rules, supply, SortFields(a.fields), s, next);
      ObjectWalksBack(rules, supply, SortFields(a.fields), s, next, field);
  }

  /** Sorted fields stay sorted, so walking the object is walking its fields. */
  lemma ObjectWalksBack(rules: Rules, supply: Supply, fields: seq<Field>, s: Subst, next: nat, field: Option<string>)
    requires SortedKeys(fields) && FieldsWellFormed(fields)
    requires FieldsWalkBack(rules, supply, NormalizeFields(rules, fields, s).0, next)
    ensures WalksBack(rules, supply, Obj(NormalizeFields(rules, fields, s).0), next, field)
  {
    var normal := NormalizeFields(rules, fields, s).0;
    var b := RealiseFields(supply, normal, next).0;
    FieldsAreCanonical(rules, fields, s);
    assert SortedKeys(b);
    SortOfSorted(b);
    SortedIsDistinct(b);
  }

  lemma {:induction false} ItemsGoBack(rules: Rules, supply: Supply, a: seq<Json>, s: Subst, next: nat)
    requires SupplyOk(rules, supply) && AllWellFormed(a) && Follows(s, next)
    ensures var (normal, after) := NormalizeItems(rules, a, s);
      ItemsWalkBack(rules, supply, normal, next) && Follows(after, RealiseItems(supply, normal, next).1)
    decreases ItemsSize(a)
  {
    if a == [] {
    } else {
      var (first, middle) := NormalizeNode(rules, a[0], s, None);
      NodeWalksBack(rules, supply, a[0], s, next, None);
      ItemsGoBack(rules, supply, a[1..], middle, Realise(supply, first, next).1);
      OneMoreItem(rules, supply, first, NormalizeItems(rules, a[1..], middle).0, next);
    }
  }

  lemma OneMoreItem(rules: Rules, supply: Supply, first: Json, rest: seq<Json>, next: nat)
    requires WalksBack(rules, supply, first, next, None)
    requires ItemsWalkBack(rules, supply, rest, Realise(supply, first, next).1)
    ensures ItemsWalkBack(rules, supply, [first] + rest, next)
    ensures RealiseItems(supply, [first] + rest, next).1 == RealiseItems(supply, rest, Realise(supply, first, next).1).1
  {
    var (b, middle) := Realise(supply, first, next);
    assert ([first] + rest)[1..] == rest;
    assert ([b] + RealiseItems(supply, rest, middle).0)[1..] == RealiseItems(supply, rest, middle).0;
  }

  lemma {:induction false} FieldsGoBack(rules: Rules, supply: Supply, a: seq<Field>, s: Subst, next: nat)
    requires SupplyOk(rules, supply) && FieldsWellFormed(a) && Follows(s, next)
    ensures var (normal, after) := NormalizeFields(rules, a, s);
      FieldsWalkBack(rules, supply, normal, next) && Follows(after, RealiseFields(supply, normal, next).1)
    decreases FieldsSize(a)
  {
    if a == [] {
    } else {
      var field := Some(a[0].key);
      var (first, middle) := NormalizeNode(rules, a[0].value, s, field);
      NodeWalksBack(rules, supply, a[0].value, s, next, field);
      FieldsGoBack(rules, supply, a[1..], middle, Realise(supply, first, next).1);
      OneMoreField(rules, supply, a[0].key, first, NormalizeFields(rules, a[1..], middle).0, next);
    }
  }

  lemma OneMoreField(rules: Rules, supply: Supply, key: string, first: Json, rest: seq<Field>, next: nat)
    requires WalksBack(rules, supply, first, next, Some(key))
    requires FieldsWalkBack(rules, supply, rest, Realise(supply, first, next).1)
    ensures FieldsWalkBack(rules, supply, [Field(key, first)] + rest, next)
    ensures RealiseFields(supply, [Field(key, first)] + rest, next).1
         == RealiseFields(supply, rest, Realise(supply, first, next).1).1
  {
    var (b, middle) := Realise(supply, first, next);
    var more := RealiseFields(supply, rest, middle).0;
    assert ([Field(key, first)] + rest)[1..] == rest;
    assert ([Field(key, b)] + more)[1..] == more;
  }

  // ----- the realisation agrees with the tree only if the tree is clear -----

  lemma {:induction false} AgreeingIsClear(rules: Rules, supply: Supply, a: Json, s: Subst, next: nat,
                                           field: Option<string>, renaming: map<string, string>)
    requires SupplyOk(rules, supply) && WellFormed(a) && Follows(s, next)
    requires Agree(rules, a, Realise(supply, NormalizeNode(rules, a, s, field).0, next).0, field, renaming)
    ensures Clear(rules, a, s, field)
    decreases Size(a)
  {
    match KindOf(rules, a, field)
    case Time =>
    case Id =>
    case Plain => PlainWalksBack(rules, supply, a, next, field);
    case Array => ItemsAgreeClear(rules, supply, a.items, s, next, renaming);
    case Object =>
      var sorted := SortFields(a.fields);
      var normal := NormalizeFields(rules, sorted, s).0;
      SortedWellFormed(a.fields);
      SortFieldsSorts(a.fields);
      FieldsGoBack(rules, supply, sorted, s, next);
      FieldsAreCanonical(rules, sorted, s);
      var b := RealiseFields(supply, normal, next).0;
      assert SortedKeys(b);
      SortOfSorted(b);
      SortedIsDistinct(b);
      AgreeingObjects(rules, a.fields, b, renaming);
      FieldsAgreeClear(rules, supply, sorted, s, next, renaming);
  }

  lemma {:induction false} ItemsAgreeClear(rules: Rules, supply: Supply, a: seq<Json>, s: Subst, next: nat,
                                           renaming: map<string, string>)
    requires SupplyOk(rules, supply) && AllWellFormed(a) && Follows(s, next)
    requires AgreeItems(rules, a, RealiseItems(supply, NormalizeItems(rules, a, s).0, next).0, renaming)
    ensures ItemsClear(rules, a, s)
    decreases ItemsSize(a)
  {
    if a == [] {
    } else {
      var (first, middle) := NormalizeNode(rules, a[0], s, None);
      var rest := NormalizeItems(rules, a[1..], middle).0;
      assert ([first] + rest)[1..] == rest;
      var (b, last) := Realise(supply, first, next);
      assert ([b] + RealiseItems(supply, rest, last).0)[1..] == RealiseItems(supply, rest, last).0;
      NodeWalksBack(rules, supply, a[0], s, next, None);
      AgreeingIsClear(rules, supply, a[0], s, next, None, renaming);
      ItemsAgreeClear(rules, supply, a[1..], middle, last, renaming);
    }
  }

  lemma {:induction false} FieldsAgreeClear(rules: Rules, supply: Supply, a: seq<Field>, s: Subst, next: nat,
                                            renaming: map<string, string>)
    requires SupplyOk(rules, supply) && FieldsWellFormed(a) && Follows(s, next)
    requires AgreeFields(rules, a, RealiseFields(supply, NormalizeFields(rules, a, s).0, next).0, renaming)
    ensures FieldsClear(rules, a, s)
    decreases FieldsSize(a)
  {
    if a == [] {
    } else {
      var field := Some(a[0].key);
      var (first, middle) := NormalizeNode(rules, a[0].value, s, field);
      var rest := NormalizeFields(rules, a[1..], middle).0;
      assert ([Field(a[0].key, first)] + rest)[1..] == rest;
      var (b, last) := Realise(supply, first, next);
      var more := RealiseFields(supply, rest, last).0;
      assert ([Field(a[0].key, b)] + more)[1..] == more;
      NodeWalksBack(rules, supply, a[0].value, s, next, field);
      AgreeingIsClear(rules, supply, a[0].value, s, next, field, renaming);
      FieldsAgreeClear(rules, supply, a[1..], middle, last, renaming);
    }
  }

  // ----- exactly when normal forms can be trusted -----

  ghost predicate IsClear(rules: Rules, j: Json) {
    Clear(rules, j, EMPTY_SUBST, None)
  }

  /** Among the clear trees, `a` normalises like those it agrees with and no others. */
  ghost predicate Trusted(rules: Rules, a: Json) {
    forall b :: WellFormed(b) && IsClear(rules, b) ==>
      (NormalizeJson(rules, a) == NormalizeJson(rules, b) <==> SameUpToRenaming(rules, a, b))
  }

  /** A tree can be trusted exactly when its walk meets no plain string that is a token it could produce there. */
  lemma TrustedMeansClear(rules: Rules, supply: Supply, a: Json)
    requires SupplyOk(rules, supply) && WellFormed(a)
    ensures Trusted(rules, a) <==> IsClear(rules, a)
  {
    if IsClear(rules, a) {
      forall b | WellFormed(b) && IsClear(rules, b)
        ensures NormalizeJson(rules, a) == NormalizeJson(rules, b) <==> SameUpToRenaming(rules, a, b)
      {
        EqualNormalForms(rules, a, b);
      }
    }
    if Trusted(rules, a) {
      NodeWalksBack(rules, supply, a, EMPTY_SUBST, 1, None);
      var b := Realise(supply, NormalizeJson(rules, a), 1).0;
      assert WellFormed(b) && IsClear(rules, b) && NormalizeJson(rules, b) == NormalizeJson(rules, a);
      var renaming :| Grade.Injective(renaming) && Agree(rules, a, b, None, renaming);
      AgreeingIsClear(rules, supply, a, EMPTY_SUBST, 1, None, renaming);
    }
  }

  /** A literal token in the text collides with what a timestamp becomes. */
  lemma LiteralTokenCollides(rules: Rules, time: string)
    requires rules.isIsoDateTime(time) && !rules.isIsoDateTime(TIMESTAMP_TOKEN)
    requires !rules.looksGenerated(TIMESTAMP_TOKEN)
    ensures NormalizeJson(rules, Str(TIMESTAMP_TOKEN)) == NormalizeJson(rules, Str(time))
    ensures !SameUpToRenaming(rules, Str(TIMESTAMP_TOKEN), Str(time))
  {
    assert !IsTimestamp(rules, Str(TIMESTAMP_TOKEN), None) && IsTimestamp(rules, Str(time), None);
  }

  // ----- exactly which trees normalisation leaves alone -----

  /**
   * The tokens met so far after a tree that normalisation leaves alone, or `None` if it does not: every
   * timestamp must be the timestamp token, and every string read as an id a token numbered at most one
   * above the highest met before.
   */
  ghost function FixedFrom(rules: Rules, j: Json, next: nat, field: Option<string>): Option<nat>
    decreases Size(j)
  {
    match KindOf(rules, j, field)
    case Time => if j == Str(TIMESTAMP_TOKEN) then Some(next) else None
    case Id =>
      (match TokenNumber(j.text, next)
       case None => None
       case Some(n) => Some(Advance(n, next)))
    case Plain => Some(next)
    case Array => ItemsFixedFrom(rules, j.items, next)
    case Object => FieldsFixedFrom(rules, j.fields, next)
  }

  ghost function ItemsFixedFrom(rules: Rules, items: seq<Json>, next: nat): Option<nat>
    decreases ItemsSize(items)
  {
    if items == [] then Some(next)
    else
      var middle :- FixedFrom(rules, items[0], next, None);
      ItemsFixedFrom(rules, items[1..], middle)
  }

  ghost function FieldsFixedFrom(rules: Rules, fields: seq<Field>, next: nat): Option<nat>
    decreases FieldsSize(fields)
  {
    if fields == [] then Some(next)
    else
      var middle :- FixedFrom(rules, fields[0].value, next, Some(fields[0].key));
      FieldsFixedFrom(rules, fields[1..], middle)
  }

  lemma TokensAllDiffer()
    ensures AllDifferent(IdToken)
  {
    forall m, n ensures IdToken(m) == IdToken(n) ==> m == n {
      TokensDiffer(m, n);
    }
  }

  /** A string keeps its token exactly when it is that token. */
  lemma InternKeepsToken(text: string, next: nat)
    requires next >= 1
    ensures var number := TokenNumber(text, next);
      && (InternId(text, Numbered(IdToken, next)).0 == text <==> number.Some?)
      && (number.Some? ==> InternId(text, Numbered(IdToken, next)).1 == Numbered(IdToken, Advance(number.value, next)))
  {
    TokensAllDiffer();
    NumberedHolds(IdToken, next, 1);
    var number := TokenNumber(text, next);
    if number.Some? {
      InternNumbered(IdToken, next, number.value);
    } else {
      SeenIsToken(next, text);
    }
  }

  /** The walk has seen nothing but tokens. */
  lemma {:induction false} SeenIsToken(next: nat, text: string)
    requires next >= 1
    ensures Numbered(IdToken, next).next == next
    ensures text in Numbered(IdToken, next).seen ==> exists n: nat :: 1 <= n < next && text == IdToken(n)
  {
    if next == 1 {
    } else {
      SeenIsToken(next - 1, text);
    }
  }

  /** What one part of the walk does: it leaves the part alone exactly when the part is fixed. */
  ghost predicate KeptWhenFixed(same: bool, after: Subst, fixed: Option<nat>) {
    && (same <==> fixed.Some?)
    && (fixed.Some? ==> fixed.value >= 1 && after == Numbered(IdToken, fixed.value))
  }

  lemma {:induction false} NodeFixed(rules: Rules, j: Json, next: nat, field: Option<string>)
    requires next >= 1 && Canonical(j)
    ensures var (normal, after) := NormalizeNode(rules, j, Numbered(IdToken, next), field);
      KeptWhenFixed(normal == j, after, FixedFrom(rules, j, next, field))
    decreases Size(j)
  {
    match KindOf(rules, j, field)
    case Time =>
    case Plain =>
    case Id => InternKeepsToken(j.text, next);
    case Array => ItemsFixed(rules, j.items, next);
    case Object =>
      SortOfSorted(j.fields);
      FieldsFixed(rules, j.fields, next);
  }

  lemma {:induction false} ItemsFixed(rules: Rules, items: seq<Json>, next: nat)
    requires next >= 1 && ItemsCanonical(items)
    ensures var (normal, after) := NormalizeItems(rules, items, Numbered(IdToken, next));
      KeptWhenFixed(normal == items, after, ItemsFixedFrom(rules, items, next))
    decreases ItemsSize(items)
  {
    if items == [] {
    } else {
      var (first, middle) := NormalizeNode(rules, items[0], Numbered(IdToken, next), None);
      NodeFixed(rules, items[0], next, None);
      var rest := NormalizeItems(rules, items[1..], middle).0;
      HeadAndTailEqual(first, rest, items);
      if FixedFrom(rules, items[0], next, None).Some? {
        ItemsFixed(rules, items[1..], FixedFrom(rules, items[0], next, None).value);
      }
    }
  }

  lemma {:induction false} FieldsFixed(rules: Rules, fields: seq<Field>, next: nat)
    requires next >= 1 && FieldsCanonical(fields)
    ensures var (normal, after) := NormalizeFields(rules, fields, Numbered(IdToken, next));
      KeptWhenFixed(normal == fields, after, FieldsFixedFrom(rules, fields, next))
    decreases FieldsSize(fields)
  {
    if fields == [] {
    } else {
      var field := Some(fields[0].key);
      var (first, middle) := NormalizeNode(rules, fields[0].value, Numbered(IdToken, next), field);
      NodeFixed(rules, fields[0].value, next, field);
      var rest := NormalizeFields(rules, fields[1..], middle).0;
      HeadAndTailEqual(Field(fields[0].key, first), rest, fields);
      if FixedFrom(rules, fields[0].value, next, field).Some? {
        FieldsFixed(rules, fields[1..], FixedFrom(rules, fields[0].value, next, field).value);
      }
    }
  }

  lemma HeadAndTailEqual<T>(first: T, rest: seq<T>, xs: seq<T>)
    requires xs != []
    ensures [first] + rest == xs <==> first == xs[0] && rest == xs[1..]
  {
    assert ([first] + rest)[0] == first && ([first] + rest)[1..] == rest;
    assert xs == [xs[0]] + xs[1..];
  }

  /** A canonical tree is a fixed point of normalisation exactly when its tokens are in step. */
  lemma FixedPoints(rules: Rules, j: Json)
    requires Canonical(j)
    ensures NormalizeJson(rules, j) == j <==> FixedFrom(rules, j, 1, None).Some?
  {
    NodeFixed(rules, j, 1, None);
  }

  /** So normalising twice changes nothing exactly for trees whose normal form has its tokens in step. */
  lemma SecondPassChangesNothing(rules: Rules, a: Json)
    requires WellFormed(a)
    ensures NormalizeJson(rules, NormalizeJson(rules, a)) == NormalizeJson(rules, a)
       <==> FixedFrom(rules, NormalizeJson(rules, a), 1, None).Some?
  {
    NodeIsCanonical(rules, a, EMPTY_SUBST, None);
    FixedPoints(rules, NormalizeJson(rules, a));
  }

  /** Normalising twice is not normalising once: two different ids can end up with one token. */
  lemma SecondPassMergesIds(rules: Rules, x: string, y: string)
    requires x != y && rules.looksGenerated(x) && rules.looksGenerated(y)
    requires !rules.isIsoDateTime(x) && !rules.isIsoDateTime(y)
    requires forall n: nat :: !rules.looksGenerated(IdToken(n)) && !rules.isIsoDateTime(IdToken(n))
    requires forall n: nat :: !rules.isBlank(IdToken(n))
    ensures var once := NormalizeJson(rules, Arr([Str(x), Obj([Field("uuid", Str(y))])]));
      && once == Arr([Str(IdToken(1)), Obj([Field("uuid", Str(IdToken(2)))])])
      && NormalizeJson(rules, once) == Arr([Str(IdToken(1)), Obj([Field("uuid", Str(IdToken(1)))])])
  {
    FirstPass(rules, x, y);
    SecondPass(rules);
  }

  lemma SortOne(f: Field)
    ensures SortFields([f]) == [f]
  {
    assert [f][1..] == [];
  }

  lemma OneField(rules: Rules, key: string, value: Json, s: Subst)
    ensures var (normal, after) := NormalizeNode(rules, value, s, Some(key));
      NormalizeNode(rules, Obj([Field(key, value)]), s, None) == (Obj([Field(key, normal)]), after)
  {
    var f := Field(key, value);
    SortOne(f);
    assert [f][1..] == [];
    var (normal, after) := NormalizeNode(rules, value, s, Some(key));
    assert NormalizeFields(rules, [f][1..], after) == ([], after);
    assert [Field(key, normal)] + [] == [Field(key, normal)];
  }

  lemma TwoItems(rules: Rules, a: Json, b: Json, s: Subst)
    ensures var (first, next) := NormalizeNode(rules, a, s, None);
      var (second, last) := NormalizeNode(rules, b, next, None);
      NormalizeNode(rules, Arr([a, b]), s, None) == (Arr([first, second]), last)
  {
    var (first, next) := NormalizeNode(rules, a, s, None);
    var (second, last) := NormalizeNode(rules, b, next, None);
    assert [a, b][1..] == [b] && [b][1..] == [];
    assert NormalizeItems(rules, [b], next) == ([second] + [], last);
    assert [second] + [] == [second] && [first] + [second] == [first, second];
  }

  lemma FirstPass(rules: Rules, x: string, y: string)
    requires x != y && rules.looksGenerated(x) && rules.looksGenerated(y)
    requires !rules.isIsoDateTime(x) && !rules.isIsoDateTime(y)
    ensures NormalizeJson(rules, Arr([Str(x), Obj([Field("uuid", Str(y))])]))
         == Arr([Str(IdToken(1)), Obj([Field("uuid", Str(IdToken(2)))])])
  {
    var s1 := Subst(2, map[x := 1]);
    assert NormalizeNode(rules, Str(x), EMPTY_SUBST, None) == (Str(IdToken(1)), s1);
    OneField(rules, "uuid", Str(y), s1);
    TwoItems(rules, Str(x), Obj([Field("uuid", Str(y))]), EMPTY_SUBST);
  }

  lemma SecondPass(rules: Rules)
    requires forall n: nat :: !rules.looksGenerated(IdToken(n)) && !rules.isIsoDateTime(IdToken(n))
    requires forall n: nat :: !rules.isBlank(IdToken(n))
    ensures NormalizeJson(rules, Arr([Str(IdToken(1)), Obj([Field("uuid", Str(IdToken(2)))])]))
         == Arr([Str(IdToken(1)), Obj([Field("uuid", Str(IdToken(1)))])])
  {
    assert NormalizeNode(rules, Str(IdToken(1)), EMPTY_SUBST, None) == (Str(IdToken(1)), EMPTY_SUBST);
    OneField(rules, "uuid", Str(IdToken(2)), EMPTY_SUBST);
    TwoItems(rules, Str(IdToken(1)), Obj([Field("uuid", Str(IdToken(2)))]), EMPTY_SUBST);
  }
}
