/** JSON grading by renaming (packages/harness/src/grade.ts): normalizeJson and what its equality means. */
module Grade {
  import opened Wrappers
  import opened Decimal
  import opened Json

  // ----- the code -----

  /** The pattern checks, which stay uninterpreted. */
  datatype Rules = Rules(isIsoDateTime: string -> bool, looksGenerated: string -> bool, isBlank: string -> bool)

  const TIMESTAMP_TOKEN: string := "<timestamp>"

  const TIMESTAMP_FIELDS: set<string> :=
    {"createdAt", "created_at", "recordedAt", "timestamp", "timestampMs", "updatedAt", "updated_at"}

  const GENERATED_ID_FIELDS: set<string> :=
    {"eventId", "permissionId", "sessionId", "session_id", "toolCallId", "uuid"}

  predicate IsTimestampField(field: string) {
    field in TIMESTAMP_FIELDS
  }

  predicate IsGeneratedId(rules: Rules, value: string, field: Option<string>) {
    rules.looksGenerated(value) || (field.Some? && field.value in GENERATED_ID_FIELDS && !rules.isBlank(value))
  }

  /** `seen` holds the number inside each token. */
  datatype Subst = Subst(next: nat, seen: map<string, nat>)

  const EMPTY_SUBST: Subst := Subst(1, map[])

  function IdToken(n: nat): string {
    "<id:" + Render(n) + ">"
  }

  function InternId(value: string, subst: Subst): (string, Subst) {
    if value in subst.seen then (IdToken(subst.seen[value]), subst)
    else (IdToken(subst.next), Subst(subst.next + 1, subst.seen[value := subst.next]))
  }

  function NormalizeNode(rules: Rules, value: Json, subst: Subst, field: Option<string>): (Json, Subst)
    decreases Size(value)
  {
    if field.Some? && IsTimestampField(field.value) && (value.Str? || value.Num?) then (Str(TIMESTAMP_TOKEN), subst)
    else
      match value
      case Str(text) =>
        if rules.isIsoDateTime(text) then (Str(TIMESTAMP_TOKEN), subst)
        else if IsGeneratedId(rules, text, field) then
          var (token, next) := InternId(text, subst);
          (Str(token), next)
        else (value, subst)
      case Arr(items) =>
        var (normalized, next) := NormalizeItems(rules, items, subst);
        (Arr(normalized), next)
      case Obj(fields) =>
        var (normalized, next) := NormalizeFields(rules, SortFields(fields), subst);
        (Obj(normalized), next)
      case _ => (value, subst)
  }

  function NormalizeItems(rules: Rules, items: seq<Json>, subst: Subst): (seq<Json>, Subst)
    decreases ItemsSize(items)
  {
    if items == [] then ([], subst)
    else
      var (first, next) := NormalizeNode(rules, items[0], subst, None);
      var (rest, last) := NormalizeItems(rules, items[1..], next);
      ([first] + rest, last)
  }

  function NormalizeFields(rules: Rules, fields: seq<Field>, subst: Subst): (seq<Field>, Subst)
    decreases FieldsSize(fields)
  {
    if fields == [] then ([], subst)
    else
      var (first, next) := NormalizeNode(rules, fields[0].value, subst, Some(fields[0].key));
      var (rest, last) := NormalizeFields(rules, fields[1..], next);
      ([Field(fields[0].key, first)] + rest, last)
  }

  function NormalizeJson(rules: Rules, value: Json): Json {
    NormalizeNode(rules, value, EMPTY_SUBST, None).0
  }

  // ----- agreement up to a renaming, defined without tokens or order -----

  predicate IsTimestamp(rules: Rules, value: Json, field: Option<string>) {
    || (field.Some? && IsTimestampField(field.value) && (value.Str? || value.Num?))
    || (value.Str? && rules.isIsoDateTime(value.text))
  }

  predicate IsId(rules: Rules, value: Json, field: Option<string>) {
    !IsTimestamp(rules, value, field) && value.Str? && IsGeneratedId(rules, value.text, field)
  }

  ghost predicate Injective(renaming: map<string, string>) {
    forall x, y :: x in renaming && y in renaming && renaming[x] == renaming[y] ==> x == y
  }

  /**
   * The two values differ only in key order, in timestamps, and in generated ids, which
   * `renaming` maps from the left to the right.
   */
  ghost predicate Agree(rules: Rules, a: Json, b: Json, field: Option<string>, renaming: map<string, string>)
    decreases Size(a)
  {
    if IsTimestamp(rules, a, field) || IsTimestamp(rules, b, field) then
      IsTimestamp(rules, a, field) && IsTimestamp(rules, b, field)
    else if IsId(rules, a, field) || IsId(rules, b, field) then
      IsId(rules, a, field) && IsId(rules, b, field) && a.text in renaming && renaming[a.text] == b.text
    else
      match a
      case Arr(items) => b.Arr? && AgreeItems(rules, items, b.items, renaming)
      case Obj(fields) =>
        && b.Obj?
        && Keys(fields) == Keys(b.fields)
        && forall key :: key in Keys(fields) ==>
             Agree(rules, Lookup(fields, key).value, Lookup(b.fields, key).value, Some(key), renaming)
      case _ => a == b
  }

  ghost predicate AgreeItems(rules: Rules, a: seq<Json>, b: seq<Json>, renaming: map<string, string>)
    decreases ItemsSize(a)
  {
    if a == [] || b == [] then a == [] && b == []
    else Agree(rules, a[0], b[0], None, renaming) && AgreeItems(rules, a[1..], b[1..], renaming)
  }

  /** Agreement of fields listed in the same key order. */
  ghost predicate AgreeFields(rules: Rules, a: seq<Field>, b: seq<Field>, renaming: map<string, string>)
    decreases FieldsSize(a)
  {
    if a == [] || b == [] then a == [] && b == []
    else
      && a[0].key == b[0].key
      && Agree(rules, a[0].value, b[0].value, Some(a[0].key), renaming)
      && AgreeFields(rules, a[1..], b[1..], renaming)
  }

  /** The tokens a walk can produce next, having numbered ids up to `next`. */
  ghost predicate IsReachableToken(text: string, next: nat) {
    text == TIMESTAMP_TOKEN || exists n: nat :: 1 <= n <= next && text == IdToken(n)
  }

  /** The walk from `s` meets no plain string equal to a token it could produce there. */
  ghost predicate Clear(rules: Rules, j: Json, s: Subst, field: Option<string>)
    decreases Size(j)
  {
    match j
    case Str(text) => IsTimestamp(rules, j, field) || IsId(rules, j, field) || !IsReachableToken(text, s.next)
    case Arr(items) => ItemsClear(rules, items, s)
    case Obj(fields) => FieldsClear(rules, SortFields(fields), s)
    case _ => true
  }

  ghost predicate ItemsClear(rules: Rules, items: seq<Json>, s: Subst)
    decreases ItemsSize(items)
  {
    items == [] ||
    (Clear(rules, items[0], s, None) && ItemsClear(rules, items[1..], NormalizeNode(rules, items[0], s, None).1))
  }

  ghost predicate FieldsClear(rules: Rules, fields: seq<Field>, s: Subst)
    decreases FieldsSize(fields)
  {
    fields == [] ||
    (&& Clear(rules, fields[0].value, s, Some(fields[0].key))
     && FieldsClear(rules, fields[1..], NormalizeNode(rules, fields[0].value, s, Some(fields[0].key)).1))
  }

  // ----- agreement on sorted fields -----

  ghost predicate AgreeByKey(rules: Rules, a: seq<Field>, b: seq<Field>, renaming: map<string, string>) {
    && Keys(a) == Keys(b)
    && forall key :: key in Keys(a) ==> Agree(rules, Lookup(a, key).value, Lookup(b, key).value, Some(key), renaming)
  }

  lemma LookupInTail(fields: seq<Field>, key: string)
    requires fields != [] && key != fields[0].key
    ensures Lookup(fields, key) == Lookup(fields[1..], key)
  {
  }

  /** On sorted fields, agreeing key by key and agreeing position by position are the same. */
  lemma {:induction false} SortedAgreement(rules: Rules, a: seq<Field>, b: seq<Field>, renaming: map<string, string>)
    requires SortedKeys(a) && SortedKeys(b)
    ensures AgreeByKey(rules, a, b, renaming) <==> AgreeFields(rules, a, b, renaming)
  {
    if a == [] || b == [] {
      assert a != [] ==> a[0].key in Keys(a);
      assert b != [] ==> b[0].key in Keys(b);
    } else {
      TailSorted(a);
      TailSorted(b);
      SortedAgreement(rules, a[1..], b[1..], renaming);
      assert a[0].key in Keys(a) && b[0].key in Keys(b);
      if AgreeByKey(rules, a, b, renaming) {
        SameKeysSameOrder(a, b);
        assert Agree(rules, Lookup(a, a[0].key).value, Lookup(b, a[0].key).value, Some(a[0].key), renaming);
        TailByKey(rules, a, b, renaming);
      } else if AgreeFields(rules, a, b, renaming) {
        WholeByKey(rules, a, b, renaming);
      }
    }
  }

  lemma TailByKey(rules: Rules, a: seq<Field>, b: seq<Field>, renaming: map<string, string>)
    requires SortedKeys(a) && SortedKeys(b) && a != [] && b != [] && a[0].key == b[0].key
    requires AgreeByKey(rules, a, b, renaming)
    ensures AgreeByKey(rules, a[1..], b[1..], renaming)
  {
    TailSorted(a);
    TailSorted(b);
    forall key ensures key in Keys(a[1..]) <==> key in Keys(b[1..]) {
    }
    forall key | key in Keys(a[1..])
      ensures Agree(rules, Lookup(a[1..], key).value, Lookup(b[1..], key).value, Some(key), renaming)
    {
      LookupInTail(a, key);
      LookupInTail(b, key);
      assert key in Keys(a);
    }
  }

  lemma WholeByKey(rules: Rules, a: seq<Field>, b: seq<Field>, renaming: map<string, string>)
    requires SortedKeys(a) && SortedKeys(b) && a != [] && b != [] && a[0].key == b[0].key
    requires Agree(rules, a[0].value, b[0].value, Some(a[0].key), renaming)
    requires AgreeByKey(rules, a[1..], b[1..], renaming)
    ensures AgreeByKey(rules, a, b, renaming)
  {
    TailSorted(a);
    TailSorted(b);
    forall key | key in Keys(a)
      ensures Agree(rules, Lookup(a, key).value, Lookup(b, key).value, Some(key), renaming)
    {
      if key != a[0].key {
        LookupInTail(a, key);
        LookupInTail(b, key);
      }
    }
  }

  lemma {:induction false} AgreeingObjects(rules: Rules, a: seq<Field>, b: seq<Field>, renaming: map<string, string>)
    requires DistinctKeys(a) && DistinctKeys(b)
    ensures AgreeByKey(rules, a, b, renaming) <==> AgreeFields(rules, SortFields(a), SortFields(b), renaming)
  {
    SortFieldsSorts(a);
    SortFieldsSorts(b);
    SortKeepsKeys(a);
    SortKeepsKeys(b);
    SortedAgreement(rules, SortFields(a), SortFields(b), renaming);
    forall key | key in Keys(a) && key in Keys(b)
      ensures Lookup(SortFields(a), key) == Lookup(a, key) && Lookup(SortFields(b), key) == Lookup(b, key)
    {
      SortKeepsLookup(a, key);
      SortKeepsLookup(b, key);
    }
  }

  // ----- tokens -----

  lemma TokensDiffer(m: nat, n: nat)
    ensures IdToken(m) == IdToken(n) ==> m == n
    ensures IdToken(m) != TIMESTAMP_TOKEN
  {
    assert IdToken(m)[1] == 'i' && TIMESTAMP_TOKEN[1] == 't';
    if IdToken(m) == IdToken(n) {
      assert |Render(m)| == |Render(n)|;
      assert Render(m) == IdToken(m)[4..4 + |Render(m)|];
      assert Render(n) == IdToken(n)[4..4 + |Render(n)|];
      RenderIsInjective(m, n);
    }
  }

  /** Numbers from 1 and below `next`, no number twice. */
  ghost predicate SubstOk(s: Subst) {
    && 1 <= s.next
    && (forall x :: x in s.seen ==> 1 <= s.seen[x] < s.next)
    && (forall x, y :: x in s.seen && y in s.seen && s.seen[x] == s.seen[y] ==> x == y)
  }

  /** The two walks have met the same number of ids, and `renaming` pairs them up. */
  ghost predicate Linked(a: Subst, b: Subst, renaming: map<string, string>) {
    && SubstOk(a) && SubstOk(b) && a.next == b.next
    && Pairs(renaming, a.seen, b.seen)
  }

  ghost predicate Within(small: map<string, string>, large: map<string, string>) {
    forall x :: x in small ==> x in large && large[x] == small[x]
  }

  lemma LinkedIsInjective(a: Subst, b: Subst, renaming: map<string, string>)
    requires Linked(a, b, renaming)
    ensures Injective(renaming)
  {
  }

  // ----- a larger renaming keeps agreement -----

  lemma {:induction false} AgreeWithin(rules: Rules, a: Json, b: Json, field: Option<string>,
                                       small: map<string, string>, large: map<string, string>)
    requires Within(small, large) && Agree(rules, a, b, field, small)
    ensures Agree(rules, a, b, field, large)
    decreases Size(a)
  {
    if !IsTimestamp(rules, a, field) && !IsId(rules, a, field) {
      match a
      case Arr(items) => AgreeItemsWithin(rules, items, b.items, small, large);
      case Obj(fields) =>
        forall key | key in Keys(fields)
          ensures Agree(rules, Lookup(fields, key).value, Lookup(b.fields, key).value, Some(key), large)
        {
          AgreeWithin(rules, Lookup(fields, key).value, Lookup(b.fields, key).value, Some(key), small, large);
        }
      case _ =>
    }
  }

  lemma {:induction false} AgreeItemsWithin(rules: Rules, a: seq<Json>, b: seq<Json>,
                                            small: map<string, string>, large: map<string, string>)
    requires Within(small, large) && AgreeItems(rules, a, b, small)
    ensures AgreeItems(rules, a, b, large)
    decreases ItemsSize(a)
  {
    if a == [] {
    } else {
      AgreeWithin(rules, a[0], b[0], None, small, large);
      AgreeItemsWithin(rules, a[1..], b[1..], small, large);
    }
  }

  // ----- equal normal forms give a renaming -----

  datatype Kind = Time | Id | Plain | Array | Object

  function KindOf(rules: Rules, j: Json, field: Option<string>): Kind {
    if IsTimestamp(rules, j, field) then Time
    else if IsId(rules, j, field) then Id
    else if j.Arr? then Array
    else if j.Obj? then Object
    else Plain
  }

  /** What a value normalises to shows its kind, provided plain text is never a token. */
  lemma NormalShowsKind(rules: Rules, j: Json, s: Subst, field: Option<string>)
    requires SubstOk(s) && Clear(rules, j, s, field)
    ensures match KindOf(rules, j, field)
            case Time => NormalizeNode(rules, j, s, field) == (Str(TIMESTAMP_TOKEN), s)
            case Id =>
              && NormalizeNode(rules, j, s, field) == (Str(InternId(j.text, s).0), InternId(j.text, s).1)
              && IsReachableToken(InternId(j.text, s).0, s.next) && InternId(j.text, s).0 != TIMESTAMP_TOKEN
            case Plain =>
              && NormalizeNode(rules, j, s, field) == (j, s) && !j.Arr? && !j.Obj?
              && (j.Str? ==> !IsReachableToken(j.text, s.next))
            case Array => NormalizeNode(rules, j, s, field).0.Arr?
            case Object => NormalizeNode(rules, j, s, field).0.Obj?
  {
    TokensDiffer(s.next, s.next);
    if KindOf(rules, j, field) == Id && j.text in s.seen {
      TokensDiffer(s.seen[j.text], s.next);
    }
  }

  lemma SameKind(rules: Rules, a: Json, b: Json, field: Option<string>, sa: Subst, sb: Subst)
    requires SubstOk(sa) && SubstOk(sb) && sa.next == sb.next
    requires Clear(rules, a, sa, field) && Clear(rules, b, sb, field)
    requires NormalizeNode(rules, a, sa, field).0 == NormalizeNode(rules, b, sb, field).0
    ensures KindOf(rules, a, field) == KindOf(rules, b, field)
  {
    NormalShowsKind(rules, a, sa, field);
    NormalShowsKind(rules, b, sb, field);
  }

  /** Two ids that get the same token are, or become, partners. */
  lemma InternForward(x: string, y: string, sa: Subst, sb: Subst, renaming: map<string, string>)
      returns (larger: map<string, string>)
    requires Linked(sa, sb, renaming) && InternId(x, sa).0 == InternId(y, sb).0
    ensures Within(renaming, larger) && Linked(InternId(x, sa).1, InternId(y, sb).1, larger)
    ensures x in larger && larger[x] == y
  {
    TokensDiffer(if x in sa.seen then sa.seen[x] else sa.next, if y in sb.seen then sb.seen[y] else sb.next);
    if x in sa.seen {
      larger := renaming;
    } else {
      assert y !in sb.seen;
      NewPartners(x, y, sa, sb, renaming);
      larger := renaming[x := y];
    }
  }

  lemma SubstStaysOk(x: string, s: Subst)
    requires SubstOk(s)
    ensures SubstOk(InternId(x, s).1)
  {
  }

  lemma NewPartners(x: string, y: string, sa: Subst, sb: Subst, renaming: map<string, string>)
    requires Linked(sa, sb, renaming) && x !in sa.seen && y !in sb.seen
    ensures Linked(InternId(x, sa).1, InternId(y, sb).1, renaming[x := y]) && Within(renaming, renaming[x := y])
  {
    SubstStaysOk(x, sa);
    SubstStaysOk(y, sb);
    var a, b := InternId(x, sa).1, InternId(y, sb).1;
    assert a.seen == sa.seen[x := sa.next] && b.seen == sb.seen[y := sb.next];
    PairsStay(x, y, sa.seen, sb.seen, sa.next, renaming);
  }

  ghost predicate Pairs(renaming: map<string, string>, a: map<string, nat>, b: map<string, nat>) {
    && renaming.Keys == a.Keys
    && forall z :: z in renaming ==> renaming[z] in b && b[renaming[z]] == a[z]
  }

  lemma PairsStay(
    x: string, y: string, a: map<string, nat>, b: map<string, nat>, n: nat, renaming: map<string, string>)
    requires Pairs(renaming, a, b) && x !in a && y !in b
    ensures Pairs(renaming[x := y], a[x := n], b[y := n])
  {
  }

  lemma {:induction false} NodeForward(rules: Rules, a: Json, b: Json, field: Option<string>,
                                       sa: Subst, sb: Subst, renaming: map<string, string>)
      returns (larger: map<string, string>)
    requires WellFormed(a) && WellFormed(b) && Clear(rules, a, sa, field) && Clear(rules, b, sb, field)
    requires Linked(sa, sb, renaming)
    requires NormalizeNode(rules, a, sa, field).0 == NormalizeNode(rules, b, sb, field).0
    ensures Within(renaming, larger)
    ensures Linked(NormalizeNode(rules, a, sa, field).1, NormalizeNode(rules, b, sb, field).1, larger)
    ensures Agree(rules, a, b, field, larger)
    decreases Size(a)
  {
    SameKind(rules, a, b, field, sa, sb);
    larger := renaming;
    match KindOf(rules, a, field)
    case Time =>
    case Plain =>
    case Id => larger := InternForward(a.text, b.text, sa, sb, renaming);
    case Array => larger := ItemsForward(rules, a.items, b.items, sa, sb, renaming);
    case Object =>
      SortedWellFormed(a.fields);
      SortedWellFormed(b.fields);
      larger := FieldsForward(rules, SortFields(a.fields), SortFields(b.fields), sa, sb, renaming);
      AgreeingObjects(rules, a.fields, b.fields, larger);
  }

  lemma {:induction false} ItemsForward(rules: Rules, a: seq<Json>, b: seq<Json>,
                                        sa: Subst, sb: Subst, renaming: map<string, string>)
      returns (larger: map<string, string>)
    requires AllWellFormed(a) && AllWellFormed(b) && ItemsClear(rules, a, sa) && ItemsClear(rules, b, sb)
    requires Linked(sa, sb, renaming)
    requires NormalizeItems(rules, a, sa).0 == NormalizeItems(rules, b, sb).0
    ensures Within(renaming, larger)
    ensures Linked(NormalizeItems(rules, a, sa).1, NormalizeItems(rules, b, sb).1, larger)
    ensures AgreeItems(rules, a, b, larger)
    decreases ItemsSize(a)
  {
    if a == [] || b == [] {
      larger := renaming;
    } else {
      ItemsSplit(rules, a, b, sa, sb);
      var first := NodeForward(rules, a[0], b[0], None, sa, sb, renaming);
      larger := ItemsForward(rules, a[1..], b[1..], NormalizeNode(rules, a[0], sa, None).1,
                             NormalizeNode(rules, b[0], sb, None).1, first);
      AgreeWithin(rules, a[0], b[0], None, first, larger);
    }
  }

  lemma ItemsSplit(rules: Rules, a: seq<Json>, b: seq<Json>, sa: Subst, sb: Subst)
    requires a != [] && b != [] && NormalizeItems(rules, a, sa).0 == NormalizeItems(rules, b, sb).0
    ensures NormalizeNode(rules, a[0], sa, None).0 == NormalizeNode(rules, b[0], sb, None).0
    ensures NormalizeItems(rules, a[1..], NormalizeNode(rules, a[0], sa, None).1).0
         == NormalizeItems(rules, b[1..], NormalizeNode(rules, b[0], sb, None).1).0
  {
    assert NormalizeItems(rules, a, sa).0[0] == NormalizeItems(rules, b, sb).0[0];
    assert NormalizeItems(rules, a, sa).0[1..] == NormalizeItems(rules, b, sb).0[1..];
  }

  lemma {:induction false} FieldsForward(rules: Rules, a: seq<Field>, b: seq<Field>,
                                         sa: Subst, sb: Subst, renaming: map<string, string>)
      returns (larger: map<string, string>)
    requires FieldsWellFormed(a) && FieldsWellFormed(b) && FieldsClear(rules, a, sa) && FieldsClear(rules, b, sb)
    requires Linked(sa, sb, renaming)
    requires NormalizeFields(rules, a, sa).0 == NormalizeFields(rules, b, sb).0
    ensures Within(renaming, larger)
    ensures Linked(NormalizeFields(rules, a, sa).1, NormalizeFields(rules, b, sb).1, larger)
    ensures AgreeFields(rules, a, b, larger)
    decreases FieldsSize(a)
  {
    if a == [] || b == [] {
      larger := renaming;
    } else {
      FieldsSplit(rules, a, b, sa, sb);
      var field := Some(a[0].key);
      var first := NodeForward(rules, a[0].value, b[0].value, field, sa, sb, renaming);
      larger := FieldsForward(rules, a[1..], b[1..], NormalizeNode(rules, a[0].value, sa, field).1,
                              NormalizeNode(rules, b[0].value, sb, field).1, first);
      AgreeWithin(rules, a[0].value, b[0].value, field, first, larger);
    }
  }

  lemma FieldsSplit(rules: Rules, a: seq<Field>, b: seq<Field>, sa: Subst, sb: Subst)
    requires a != [] && b != [] && NormalizeFields(rules, a, sa).0 == NormalizeFields(rules, b, sb).0
    ensures a[0].key == b[0].key
    ensures NormalizeNode(rules, a[0].value, sa, Some(a[0].key)).0
         == NormalizeNode(rules, b[0].value, sb, Some(a[0].key)).0
    ensures NormalizeFields(rules, a[1..], NormalizeNode(rules, a[0].value, sa, Some(a[0].key)).1).0
         == NormalizeFields(rules, b[1..], NormalizeNode(rules, b[0].value, sb, Some(a[0].key)).1).0
  {
    assert NormalizeFields(rules, a, sa).0[0] == NormalizeFields(rules, b, sb).0[0];
    assert NormalizeFields(rules, a, sa).0[1..] == NormalizeFields(rules, b, sb).0[1..];
  }

  // ----- a renaming gives equal normal forms -----

  /** Both walks have met the same ids so far, up to a renaming that may know later ids too. */
  ghost predicate LinkedUnder(a: Subst, b: Subst, renaming: map<string, string>) {
    && a.next == b.next
    && forall x :: x in renaming ==>
         && (x in a.seen <==> renaming[x] in b.seen)
         && (x in a.seen ==> a.seen[x] == b.seen[renaming[x]])
  }

  lemma InternBackward(x: string, sa: Subst, sb: Subst, renaming: map<string, string>)
    requires Injective(renaming) && LinkedUnder(sa, sb, renaming) && x in renaming
    ensures InternId(x, sa).0 == InternId(renaming[x], sb).0
    ensures LinkedUnder(InternId(x, sa).1, InternId(renaming[x], sb).1, renaming)
  {
  }

  lemma {:induction false} NodeBackward(rules: Rules, a: Json, b: Json, field: Option<string>,
                                        sa: Subst, sb: Subst, renaming: map<string, string>)
    requires WellFormed(a) && WellFormed(b) && Injective(renaming) && LinkedUnder(sa, sb, renaming)
    requires Agree(rules, a, b, field, renaming)
    ensures NormalizeNode(rules, a, sa, field).0 == NormalizeNode(rules, b, sb, field).0
    ensures LinkedUnder(NormalizeNode(rules, a, sa, field).1, NormalizeNode(rules, b, sb, field).1, renaming)
    decreases Size(a)
  {
    match KindOf(rules, a, field)
    case Time =>
    case Plain =>
    case Id => InternBackward(a.text, sa, sb, renaming);
    case Array => ItemsBackward(rules, a.items, b.items, sa, sb, renaming);
    case Object =>
      AgreeingObjects(rules, a.fields, b.fields, renaming);
      SortedWellFormed(a.fields);
      SortedWellFormed(b.fields);
      FieldsBackward(rules, SortFields(a.fields), SortFields(b.fields), sa, sb, renaming);
  }

  lemma {:induction false} ItemsBackward(rules: Rules, a: seq<Json>, b: seq<Json>,
                                         sa: Subst, sb: Subst, renaming: map<string, string>)
    requires AllWellFormed(a) && AllWellFormed(b) && Injective(renaming) && LinkedUnder(sa, sb, renaming)
    requires AgreeItems(rules, a, b, renaming)
    ensures NormalizeItems(rules, a, sa).0 == NormalizeItems(rules, b, sb).0
    ensures LinkedUnder(NormalizeItems(rules, a, sa).1, NormalizeItems(rules, b, sb).1, renaming)
    decreases ItemsSize(a)
  {
    if a == [] {
    } else {
      NodeBackward(rules, a[0], b[0], None, sa, sb, renaming);
      ItemsBackward(rules, a[1..], b[1..], NormalizeNode(rules, a[0], sa, None).1,
                    NormalizeNode(rules, b[0], sb, None).1, renaming);
    }
  }

  lemma {:induction false} FieldsBackward(rules: Rules, a: seq<Field>, b: seq<Field>,
                                          sa: Subst, sb: Subst, renaming: map<string, string>)
    requires FieldsWellFormed(a) && FieldsWellFormed(b) && Injective(renaming) && LinkedUnder(sa, sb, renaming)
    requires AgreeFields(rules, a, b, renaming)
    ensures NormalizeFields(rules, a, sa).0 == NormalizeFields(rules, b, sb).0
    ensures LinkedUnder(NormalizeFields(rules, a, sa).1, NormalizeFields(rules, b, sb).1, renaming)
    decreases FieldsSize(a)
  {
    if a == [] {
    } else {
      var field := Some(a[0].key);
      NodeBackward(rules, a[0].value, b[0].value, field, sa, sb, renaming);
      FieldsBackward(rules, a[1..], b[1..], NormalizeNode(rules, a[0].value, sa, field).1,
                     NormalizeNode(rules, b[0].value, sb, field).1, renaming);
    }
  }

  lemma SortedWellFormed(fields: seq<Field>)
    requires FieldsWellFormed(fields)
    ensures FieldsWellFormed(SortFields(fields))
  {
    forall f | f in fields ensures WellFormed(f.value) {
      MemberWellFormed(fields, f);
    }
    forall f | f in SortFields(fields) ensures WellFormed(f.value) {
      SortFieldsMembers(fields, f);
    }
    AllMembersWellFormed(SortFields(fields));
  }

  lemma {:induction false} MemberWellFormed(fields: seq<Field>, f: Field)
    requires FieldsWellFormed(fields) && f in fields
    ensures WellFormed(f.value)
  {
    if fields[0] == f {
    } else {
      assert fields == [fields[0]] + fields[1..];
      MemberWellFormed(fields[1..], f);
    }
  }

  lemma {:induction false} AllMembersWellFormed(fields: seq<Field>)
    requires forall f :: f in fields ==> WellFormed(f.value)
    ensures FieldsWellFormed(fields)
  {
    if fields == [] {
    } else {
      assert fields[0] in fields;
      forall f | f in fields[1..] ensures f in fields {
      }
      AllMembersWellFormed(fields[1..]);
    }
  }

  // ----- the theorem -----

  /** The two trees agree up to key order, timestamps and one injective renaming of generated ids. */
  ghost predicate SameUpToRenaming(rules: Rules, a: Json, b: Json) {
    exists renaming :: Injective(renaming) && Agree(rules, a, b, None, renaming)
  }

  lemma EqualNormalForms(rules: Rules, a: Json, b: Json)
    requires WellFormed(a) && WellFormed(b)
    requires Clear(rules, a, EMPTY_SUBST, None) && Clear(rules, b, EMPTY_SUBST, None)
    ensures NormalizeJson(rules, a) == NormalizeJson(rules, b) <==> SameUpToRenaming(rules, a, b)
  {
    if NormalizeJson(rules, a) == NormalizeJson(rules, b) {
      var renaming := NodeForward(rules, a, b, None, EMPTY_SUBST, EMPTY_SUBST, map[]);
      LinkedIsInjective(NormalizeNode(rules, a, EMPTY_SUBST, None).1, NormalizeNode(rules, b, EMPTY_SUBST, None).1,
                        renaming);
    }
    if SameUpToRenaming(rules, a, b) {
      var renaming :| Injective(renaming) && Agree(rules, a, b, None, renaming);
      NodeBackward(rules, a, b, None, EMPTY_SUBST, EMPTY_SUBST, renaming);
    }
  }

  /** Agreement alone makes the normal forms equal, tokens in the text or not. */
  lemma RenamedTreesNormalizeAlike(rules: Rules, a: Json, b: Json)
    requires WellFormed(a) && WellFormed(b) && SameUpToRenaming(rules, a, b)
    ensures NormalizeJson(rules, a) == NormalizeJson(rules, b)
  {
    var renaming :| Injective(renaming) && Agree(rules, a, b, None, renaming);
    NodeBackward(rules, a, b, None, EMPTY_SUBST, EMPTY_SUBST, renaming);
  }
}
