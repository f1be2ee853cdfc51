/** Which named fields grading looks through (packages/harness/src/grade.ts). */
module GradeFields {
  import opened Wrappers
  import opened Json
  import opened Grade
  import opened GradeTokens

  lemma OneFieldObject(rules: Rules, key: string, value: Json)
    ensures NormalizeJson(rules, Obj([Field(key, value)]))
         == Obj([Field(key, NormalizeNode(rules, value, EMPTY_SUBST, Some(key)).0)])
  {
    SortOne(Field(key, value));
    OneField(rules, key, value, EMPTY_SUBST);
  }

  /** A string that no pattern takes for a timestamp or an id. */
  predicate IsPlainText(rules: Rules, text: string) {
    !rules.isIsoDateTime(text) && !rules.looksGenerated(text) && !rules.isBlank(text)
  }

  /** Two objects that differ in one such string pass exactly when the field is one of the named ones. */
  lemma TextFieldMeaning(rules: Rules, key: string, x: string, y: string)
    requires IsPlainText(rules, x) && IsPlainText(rules, y)
    ensures NormalizeJson(rules, Obj([Field(key, Str(x))])) == NormalizeJson(rules, Obj([Field(key, Str(y))]))
       <==> || x == y
            || key in {"eventId", "permissionId", "sessionId", "session_id", "toolCallId", "uuid"}
            || key in {"createdAt", "created_at", "recordedAt", "timestamp", "timestampMs", "updatedAt", "updated_at"}
  {
    OneFieldObject(rules, key, Str(x));
    OneFieldObject(rules, key, Str(y));
  }

  /** Numbers are looked through in the named timestamp fields only. */
  lemma NumberFieldMeaning(rules: Rules, key: string, x: real, y: real)
    ensures NormalizeJson(rules, Obj([Field(key, Num(x))])) == NormalizeJson(rules, Obj([Field(key, Num(y))]))
       <==> || x == y
            || key in {"createdAt", "created_at", "recordedAt", "timestamp", "timestampMs", "updatedAt", "updated_at"}
  {
    OneFieldObject(rules, key, Num(x));
    OneFieldObject(rules, key, Num(y));
  }

  /** In a named timestamp field every string and number passes for every other, and for nothing else. */
  lemma TimestampFieldMeaning(rules: Rules, key: string, a: Json, b: Json)
    requires key in {"createdAt", "created_at", "recordedAt", "timestamp", "timestampMs", "updatedAt", "updated_at"}
    requires a.Str? || a.Num?
    ensures NormalizeJson(rules, Obj([Field(key, a)])) == NormalizeJson(rules, Obj([Field(key, b)]))
       <==> b.Str? || b.Num?
  {
    OneFieldObject(rules, key, a);
    OneFieldObject(rules, key, b);
  }

  /** A blank string in an id field is text like any other. */
  lemma BlankIdIsText(rules: Rules, key: string, x: string, y: string)
    requires key in {"eventId", "permissionId", "sessionId", "session_id", "toolCallId", "uuid"}
    requires rules.isBlank(x) && !rules.isIsoDateTime(x) && !rules.looksGenerated(x)
    requires rules.isBlank(y) && !rules.isIsoDateTime(y) && !rules.looksGenerated(y)
    ensures NormalizeJson(rules, Obj([Field(key, Str(x))])) == NormalizeJson(rules, Obj([Field(key, Str(y))]))
       <==> x == y
  {
    OneFieldObject(rules, key, Str(x));
    OneFieldObject(rules, key, Str(y));
  }
}
