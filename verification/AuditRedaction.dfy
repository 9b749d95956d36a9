/** Redaction of request bodies before they reach the audit log. */
module AuditRedaction {
  /** A parsed JSON body; fields are listed in the order of `Object.keys`. */
  datatype Field = Field(key: string, value: Json)
  datatype Json =
    | Null
    | Bool(b: bool)
    | Number(n: real)
    | Text(s: string)
    | Items(items: seq<Json>)
    | Object(fields: seq<Field>)

  const REDACTED := Text("[REDACTED]")

  const ALWAYS_REDACTED: set<string> := {"notes", "bio"}

  const TASK_FIELDS: set<string> := {"title", "type", "rewardAmount", "rewardToken", "lat", "lng", "radiusMeters",
                                    "maxCompletions", "status", "expiresAt"}

  const WHITELIST: map<string, set<string>> := map[
    "proof.submit" := {"taskId", "lat", "lng"},
    "proof.review" := {"verdict", "notes"},
    "user.update" := {"name", "bio", "avatarUrl"},
    "notification.preferences" := {},
    "task.create" := TASK_FIELDS,
    "task.update" := TASK_FIELDS,
    "task.delete" := {},
    "validator.activate" := {},
    "validator.deactivate" := {},
    "validator.review" := {"verdict", "notes"}]

  function Allowed(action: string): set<string> {
    if action in WHITELIST then WHITELIST[action] else {}
  }

  /** Assigning to `__proto__` on a fresh object sets its prototype and adds no field. */
  const PROTO := "__proto__"

  function Put(fields: seq<Field>, key: string, value: Json): seq<Field> {
    if key == PROTO then fields else fields + [Field(key, value)]
  }

  function Sanitised(v: Json): Json
    decreases v
  {
    match v
    case Items(items) => Items(SanitisedItems(items))
    case Object(fields) => Object(SanitisedFields(fields))
    case _ => v
  }

  function SanitisedItems(items: seq<Json>): seq<Json>
    decreases items
  {
    if items == [] then [] else SanitisedItems(items[..|items| - 1]) + [Sanitised(items[|items| - 1])]
  }

  function SanitisedFields(fields: seq<Field>): seq<Field>
    decreases fields
  {
    if fields == [] then []
    else
      var f := fields[|fields| - 1];
      Put(SanitisedFields(fields[..|fields| - 1]), f.key,
          if f.key in ALWAYS_REDACTED then REDACTED else Sanitised(f.value))
  }

  function RedactedDetails(action: string, body: seq<Field>): seq<Field> {
    if body == [] then []
    else
      var f := body[|body| - 1];
      Put(RedactedDetails(action, body[..|body| - 1]), f.key,
          if f.key in ALWAYS_REDACTED || f.key !in Allowed(action) then REDACTED else Sanitised(f.value))
  }

  /** The middleware's recursive copy: arrays are mapped, objects filled key by key. */
  method SanitiseValue(v: Json) returns (r: Json)
    ensures r == Sanitised(v)
    decreases v
  {
    match v
    case Items(items) =>
      var out: seq<Json> := [];
      var i := 0;
      while i < |items|
        invariant 0 <= i <= |items| && out == SanitisedItems(items[..i])
      {
        assert items[..i + 1][..i] == items[..i];
        var item := SanitiseValue(items[i]);
        out := out + [item];
        i := i + 1;
      }
      assert items[..i] == items;
      r := Items(out);
    case Object(fields) =>
      var sanitised: seq<Field> := [];
      var i := 0;
      while i < |fields|
        invariant 0 <= i <= |fields| && sanitised == SanitisedFields(fields[..i])
      {
        assert fields[..i + 1][..i] == fields[..i];
        if fields[i].key in ALWAYS_REDACTED {
          sanitised := Put(sanitised, fields[i].key, REDACTED);
        } else {
          var inner := SanitiseValue(fields[i].value);
          sanitised := Put(sanitised, fields[i].key, inner);
        }
        i := i + 1;
      }
      assert fields[..i] == fields;
      r := Object(sanitised);
    case _ => r := v;
  }

  method RedactDetails(action: string, body: seq<Field>) returns (result: seq<Field>)
    ensures result == RedactedDetails(action, body)
  {
    result := [];
    var i := 0;
    while i < |body|
      invariant 0 <= i <= |body| && result == RedactedDetails(action, body[..i])
    {
      assert body[..i + 1][..i] == body[..i];
      if body[i].key in ALWAYS_REDACTED {
        result := Put(result, body[i].key, REDACTED);
      } else if body[i].key !in Allowed(action) {
        result := Put(result, body[i].key, REDACTED);
      } else {
        var inner := SanitiseValue(body[i].value);
        result := Put(result, body[i].key, inner);
      }
      i := i + 1;
    }
    assert body[..i] == body;
  }

  // ---- what two bodies may differ in without a trace ----

  /** Equal except beneath always-redacted keys (or `__proto__`), at any depth. */
  predicate Alike(a: Json, b: Json)
    decreases a
  {
    match a
    case Items(items) => b.Items? && AlikeItems(items, b.items)
    case Object(fields) => b.Object? && AlikeFields(fields, b.fields)
    case _ => a == b
  }

  predicate AlikeItems(a: seq<Json>, b: seq<Json>)
    decreases a
  {
    |a| == |b| && (a != [] ==> AlikeItems(a[..|a| - 1], b[..|b| - 1]) && Alike(a[|a| - 1], b[|b| - 1]))
  }

  predicate AlikeFields(a: seq<Field>, b: seq<Field>)
    decreases a
  {
    && |a| == |b|
    && (a != [] ==>
          && AlikeFields(a[..|a| - 1], b[..|b| - 1])
          && a[|a| - 1].key == b[|b| - 1].key
          && (a[|a| - 1].key in ALWAYS_REDACTED || a[|a| - 1].key == PROTO
              || Alike(a[|a| - 1].value, b[|b| - 1].value)))
  }

  /** The same for whole bodies: fields not whitelisted for the action may differ as well. */
  predicate AlikeBodies(action: string, a: seq<Field>, b: seq<Field>) {
    && |a| == |b|
    && (a != [] ==>
          && AlikeBodies(action, a[..|a| - 1], b[..|b| - 1])
          && a[|a| - 1].key == b[|b| - 1].key
          && (a[|a| - 1].key in ALWAYS_REDACTED || a[|a| - 1].key !in Allowed(action) || a[|a| - 1].key == PROTO
              || Alike(a[|a| - 1].value, b[|b| - 1].value)))
  }

  /** No object anywhere inside has an own `__proto__` field. */
  predicate ProtoFree(v: Json)
    decreases v
  {
    match v
    case Items(items) => ProtoFreeItems(items)
    case Object(fields) => ProtoFreeFields(fields)
    case _ => true
  }

  predicate ProtoFreeItems(items: seq<Json>)
    decreases items
  {
    items != [] ==> ProtoFreeItems(items[..|items| - 1]) && ProtoFree(items[|items| - 1])
  }

  predicate ProtoFreeFields(fields: seq<Field>)
    decreases fields
  {
    fields != [] ==>
      && ProtoFreeFields(fields[..|fields| - 1])
      && fields[|fields| - 1].key != PROTO && ProtoFree(fields[|fields| - 1].value)
  }

  lemma {:induction false} AlikeSameOutput(a: Json, b: Json)
    requires Alike(a, b)
    ensures Sanitised(a) == Sanitised(b)
    decreases a
  {
    match a
    case Items(items) => AlikeItemsSame(items, b.items);
    case Object(fields) => AlikeFieldsSame(fields, b.fields);
    case _ =>
  }

  lemma {:induction false} AlikeItemsSame(a: seq<Json>, b: seq<Json>)
    requires AlikeItems(a, b)
    ensures SanitisedItems(a) == SanitisedItems(b)
    decreases a
  {
    if a != [] {
      AlikeItemsSame(a[..|a| - 1], b[..|b| - 1]);
      AlikeSameOutput(a[|a| - 1], b[|b| - 1]);
    }
  }

  lemma {:induction false} AlikeFieldsSame(a: seq<Field>, b: seq<Field>)
    requires AlikeFields(a, b)
    ensures SanitisedFields(a) == SanitisedFields(b)
    decreases a
  {
    if a != [] {
      AlikeFieldsSame(a[..|a| - 1], b[..|b| - 1]);
      if a[|a| - 1].key !in ALWAYS_REDACTED && a[|a| - 1].key != PROTO {
        AlikeSameOutput(a[|a| - 1].value, b[|b| - 1].value);
      }
    }
  }

  lemma {:induction false} SameOutputAlike(a: Json, b: Json)
    requires Sanitised(a) == Sanitised(b) && ProtoFree(a) && ProtoFree(b)
    ensures Alike(a, b)
    decreases a
  {
    match a
    case Items(items) => SameItemsAlike(items, b.items);
    case Object(fields) => SameFieldsAlike(fields, b.fields);
    case _ =>
  }

  lemma SanitisedItemsLength(a: seq<Json>)
    ensures |SanitisedItems(a)| == |a|
  {}

  lemma SanitisedFieldsLength(a: seq<Field>)
    requires ProtoFreeFields(a)
    ensures |SanitisedFields(a)| == |a|
  {
    if a != [] {
      SanitisedFieldsLength(a[..|a| - 1]);
    }
  }

  lemma {:induction false} SameItemsAlike(a: seq<Json>, b: seq<Json>)
    requires SanitisedItems(a) == SanitisedItems(b) && ProtoFreeItems(a) && ProtoFreeItems(b)
    ensures AlikeItems(a, b)
    decreases a
  {
    SanitisedItemsLength(a);
    SanitisedItemsLength(b);
    if a != [] {
      var sa, sb := SanitisedItems(a[..|a| - 1]), SanitisedItems(b[..|b| - 1]);
      SanitisedItemsLength(a[..|a| - 1]);
      SanitisedItemsLength(b[..|b| - 1]);
      assert SanitisedItems(a)[..|sa|] == sa && SanitisedItems(b)[..|sb|] == sb;
      assert SanitisedItems(a)[|sa|] == Sanitised(a[|a| - 1]) && SanitisedItems(b)[|sb|] == Sanitised(b[|b| - 1]);
      SameItemsAlike(a[..|a| - 1], b[..|b| - 1]);
      SameOutputAlike(a[|a| - 1], b[|b| - 1]);
    }
  }

  lemma {:induction false} SameFieldsAlike(a: seq<Field>, b: seq<Field>)
    requires SanitisedFields(a) == SanitisedFields(b) && ProtoFreeFields(a) && ProtoFreeFields(b)
    ensures AlikeFields(a, b)
    decreases a
  {
    SanitisedFieldsLength(a);
    SanitisedFieldsLength(b);
    if a != [] {
      var ia, ib := a[..|a| - 1], b[..|b| - 1];
      SanitisedFieldsLength(ia);
      SanitisedFieldsLength(ib);
      var sa, sb := SanitisedFields(ia), SanitisedFields(ib);
      assert SanitisedFields(a)[..|sa|] == sa && SanitisedFields(b)[..|sb|] == sb;
      var fa, fb := a[|a| - 1], b[|b| - 1];
      assert SanitisedFields(a)[|sa|] 
             == Field(fa.key, if fa.key in ALWAYS_REDACTED then REDACTED else Sanitised(fa.value));
      assert SanitisedFields(b)[|sb|] 
             == Field(fb.key, if fb.key in ALWAYS_REDACTED then REDACTED else Sanitised(fb.value));
      SameFieldsAlike(ia, ib);
      if fa.key !in ALWAYS_REDACTED {
        SameOutputAlike(fa.value, fb.value);
      }
    }
  }

  /** Non-interference: bodies that differ only beneath redacted keys leave the same record. */
  lemma {:induction false} NonInterference(action: string, a: seq<Field>, b: seq<Field>)
    requires AlikeBodies(action, a, b)
    ensures RedactedDetails(action, a) == RedactedDetails(action, b)
    decreases |a|
  {
    if a != [] {
      NonInterference(action, a[..|a| - 1], b[..|b| - 1]);
      var f := a[|a| - 1];
      if !(f.key in ALWAYS_REDACTED || f.key !in Allowed(action) || f.key == PROTO) {
        AlikeSameOutput(f.value, b[|b| - 1].value);
      }
    }
  }

  lemma DetailsLength(action: string, a: seq<Field>)
    requires ProtoFreeFields(a)
    ensures |RedactedDetails(action, a)| == |a|
  {
    if a != [] {
      DetailsLength(action, a[..|a| - 1]);
    }
  }

  /** And nothing else is lost: without `__proto__` fields, the records agree exactly when the bodies are alike. */
  lemma {:induction false} RecordsAgreeIff(action: string, a: seq<Field>, b: seq<Field>)
    requires ProtoFreeFields(a) && ProtoFreeFields(b)
    ensures RedactedDetails(action, a) == RedactedDetails(action, b) <==> AlikeBodies(action, a, b)
    decreases |a|
  {
    if AlikeBodies(action, a, b) {
      NonInterference(action, a, b);
    }
    if RedactedDetails(action, a) == RedactedDetails(action, b) {
      DetailsLength(action, a);
      DetailsLength(action, b);
      if a != [] {
        var ia, ib := a[..|a| - 1], b[..|b| - 1];
        DetailsLength(action, ia);
        DetailsLength(action, ib);
        var ra, rb := RedactedDetails(action, a), RedactedDetails(action, b);
        assert ra[..|ia|] == RedactedDetails(action, ia) && rb[..|ib|] == RedactedDetails(action, ib);
        RecordsAgreeIff(action, ia, ib);
        var fa, fb := a[|a| - 1], b[|b| - 1];
        assert ra[|ia|].key == fa.key && rb[|ib|].key == fb.key;
        if fa.key !in ALWAYS_REDACTED && fa.key in Allowed(action) {
          assert ra[|ia|].value == Sanitised(fa.value) && rb[|ib|].value == Sanitised(fb.value);
          SameOutputAlike(fa.value, fb.value);
        }
      }
    }
  }

  // ---- keys ----

  function Keys(fields: seq<Field>): seq<string> {
    if fields == [] then [] else Keys(fields[..|fields| - 1]) + [fields[|fields| - 1].key]
  }

  function WithoutProto(keys: seq<string>): seq<string> {
    if keys == [] then []
    else
      var init := WithoutProto(keys[..|keys| - 1]);
      if keys[|keys| - 1] == PROTO then init else init + [keys[|keys| - 1]]
  }

  lemma KeysPut(fields: seq<Field>, key: string, value: Json)
    ensures Keys(Put(fields, key, value)) == if key == PROTO then Keys(fields) else Keys(fields) + [key]
  {
    if key != PROTO {
      assert Put(fields, key, value)[..|fields|] == fields;
    }
  }

  /** The record has the body's keys, in order, but for `__proto__`; likewise each object inside it. */
  lemma {:induction false} KeysKept(action: string, body: seq<Field>)
    ensures Keys(RedactedDetails(action, body)) == WithoutProto(Keys(body))
    ensures Keys(SanitisedFields(body)) == WithoutProto(Keys(body))
  {
    if body != [] {
      var init, f := body[..|body| - 1], body[|body| - 1];
      KeysKept(action, init);
      KeysPut(RedactedDetails(action, init), f.key,
              if f.key in ALWAYS_REDACTED || f.key !in Allowed(action) then REDACTED else Sanitised(f.value));
      KeysPut(SanitisedFields(init), f.key, if f.key in ALWAYS_REDACTED then REDACTED else Sanitised(f.value));
      assert Keys(body)[..|Keys(body)| - 1] == Keys(init);
    }
  }

  lemma WithoutProtoShorter(keys: seq<string>)
    ensures |WithoutProto(keys)| <= |keys|
    ensures WithoutProto(keys) == keys <==> PROTO !in keys
  {
    if keys != [] {
      WithoutProtoShorter(keys[..|keys| - 1]);
      assert keys == keys[..|keys| - 1] + [keys[|keys| - 1]];
      if WithoutProto(keys) == keys {
        assert |WithoutProto(keys)| == |keys|;
        assert WithoutProto(keys[..|keys| - 1]) == keys[..|keys| - 1];
      }
    }
  }

  /** The key set is preserved exactly when the body has no own `__proto__` key. */
  lemma KeysPreservedIff(action: string, body: seq<Field>)
    ensures Keys(RedactedDetails(action, body)) == Keys(body) <==> PROTO !in Keys(body)
  {
    KeysKept(action, body);
    WithoutProtoShorter(Keys(body));
  }

  // ---- idempotence ----

  lemma {:induction false} SanitisedTwice(v: Json)
    ensures Sanitised(Sanitised(v)) == Sanitised(v)
    decreases v
  {
    match v
    case Items(items) => ItemsTwice(items);
    case Object(fields) => FieldsTwice(fields);
    case _ =>
  }

  lemma {:induction false} ItemsTwice(items: seq<Json>)
    ensures SanitisedItems(SanitisedItems(items)) == SanitisedItems(items)
    decreases items
  {
    if items != [] {
      ItemsTwice(items[..|items| - 1]);
      SanitisedTwice(items[|items| - 1]);
      var s := SanitisedItems(items);
      assert s[..|s| - 1] == SanitisedItems(items[..|items| - 1]);
    }
  }

  lemma {:induction false} FieldsTwice(fields: seq<Field>)
    ensures SanitisedFields(SanitisedFields(fields)) == SanitisedFields(fields)
    decreases fields
  {
    if fields != [] {
      var init, f := fields[..|fields| - 1], fields[|fields| - 1];
      FieldsTwice(init);
      if f.key != PROTO {
        SanitisedTwice(f.value);
        var s := SanitisedFields(fields);
        assert s[..|s| - 1] == SanitisedFields(init);
      }
    }
  }

  /** Redacting a record again changes nothing. */
  lemma {:induction false} RedactionIdempotent(action: string, body: seq<Field>)
    ensures RedactedDetails(action, RedactedDetails(action, body)) == RedactedDetails(action, body)
    decreases |body|
  {
    if body != [] {
      var init, f := body[..|body| - 1], body[|body| - 1];
      RedactionIdempotent(action, init);
      if f.key != PROTO {
        SanitisedTwice(f.value);
        var s := RedactedDetails(action, body);
        assert s[..|s| - 1] == RedactedDetails(action, init);
      }
    }
  }

  // ---- what is kept ----

  /** Nothing inside is to be redacted: each field named like free text holds the marker already. */
  predicate Clean(v: Json)
    decreases v
  {
    match v
    case Items(items) => CleanItems(items)
    case Object(fields) => CleanFields(fields)
    case _ => true
  }

  predicate CleanItems(items: seq<Json>)
    decreases items
  {
    items != [] ==> CleanItems(items[..|items| - 1]) && Clean(items[|items| - 1])
  }

  predicate CleanFields(fields: seq<Field>)
    decreases fields
  {
    fields != [] ==>
      var f := fields[|fields| - 1];
      && CleanFields(fields[..|fields| - 1])
      && (if f.key == "notes" || f.key == "bio" then f.value == Text("[REDACTED]") else Clean(f.value))
  }

  /** A value without `__proto__` keys is recorded as it is if and only if no field named like free text lies in it. */
  lemma {:induction false} KeptIff(v: Json)
    requires ProtoFree(v)
    ensures Sanitised(v) == v <==> Clean(v)
    decreases v
  {
    match v
    case Items(items) => ItemsKeptIff(items);
    case Object(fields) => FieldsKeptIff(fields);
    case _ =>
  }

  lemma {:induction false} ItemsKeptIff(items: seq<Json>)
    requires ProtoFreeItems(items)
    ensures SanitisedItems(items) == items <==> CleanItems(items)
    decreases items
  {
    if items != [] {
      var init, last := items[..|items| - 1], items[|items| - 1];
      ItemsKeptIff(init);
      KeptIff(last);
      SanitisedItemsLength(init);
      assert SanitisedItems(items) == SanitisedItems(init) + [Sanitised(last)] && items == init + [last];
    }
  }

  lemma SnocEqual<T>(a: seq<T>, b: seq<T>, x: T, y: T)
    requires |a| == |b|
    ensures a + [x] == b + [y] <==> a == b && x == y
  {
    if a + [x] == b + [y] {
      assert a == (a + [x])[..|a|] == (b + [y])[..|a|] == b;
      assert x == (a + [x])[|a|] && y == (b + [y])[|a|];
    }
  }

  lemma {:induction false} FieldsKeptIff(fields: seq<Field>)
    requires ProtoFreeFields(fields)
    ensures SanitisedFields(fields) == fields <==> CleanFields(fields)
    decreases fields
  {
    if fields != [] {
      var init, f := fields[..|fields| - 1], fields[|fields| - 1];
      FieldsKeptIff(init);
      KeptIff(f.value);
      SanitisedFieldsLength(init);
      var out := if f.key in ALWAYS_REDACTED then REDACTED else Sanitised(f.value);
      assert SanitisedFields(fields) == SanitisedFields(init) + [Field(f.key, out)] && fields == init + [f];
      SnocEqual(SanitisedFields(init), init, Field(f.key, out), f);
    }
  }

  // ---- what can be seen of a record ----

  lemma {:induction false} SanitisedClean(v: Json)
    ensures Clean(Sanitised(v))
    decreases v
  {
    match v
    case Items(items) => ItemsClean(items);
    case Object(fields) => FieldsClean(fields);
    case _ =>
  }

  lemma {:induction false} ItemsClean(items: seq<Json>)
    ensures CleanItems(SanitisedItems(items))
    decreases items
  {
    if items != [] {
      var init, last := items[..|items| - 1], items[|items| - 1];
      ItemsClean(init);
      SanitisedClean(last);
      assert (SanitisedItems(init) + [Sanitised(last)])[..|SanitisedItems(init)|] == SanitisedItems(init);
    }
  }

  lemma PutClean(fields: seq<Field>, key: string, value: Json)
    requires CleanFields(fields)
    requires if key == "notes" || key == "bio" then value == Text("[REDACTED]") else Clean(value)
    ensures CleanFields(Put(fields, key, value))
  {
    assert (fields + [Field(key, value)])[..|fields|] == fields;
  }

  lemma {:induction false} FieldsClean(fields: seq<Field>)
    ensures CleanFields(SanitisedFields(fields))
    decreases fields
  {
    if fields != [] {
      var init, f := fields[..|fields| - 1], fields[|fields| - 1];
      FieldsClean(init);
      SanitisedClean(f.value);
      PutClean(SanitisedFields(init), f.key, if f.key in ALWAYS_REDACTED then REDACTED else Sanitised(f.value));
    }
  }

  /** No free text is recorded: every field named `notes` or `bio`, at any depth of a record, reads as redacted. */
  lemma {:induction false} FreeTextHidden(action: string, body: seq<Field>)
    ensures CleanFields(RedactedDetails(action, body))
  {
    if body != [] {
      var init, f := body[..|body| - 1], body[|body| - 1];
      FreeTextHidden(action, init);
      SanitisedClean(f.value);
      PutClean(RedactedDetails(action, init), f.key,
               if f.key in ALWAYS_REDACTED || f.key !in Allowed(action) then REDACTED else Sanitised(f.value));
    }
  }

  /** The fields of a body that a record may show, by action. */
  predicate MayShow(action: string, key: string) {
    || (action == "proof.submit" && key in {"taskId", "lat", "lng"})
    || (action in {"proof.review", "validator.review"} && key == "verdict")
    || (action == "user.update" && key in {"name", "avatarUrl"})
    || (action in {"task.create", "task.update"}
        && key in {"title", "type", "rewardAmount", "rewardToken", "lat", "lng", "radiusMeters", "maxCompletions",
                   "status", "expiresAt"})
  }

  lemma ShowsIff(action: string, key: string)
    ensures key !in ALWAYS_REDACTED && key in Allowed(action) <==> MayShow(action, key)
  {}

  predicate Scalar(v: Json) {
    !v.Items? && !v.Object?
  }

  /**
   * Every field of a record but the few that its action may show reads as redacted, and a scalar in one that may be
   * shown is recorded as it was sent.
   */
  lemma {:induction false} ShownOnly(action: string, body: seq<Field>, f: Field)
    ensures f in RedactedDetails(action, body) && !MayShow(action, f.key) ==> f.value == Text("[REDACTED]")
    ensures f in body && MayShow(action, f.key) && f.key != "__proto__" && Scalar(f.value) ==>
              f in RedactedDetails(action, body)
  {
    if body != [] {
      var init, last := body[..|body| - 1], body[|body| - 1];
      ShownOnly(action, init, f);
      ShowsIff(action, last.key);
      assert f in body <==> f in init || f == last;
      var value := if last.key in ALWAYS_REDACTED || last.key !in Allowed(action) then REDACTED
                   else Sanitised(last.value);
      assert RedactedDetails(action, body) == Put(RedactedDetails(action, init), last.key, value);
    }
  }

  /** So whatever text an object nested in an object holds under another name is recorded. */
  lemma NestedTextKept(secret: string)
    ensures var body := [Field("title", Object([Field("contact", Object([Field("email", Text(secret))]))]))];
            RedactedDetails("task.create", body) == body
  {
    var inner := Object([Field("email", Text(secret))]);
    var outer := Object([Field("contact", inner)]);
    assert [Field("email", Text(secret))][..0] == [] && [Field("contact", inner)][..0] == [];
    assert ProtoFree(inner) && Clean(inner);
    assert ProtoFree(outer) && Clean(outer);
    KeptIff(outer);
    assert [Field("title", outer)][..0] == [];
  }
}
