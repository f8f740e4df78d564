/**
 * lib/validations.ts: the zod schemas, each as an acceptance predicate over the JavaScript
 * value that `request.json()` produced. A key missing from an object is `undefined`
 * (what `.optional()` admits); `JsNull` is `null` (what `.nullable()` admits).
 * String bounds count UTF-16 code units, as JavaScript's `length` does.
 */
module Validations {
  import opened Wrappers

  /** A JavaScript value as a schema sees it. JSON text never yields a `JsBigInt`. */
  datatype JsValue =
    | JsNull
    | JsBool(b: bool)
    | JsNumber(n: real)
    | JsString(s: string)
    | JsBigInt(i: int)
    | JsArray(items: seq<JsValue>)
    | JsObject(fields: map<string, JsValue>)

  /** The values `JSON.parse` can produce: no bigint anywhere inside. */
  predicate IsJson(v: JsValue) {
    match v
    case JsBigInt(_) => false
    case JsArray(items) => forall i :: 0 <= i < |items| ==> IsJson(items[i])
    case JsObject(fields) => forall k :: k in fields ==> IsJson(fields[k])
    case _ => true
  }

  /** JavaScript's `length`: characters outside the Basic Multilingual Plane take two UTF-16 units. */
  function Utf16Length(s: string): (n: nat)
    ensures |s| <= n <= 2 * |s|
  {
    if s == [] then 0
    else Utf16Length(s[..|s| - 1]) + (if s[|s| - 1] as int >= 0x1_0000 then 2 else 1)
  }

  /** For text without astral characters, JavaScript's length is the character count. */
  lemma {:induction false} BmpLength(s: string)
    requires forall i :: 0 <= i < |s| ==> s[i] as int < 0x1_0000
    ensures Utf16Length(s) == |s|
  {
    if s != [] {
      BmpLength(s[..|s| - 1]);
    }
  }

  // ---------------------------------------------------------------------------
  // zod building blocks

  /** `z.string().min(min)` */
  predicate StrMin(v: JsValue, min: nat) {
    v.JsString? && min <= Utf16Length(v.s)
  }

  /** `z.string().max(max)` */
  predicate StrMax(v: JsValue, max: nat) {
    v.JsString? && Utf16Length(v.s) <= max
  }

  /** `z.string().min(min).max(max)` */
  predicate StrBetween(v: JsValue, min: nat, max: nat) {
    v.JsString? && min <= Utf16Length(v.s) <= max
  }

  /** `z.enum(options)` */
  predicate OneOf(v: JsValue, options: set<string>) {
    v.JsString? && v.s in options
  }

  /** `z.number().int()` */
  predicate IsInteger(v: JsValue) {
    v.JsNumber? && v.n.Floor as real == v.n
  }

  /** `z.bigint()`: only a BigInt value passes; a number does not. */
  predicate IsBigInt(v: JsValue) {
    v.JsBigInt?
  }

  /** `z.array(z.bigint())` */
  predicate BigIntArray(v: JsValue) {
    v.JsArray? && forall i :: 0 <= i < |v.items| ==> IsBigInt(v.items[i])
  }

  /** `z.record(z.any())`: a plain object (not null, not an array). */
  predicate IsRecord(v: JsValue) {
    v.JsObject?
  }

  /** `<key>: z.string().optional()` */
  predicate OptionalString(f: map<string, JsValue>, key: string) {
    key !in f || f[key].JsString?
  }

  /** `<key>: z.string().max(max).optional().nullable()` */
  predicate NullableStrMax(f: map<string, JsValue>, key: string, max: nat) {
    key !in f || f[key].JsNull? || StrMax(f[key], max)
  }

  /** `<key>: z.bigint().optional().nullable()` */
  predicate NullableBigInt(f: map<string, JsValue>, key: string) {
    key !in f || f[key].JsNull? || IsBigInt(f[key])
  }

  /** `<key>: z.enum(options).optional()` */
  predicate OptionalOneOf(f: map<string, JsValue>, key: string, options: set<string>) {
    key !in f || OneOf(f[key], options)
  }

  /** `<key>: z.boolean().optional()` */
  predicate OptionalBool(f: map<string, JsValue>, key: string) {
    key !in f || f[key].JsBool?
  }

  /** `code` and `name`, shared by every entity schema. */
  predicate CodeAndName(f: map<string, JsValue>) {
    && "code" in f && StrBetween(f["code"], 1, 50)
    && "name" in f && StrBetween(f["name"], 1, 100)
  }

  // ---------------------------------------------------------------------------
  // The schemas. `isEmail` is zod's e-mail pattern; `validDate` says whether `new Date(v)`
  // is a valid date, which is what `z.coerce.date()` checks.

  const TaskTypes := {"cleaning", "integration", "standardization", "quality_check", "mapping"}
  const Priorities := {"high", "medium", "low"}
  const RuleTypes := {"completeness", "consistency", "accuracy", "timeliness", "uniqueness", "reference"}
  const Severities := {"error", "warning", "info"}
  const MappingTypes := {"one_to_one", "one_to_many", "many_to_one"}
  const SourceTypes := {"database", "api", "file"}
  const SyncTypes := {"data_element", "quality_rule", "mapping_rule"}
  const SyncFrequencies := {"manual", "daily", "weekly", "monthly", "cron"}

  predicate LoginAccepts(v: JsValue) {
    && v.JsObject?
    && "username" in v.fields && StrMin(v.fields["username"], 1)
    && "password" in v.fields && StrMin(v.fields["password"], 6)
  }

  predicate RegisterAccepts(v: JsValue, isEmail: string -> bool) {
    && v.JsObject?
    && var f := v.fields;
    && "username" in f && StrBetween(f["username"], 1, 50)
    && "password" in f && StrBetween(f["password"], 6, 100)
    && ("email" !in f || (f["email"].JsString? && isEmail(f["email"].s)))
    && ("realName" !in f || StrMax(f["realName"], 50))
  }

  predicate CreateUserAccepts(v: JsValue, isEmail: string -> bool) {
    && v.JsObject?
    && var f := v.fields;
    && "username" in f && StrBetween(f["username"], 1, 50)
    && "password" in f && StrBetween(f["password"], 6, 100)
    && ("email" !in f || f["email"].JsNull? || (f["email"].JsString? && isEmail(f["email"].s)))
    && NullableStrMax(f, "realName", 50)
    && ("roleIds" !in f || BigIntArray(f["roleIds"]))
  }

  predicate UpdateUserAccepts(v: JsValue, isEmail: string -> bool) {
    && v.JsObject?
    && var f := v.fields;
    && ("email" !in f || f["email"].JsNull? || (f["email"].JsString? && isEmail(f["email"].s)))
    && NullableStrMax(f, "realName", 50)
    && ("status" !in f || (IsInteger(f["status"]) && 0.0 <= f["status"].n <= 1.0))
    && ("roleIds" !in f || BigIntArray(f["roleIds"]))
  }

  predicate DataElementAccepts(v: JsValue) {
    && v.JsObject?
    && var f := v.fields;
    && CodeAndName(f)
    && OptionalString(f, "description")
    && NullableBigInt(f, "dataTypeId")
    && NullableBigInt(f, "formatRuleId")
    && ("length" !in f || f["length"].JsNull? || (IsInteger(f["length"]) && f["length"].n > 0.0))
    && OptionalBool(f, "isRequired")
    && NullableStrMax(f, "defaultValue", 255)
    && NullableStrMax(f, "valueRange", 255)
    && OptionalString(f, "businessRule")
    && NullableBigInt(f, "categoryId")
  }

  predicate QualityRuleAccepts(v: JsValue) {
    && v.JsObject?
    && var f := v.fields;
    && CodeAndName(f)
    && OptionalString(f, "description")
    && "ruleType" in f && OneOf(f["ruleType"], RuleTypes)
    && NullableStrMax(f, "dataSource", 100)
    && NullableStrMax(f, "tableName", 100)
    && NullableStrMax(f, "fieldName", 100)
    && OptionalString(f, "ruleExpression")
    && OptionalOneOf(f, "severity", Severities)
    && NullableBigInt(f, "categoryId")
  }

  predicate MappingRuleAccepts(v: JsValue) {
    && v.JsObject?
    && var f := v.fields;
    && CodeAndName(f)
    && OptionalString(f, "description")
    && "sourceSystem" in f && StrBetween(f["sourceSystem"], 1, 100)
    && "sourceTable" in f && StrBetween(f["sourceTable"], 1, 100)
    && "targetSystem" in f && StrBetween(f["targetSystem"], 1, 100)
    && "targetTable" in f && StrBetween(f["targetTable"], 1, 100)
    && OptionalOneOf(f, "mappingType", MappingTypes)
  }

  predicate TaskAccepts(v: JsValue, validDate: JsValue -> bool) {
    && v.JsObject?
    && var f := v.fields;
    && CodeAndName(f)
    && OptionalString(f, "description")
    && "taskType" in f && OneOf(f["taskType"], TaskTypes)
    && OptionalOneOf(f, "priority", Priorities)
    && NullableBigInt(f, "relatedDataElementId")
    && NullableBigInt(f, "relatedQualityRuleId")
    && NullableBigInt(f, "relatedMappingRuleId")
    && ("planStartTime" !in f || validDate(f["planStartTime"]))
    && ("planEndTime" !in f || validDate(f["planEndTime"]))
  }

  predicate ExternalDataSourceAccepts(v: JsValue) {
    && v.JsObject?
    && var f := v.fields;
    && CodeAndName(f)
    && OptionalString(f, "description")
    && "sourceType" in f && OneOf(f["sourceType"], SourceTypes)
    && "connectionConfig" in f && IsRecord(f["connectionConfig"])
    && NullableStrMax(f, "apiEndpoint", 255)
    && NullableStrMax(f, "apiKey", 255)
  }

  /** `syncTaskSchema` as written: `sourceId: z.bigint()`. */
  predicate SyncTaskAccepts(v: JsValue) {
    && v.JsObject?
    && var f := v.fields;
    && SyncTaskFieldsExceptSource(f)
    && "sourceId" in f && IsBigInt(f["sourceId"])
  }

  /** Every `syncTaskSchema` field but `sourceId`. */
  predicate SyncTaskFieldsExceptSource(f: map<string, JsValue>) {
    && CodeAndName(f)
    && OptionalString(f, "description")
    && "syncType" in f && OneOf(f["syncType"], SyncTypes)
    && "targetType" in f && StrBetween(f["targetType"], 1, 50)
    && "targetConfig" in f && IsRecord(f["targetConfig"])
    && "syncFrequency" in f && OneOf(f["syncFrequency"], SyncFrequencies)
    && NullableStrMax(f, "cronExpression", 100)
    && OptionalBool(f, "syncEnabled")
  }

  /** `syncTaskSchema` with `sourceId` read as an integer id, as a JSON client sends it. */
  predicate SyncTaskAcceptsIntended(v: JsValue) {
    && v.JsObject?
    && var f := v.fields;
    && SyncTaskFieldsExceptSource(f)
    && "sourceId" in f && (IsBigInt(f["sourceId"]) || IsInteger(f["sourceId"]))
  }

  // ---------------------------------------------------------------------------
  // The first issue zod reports for the login schema (`error.errors[0].message`)

  /** zod's name for the type of a value, as used in "Expected string, received <type>". */
  function TypeName(v: JsValue): string {
    match v
    case JsNull => "null"
    case JsBool(_) => "boolean"
    case JsNumber(_) => "number"
    case JsString(_) => "string"
    case JsBigInt(_) => "bigint"
    case JsArray(_) => "array"
    case JsObject(_) => "object"
  }

  /** The issue for `<key>: z.string().min(min, message)`, if any. */
  function StringFieldIssue(f: map<string, JsValue>, key: string, min: nat, message: string): (issue: Option<string>)
    ensures issue.None? <==> key in f && StrMin(f[key], min)
    ensures key in f && f[key].JsString? && Utf16Length(f[key].s) < min ==> issue == Some(message)
  {
    if key !in f then Some("Required")
    else if !f[key].JsString? then Some("Expected string, received " + TypeName(f[key]))
    else if Utf16Length(f[key].s) < min then Some(message)
    else None
  }

  const UsernameEmptyMessage := "用户名不能为空"
  const PasswordShortMessage := "密码至少6位"

  /** The message of the first issue `loginSchema.parse` raises: fields are checked in declaration order. */
  function LoginFirstIssue(v: JsValue): (issue: Option<string>)
    ensures issue.None? <==> LoginAccepts(v)
    ensures v.JsObject? && "username" in v.fields && v.fields["username"] == JsString("")
      ==> issue == Some(UsernameEmptyMessage)
    ensures v.JsObject? && !("username" in v.fields && StrMin(v.fields["username"], 1))
      ==> issue == StringFieldIssue(v.fields, "username", 1, UsernameEmptyMessage)
    ensures v.JsObject? && "username" in v.fields && StrMin(v.fields["username"], 1)
      && "password" in v.fields && v.fields["password"].JsString? && Utf16Length(v.fields["password"].s) < 6
      ==> issue == Some(PasswordShortMessage)
  {
    if !v.JsObject? then Some("Expected object, received " + TypeName(v))
    else
      var u := StringFieldIssue(v.fields, "username", 1, UsernameEmptyMessage);
      if u.Some? then u else StringFieldIssue(v.fields, "password", 6, PasswordShortMessage)
  }

  // ---------------------------------------------------------------------------
  // Properties of the schemas

  /** Credentials that pass registration always pass the login schema. */
  lemma RegisteredCredentialsPassLogin(v: JsValue, isEmail: string -> bool)
    requires RegisterAccepts(v, isEmail)
    ensures LoginAccepts(v)
  {
  }

  /** Login sets no upper bound on the password; registration stops at 100. */
  lemma {:induction false} LoginHasNoPasswordCap(isEmail: string -> bool)
    ensures var body := JsObject(map["username" := JsString("admin"), "password" := JsString(seq(101, _ => 'a'))]);
      LoginAccepts(body) && !RegisterAccepts(body, isEmail)
  {
    var pw: string := seq(101, _ => 'a');
    BmpLength(pw);
    BmpLength("admin");
  }

  /** A registration body (without `roleIds`) is also a valid create-user body. */
  lemma RegisterBodiesAreCreateUserBodies(v: JsValue, isEmail: string -> bool)
    requires RegisterAccepts(v, isEmail) && "roleIds" !in v.fields
    ensures CreateUserAccepts(v, isEmail)
  {
  }

  /** `.nullable()` is what separates the two: a null e-mail passes create-user and fails register. */
  lemma {:induction false} NullEmailOnlyForCreateUser(isEmail: string -> bool)
    ensures var body := JsObject(map["username" := JsString("u"), "password" := JsString("secret"), "email" := JsNull]);
      CreateUserAccepts(body, isEmail) && !RegisterAccepts(body, isEmail)
  {
    BmpLength("u");
    BmpLength("secret");
  }

  /** `z.number().int().min(0).max(1)` admits exactly the numbers 0 and 1. */
  lemma {:induction false} UpdateUserStatusIsZeroOrOne(v: JsValue, isEmail: string -> bool)
    requires v.JsObject? && "status" in v.fields && v.fields["status"].JsNumber?
    ensures UpdateUserAccepts(v, isEmail) ==> v.fields["status"].n == 0.0 || v.fields["status"].n == 1.0
    ensures UpdateUserAccepts(v, isEmail) <==>
      && (v.fields["status"].n == 0.0 || v.fields["status"].n == 1.0)
      && UpdateUserAccepts(JsObject(v.fields - {"status"}), isEmail)
  {
    var f := v.fields;
    var g := f - {"status"};
    assert forall k :: k in g ==> k in f && g[k] == f[k];
    assert forall k :: k in f && k != "status" ==> k in g;
    var n := f["status"].n;
    if IsInteger(f["status"]) && 0.0 <= n <= 1.0 {
      assert n.Floor == 0 || n.Floor == 1;
    }
  }

  /** Every entity schema bounds `code` to 1..50 and `name` to 1..100 UTF-16 units. */
  lemma EntityCodeAndNameBounds(v: JsValue, validDate: JsValue -> bool)
    ensures DataElementAccepts(v) || QualityRuleAccepts(v) || MappingRuleAccepts(v)
         || TaskAccepts(v, validDate) || ExternalDataSourceAccepts(v) || SyncTaskAccepts(v)
      ==> v.JsObject? && "code" in v.fields && "name" in v.fields
          && v.fields["code"].JsString? && 1 <= Utf16Length(v.fields["code"].s) <= 50
          && v.fields["name"].JsString? && 1 <= Utf16Length(v.fields["name"].s) <= 100
  {
  }

  /** A task needs one of the five task types; a priority, when given, is high, medium or low. */
  lemma TaskTypeAndPriority(v: JsValue, validDate: JsValue -> bool)
    requires TaskAccepts(v, validDate)
    ensures v.fields["taskType"].s in {"cleaning", "integration", "standardization", "quality_check", "mapping"}
    ensures "priority" in v.fields ==> v.fields["priority"].JsString? && v.fields["priority"].s in {"high", "medium", "low"}
    ensures "planStartTime" in v.fields ==> validDate(v.fields["planStartTime"])
  {
  }

  /** A quality rule needs one of six rule types; a severity, when given, is error, warning or info. */
  lemma QualityRuleTypeAndSeverity(v: JsValue)
    requires QualityRuleAccepts(v)
    ensures v.fields["ruleType"].s in {"completeness", "consistency", "accuracy", "timeliness", "uniqueness", "reference"}
    ensures "severity" in v.fields ==> v.fields["severity"].JsString? && v.fields["severity"].s in {"error", "warning", "info"}
  {
  }

  /** The four system/table names of a mapping rule are each 1..100 units; `mappingType` is one of three. */
  lemma MappingRuleEndpoints(v: JsValue)
    requires MappingRuleAccepts(v)
    ensures forall k :: k in {"sourceSystem", "sourceTable", "targetSystem", "targetTable"} ==>
      k in v.fields && v.fields[k].JsString? && 1 <= Utf16Length(v.fields[k].s) <= 100
    ensures "mappingType" in v.fields ==> v.fields["mappingType"].JsString? && v.fields["mappingType"].s in {"one_to_one", "one_to_many", "many_to_one"}
  {
  }

  /** A data element's `length`, when given and not null, is a whole number of at least 1. */
  lemma {:induction false} DataElementLengthPositive(v: JsValue)
    requires DataElementAccepts(v) && "length" in v.fields && !v.fields["length"].JsNull?
    ensures v.fields["length"].JsNumber? && v.fields["length"].n >= 1.0
  {
    var n := v.fields["length"].n;
    assert n.Floor as real == n && n > 0.0;
    assert n.Floor >= 1;
  }

  /** A sync task needs its source, a 1..50-unit target type, and one of five frequencies. */
  lemma SyncTaskRequirements(v: JsValue)
    requires SyncTaskAccepts(v)
    ensures "sourceId" in v.fields
    ensures "targetType" in v.fields && v.fields["targetType"].JsString? && 1 <= Utf16Length(v.fields["targetType"].s) <= 50
    ensures v.fields["syncFrequency"].s in {"manual", "daily", "weekly", "monthly", "cron"}
    ensures v.fields["syncType"].s in {"data_element", "quality_rule", "mapping_rule"}
  {
  }

  /** As written, no JSON request body passes `syncTaskSchema`: `sourceId` must be a BigInt. */
  lemma SyncTaskRejectsEveryJsonBody(v: JsValue)
    requires IsJson(v)
    ensures !SyncTaskAccepts(v)
  {
    if v.JsObject? && "sourceId" in v.fields {
      assert IsJson(v.fields["sourceId"]);
    }
  }

  /** A sync-task body as a JSON client sends it, with `sourceId: 1`. */
  function SampleSyncTask(): JsValue {
    JsObject(map[
      "code" := JsString("S1"), "name" := JsString("sync"), "syncType" := JsString("data_element"),
      "sourceId" := JsNumber(1.0), "targetType" := JsString("db"), "targetConfig" := JsObject(map[]),
      "syncFrequency" := JsString("daily")])
  }

  lemma SampleSyncTaskIsJson()
    ensures IsJson(SampleSyncTask())
  {
    var f := SampleSyncTask().fields;
    assert IsJson(JsObject(map[]));
    assert forall k :: k in f ==> IsJson(f[k]);
  }

  lemma SampleSyncTaskFields()
    ensures SyncTaskFieldsExceptSource(SampleSyncTask().fields)
  {
    BmpLength("S1");
    BmpLength("sync");
    BmpLength("db");
  }

  /** Read as intended, the schema admits JSON bodies, such as one with `sourceId: 1`. */
  lemma {:induction false} IntendedSyncTaskAcceptsJson()
    ensures IsJson(SampleSyncTask())
    ensures SyncTaskAcceptsIntended(SampleSyncTask()) && !SyncTaskAccepts(SampleSyncTask())
  {
    SampleSyncTaskIsJson();
    SampleSyncTaskFields();
    assert SampleSyncTask().fields["sourceId"] == JsNumber(1.0);
  }

  /** The intended reading only widens `sourceId`: everything the written schema admits, it admits. */
  lemma IntendedSyncTaskWidens(v: JsValue)
    requires SyncTaskAccepts(v)
    ensures SyncTaskAcceptsIntended(v)
  {
  }
}
