/**
 * The issue schema: the status enumeration, the field table, the allow-list
 * that strips unknown fields, and the validator that lists what is wrong
 * with an issue.
 */
module Issue {
  import opened Wrappers
  import opened Values

  /** The keys of `validIssueStatus`: the six statuses an issue may have. */
  const ValidStatuses: set<string> := {"New", "Open", "Assigned", "Fixed", "Verified", "Closed"}

  datatype FieldKind = Required | Optional

  /** `issueFieldType`: the six schema fields and whether each is mandatory. */
  const IssueFieldType: map<string, FieldKind> := map[
    "status" := Required, "owner" := Required, "effort" := Optional,
    "created" := Required, "completionDate" := Optional, "title" := Required]

  /** `Object.keys(issueFieldType)`: the schema fields in declaration order. */
  const SchemaKeys: seq<string> := ["status", "owner", "effort", "created", "completionDate", "title"]

  /**
   * Names every plain object literal inherits from `Object.prototype`; looking
   * one of them up on `validIssueStatus` or `issueFieldType` finds a function,
   * which is truthy. `__proto__` (which finds `Object.prototype`, also truthy)
   * is listed apart: assigning it replaces the prototype and creates no field.
   */
  const InheritedNames: set<string> := {
    "constructor", "hasOwnProperty", "isPrototypeOf", "propertyIsEnumerable",
    "toLocaleString", "toString", "valueOf",
    "__defineGetter__", "__defineSetter__", "__lookupGetter__", "__lookupSetter__"}

  // ---------------------------------------------------------------------------
  // cleanupIssue

  /** `cleanupIssue` as intended: keep exactly the fields that the schema names. */
  function Cleaned(issue: Record): Record {
    map field | field in issue && field in IssueFieldType :: issue[field]
  }

  /**
   * `cleanupIssue` as written: `issueFieldType[field]` is also truthy for the
   * names the table inherits, so those fields survive too.
   */
  function CleanedAsWritten(issue: Record): Record {
    map field | field in issue && (field in IssueFieldType || field in InheritedNames) :: issue[field]
  }

  /** The `forEach` over the issue's own fields, copying each schema field into a fresh record. */
  method CleanupIssue(issue: Record) returns (cleaned: Record)
    ensures cleaned == Cleaned(issue)
    ensures cleaned.Keys <= IssueFieldType.Keys
    ensures forall field :: field in issue && field in IssueFieldType ==> field in cleaned && cleaned[field] == issue[field]
  {
    cleaned := map[];
    var pending := issue.Keys;
    while pending != {}
      invariant pending <= issue.Keys
      invariant cleaned == map field | field in issue.Keys - pending && field in IssueFieldType :: issue[field]
      decreases pending
    {
      var field :| field in pending;
      if field in IssueFieldType {
        cleaned := cleaned[field := issue[field]];
      }
      pending := pending - {field};
    }
  }

  /** Every field of a cleaned issue is one of the six schema fields. */
  lemma CleanedKeysInSchema(issue: Record)
    ensures Cleaned(issue).Keys <= {"status", "owner", "effort", "created", "completionDate", "title"}
  {
  }

  /** A schema field of the input survives with its value; no other field does. */
  lemma CleanedKeepsSchemaFields(issue: Record)
    ensures forall field :: field in Cleaned(issue) <==> field in issue && field in IssueFieldType
    ensures forall field :: field in Cleaned(issue) ==> Cleaned(issue)[field] == issue[field]
  {
  }

  /** Cleaning an already cleaned issue changes nothing. */
  lemma CleanedIdempotent(issue: Record)
    ensures Cleaned(Cleaned(issue)) == Cleaned(issue)
  {
  }

  /** No inherited name is a schema field. */
  lemma InheritedNamesAreNotFields()
    ensures InheritedNames !! IssueFieldType.Keys
  {
  }

  /**
   * Under the as-written lookup every field named after an inherited property
   * (`constructor`, `toString`, ...) gets through the cleanup with its value;
   * the intended cleanup drops each of them.
   */
  lemma CleanupAsWrittenKeepsInheritedField(issue: Record)
    ensures forall field :: field in issue && field in InheritedNames ==>
              field in CleanedAsWritten(issue) && CleanedAsWritten(issue)[field] == issue[field]
              && field !in Cleaned(issue)
    ensures Cleaned(issue).Keys <= CleanedAsWritten(issue).Keys
  {
    InheritedNamesAreNotFields();
  }

  // ---------------------------------------------------------------------------
  // validateIssue

  function MissingMessage(field: string): string {
    "Missing mandatory field: " + field
  }

  function InvalidStatusMessage(status: Option<Value>): string {
    ToText(status) + " is not a valid status."
  }

  /** The message one field contributes: one when it is required and falsy. */
  function MissingFieldError(issue: Record, field: string): seq<string> {
    if field in IssueFieldType && IssueFieldType[field] == Required && !Truthy(Get(issue, field))
    then [MissingMessage(field)]
    else []
  }

  /** The missing-field messages for `fields`, in their order. */
  function MissingFieldErrors(issue: Record, fields: seq<string>): seq<string> {
    if fields == [] then []
    else MissingFieldErrors(issue, fields[..|fields| - 1]) + MissingFieldError(issue, fields[|fields| - 1])
  }

  /** `validIssueStatus[key]` as intended: the key is one of the six statuses. */
  predicate StatusKeyFound(key: string) {
    key in ValidStatuses
  }

  /** `validIssueStatus[key]` as written: inherited names and `__proto__` are found too. */
  predicate StatusKeyFoundAsWritten(key: string) {
    key in ValidStatuses || key in InheritedNames || key == "__proto__"
  }

  function StatusErrors(issue: Record): seq<string> {
    var status := Get(issue, "status");
    if StatusKeyFound(ToText(status)) then [] else [InvalidStatusMessage(status)]
  }

  /** The `errors` array `validateIssue` builds before it joins it. */
  function ValidationErrors(issue: Record): seq<string> {
    MissingFieldErrors(issue, SchemaKeys) + StatusErrors(issue)
  }

  /** The `errors` array under the as-written status lookup. */
  function ValidationErrorsAsWritten(issue: Record): seq<string> {
    var status := Get(issue, "status");
    MissingFieldErrors(issue, SchemaKeys)
    + (if StatusKeyFoundAsWritten(ToText(status)) then [] else [InvalidStatusMessage(status)])
  }

  /** `Array.prototype.join`. */
  function Join(parts: seq<string>, separator: string): string {
    if parts == [] then ""
    else if |parts| == 1 then parts[0]
    else parts[0] + separator + Join(parts[1..], separator)
  }

  /** What `validateIssue` returns for an errors list: null for none, else the joined list. */
  function ValidationResult(errors: seq<string>): Option<string> {
    if |errors| > 0 then Some(Join(errors, "; ")) else None
  }

  /** The reference meaning of a valid issue: the four mandatory fields are truthy and the status is one of the six. */
  predicate ValidIssue(issue: Record) {
    && Truthy(Get(issue, "status"))
    && Truthy(Get(issue, "owner"))
    && Truthy(Get(issue, "created"))
    && Truthy(Get(issue, "title"))
    && ToText(Get(issue, "status")) in ValidStatuses
  }

  /** `validateIssue`: push one message per falsy mandatory field, then one for a bad status, then join. */
  method ValidateIssue(issue: Record) returns (result: Option<string>)
    ensures result == ValidationResult(ValidationErrors(issue))
    ensures result.None? <==> ValidIssue(issue)
    ensures result.Some? ==> result.value != ""
  {
    var errors: seq<string> := [];
    for i := 0 to |SchemaKeys|
      invariant errors == MissingFieldErrors(issue, SchemaKeys[..i])
    {
      var field := SchemaKeys[i];
      assert SchemaKeys[..i + 1][..i] == SchemaKeys[..i] && SchemaKeys[..i + 1][i] == field;
      assert field in IssueFieldType;
      if IssueFieldType[field] == Required && !Truthy(Get(issue, field)) {
        errors := errors + [MissingMessage(field)];
      }
    }
    assert SchemaKeys[..|SchemaKeys|] == SchemaKeys;
    assert errors == MissingFieldErrors(issue, SchemaKeys);
    var status := Get(issue, "status");
    if !StatusKeyFound(ToText(status)) {
      errors := errors + [InvalidStatusMessage(status)];
    }
    assert errors == ValidationErrors(issue);
    result := if |errors| > 0 then Some(Join(errors, "; ")) else None;
    ValidationErrorsEmptyIff(issue);
    if result.Some? {
      ErrorsAreNonEmpty(issue);
      JoinNonEmpty(errors, "; ");
    }
  }

  /** A required field's message when it is falsy, nothing otherwise. */
  function Missing(issue: Record, field: string): seq<string> {
    if Truthy(Get(issue, field)) then [] else [MissingMessage(field)]
  }

  /**
   * The errors list spelled out: missing-field messages in schema order
   * (status, owner, created, title), then the status message, if any.
   */
  lemma ValidationErrorsExplicit(issue: Record)
    ensures ValidationErrors(issue)
         == Missing(issue, "status") + Missing(issue, "owner") + Missing(issue, "created")
          + Missing(issue, "title") + StatusErrors(issue)
  {
    var k := SchemaKeys;
    assert k[..1][..0] == [] && k[..2][..1] == k[..1] && k[..3][..2] == k[..2];
    assert k[..4][..3] == k[..3] && k[..5][..4] == k[..4] && k[..6][..5] == k[..5] && k[..6] == k;
    assert MissingFieldErrors(issue, k[..1]) == Missing(issue, "status");
    assert MissingFieldErrors(issue, k[..2]) == Missing(issue, "status") + Missing(issue, "owner");
    assert MissingFieldErrors(issue, k[..3]) == MissingFieldErrors(issue, k[..2]);
    assert MissingFieldErrors(issue, k[..4]) == MissingFieldErrors(issue, k[..3]) + Missing(issue, "created");
    assert MissingFieldErrors(issue, k[..5]) == MissingFieldErrors(issue, k[..4]);
    assert MissingFieldErrors(issue, k) == MissingFieldErrors(issue, k[..5]) + Missing(issue, "title");
  }

  /** `validateIssue` returns null exactly for a valid issue. */
  lemma ValidationErrorsEmptyIff(issue: Record)
    ensures ValidationErrors(issue) == [] <==> ValidIssue(issue)
    ensures ValidationResult(ValidationErrors(issue)).None? <==> ValidIssue(issue)
  {
    ValidationErrorsExplicit(issue);
  }

  /** Every message in the errors list is non-empty. */
  lemma ErrorsAreNonEmpty(issue: Record)
    ensures forall i :: 0 <= i < |ValidationErrors(issue)| ==> ValidationErrors(issue)[i] != ""
  {
    ValidationErrorsExplicit(issue);
  }

  /** A join whose first part is non-empty is non-empty. */
  lemma JoinNonEmpty(parts: seq<string>, separator: string)
    requires parts != [] && parts[0] != ""
    ensures Join(parts, separator) != ""
  {
  }

  /** A falsy mandatory field is reported by name. */
  lemma MissingFieldReported(issue: Record, field: string)
    requires field in {"status", "owner", "created", "title"}
    requires !Truthy(Get(issue, field))
    ensures MissingMessage(field) in ValidationErrors(issue)
  {
    ValidationErrorsExplicit(issue);
  }

  /** Distinct field names give distinct missing-field messages. */
  lemma MissingMessageInjective(a: string, b: string)
    requires MissingMessage(a) == MissingMessage(b)
    ensures a == b
  {
    var prefix := "Missing mandatory field: ";
    assert a == MissingMessage(a)[|prefix|..];
    assert b == MissingMessage(b)[|prefix|..];
  }

  /** The status message ends in a full stop. */
  lemma StatusMessageEndsInStop(issue: Record, m: string)
    requires m in StatusErrors(issue)
    ensures m != [] && m[|m| - 1] == '.'
  {
    var text := ToText(Get(issue, "status"));
    var tail := " is not a valid status.";
    assert m == text + tail;
    assert m[|m| - 1] == tail[|tail| - 1];
  }

  /**
   * A missing-field message for a schema field has one cause: that field is
   * mandatory and falsy. So `effort` and `completionDate` never produce one.
   */
  lemma MissingMessageHasCause(issue: Record, field: string)
    requires field in IssueFieldType
    requires MissingMessage(field) in ValidationErrors(issue)
    ensures IssueFieldType[field] == Required && !Truthy(Get(issue, field))
  {
    var m := MissingMessage(field);
    assert field != [] && m[|m| - 1] == field[|field| - 1];
    assert field[|field| - 1] != '.';
    if m in StatusErrors(issue) {
      StatusMessageEndsInStop(issue, m);
    }
    assert m !in StatusErrors(issue);
    ValidationErrorsExplicit(issue);
    forall f | f in {"status", "owner", "created", "title"} && m in Missing(issue, f)
      ensures f == field && !Truthy(Get(issue, f))
    {
      MissingMessageInjective(field, f);
    }
  }

  /** The optional fields never produce an error, whatever their value. */
  lemma OptionalFieldsNeverReported(issue: Record)
    ensures MissingMessage("effort") !in ValidationErrors(issue)
    ensures MissingMessage("completionDate") !in ValidationErrors(issue)
  {
    if MissingMessage("effort") in ValidationErrors(issue) {
      MissingMessageHasCause(issue, "effort");
    }
    if MissingMessage("completionDate") in ValidationErrors(issue) {
      MissingMessageHasCause(issue, "completionDate");
    }
  }

  /** A status outside the six gives the status message, last. */
  lemma InvalidStatusReportedLast(issue: Record)
    requires ToText(Get(issue, "status")) !in ValidStatuses
    ensures |ValidationErrors(issue)| > 0
    ensures ValidationErrors(issue)[|ValidationErrors(issue)| - 1] == InvalidStatusMessage(Get(issue, "status"))
  {
  }

  /** An issue without a status gets both messages: the missing field first, `undefined` last. */
  lemma MissingStatusReportedTwice(issue: Record)
    requires "status" !in issue
    ensures var errors := ValidationErrors(issue);
            |errors| >= 2 && errors[0] == "Missing mandatory field: status"
            && errors[|errors| - 1] == "undefined is not a valid status."
  {
    ValidationErrorsExplicit(issue);
  }

  /** No inherited name is one of the six statuses. */
  lemma InheritedNamesAreNotStatuses()
    ensures InheritedNames !! ValidStatuses
  {
  }

  /**
   * A status named after an inherited property (`toString`, `constructor`, ...)
   * passes the validator as written, though it is none of the six statuses.
   */
  lemma ValidateAsWrittenAcceptsInheritedStatus(issue: Record)
    requires Truthy(Get(issue, "owner")) && Truthy(Get(issue, "created")) && Truthy(Get(issue, "title"))
    requires Get(issue, "status").Some? && Get(issue, "status").value.Str?
    requires ToText(Get(issue, "status")) in InheritedNames
    ensures ValidationErrorsAsWritten(issue) == []
    ensures ValidationErrors(issue) == [InvalidStatusMessage(Get(issue, "status"))]
  {
    InheritedNamesAreNotStatuses();
    ValidationErrorsExplicit(issue);
    assert Truthy(Get(issue, "status"));
    assert MissingFieldErrors(issue, SchemaKeys) == [];
  }
}
