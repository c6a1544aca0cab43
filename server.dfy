/**
 * The two `/api/issues` handlers: the list handler turns query parameters
 * into a data-store filter and wraps what the store returns, and the create
 * handler completes, validates and allow-lists a new issue before it is
 * inserted. The data store is not modelled: its answers are parameters and
 * the insert is a result.
 */
module Server {
  import opened Wrappers
  import opened Decimal
  import opened Values
  import opened Issue

  /** The parsed query string of a request: parameter name to text. */
  type Query = map<string, string>

  /** `req.query[name]` is truthy: present and not the empty string. */
  predicate ParamSet(query: Query, name: string) {
    name in query && query[name] != ""
  }

  /** One entry of a filter: an equality test, or a range object with `$lte`/`$gte` bounds. */
  datatype FilterEntry = Equals(value: string) | Range(bounds: map<string, Parsed>)

  /** A filter object: field name to entry. */
  type Filter = map<string, FilterEntry>

  /** Builds the filter of `GET /api/issues` by successive conditional assignments. */
  method BuildFilter(query: Query) returns (filter: Filter)
    ensures filter.Keys <= {"status", "effort"}
    ensures "status" in filter <==> ParamSet(query, "status")
    ensures "status" in filter ==> filter["status"] == Equals(query["status"])
    ensures "effort" in filter <==> ParamSet(query, "effort_lte") || ParamSet(query, "effort_gte")
    ensures "effort" in filter ==> filter["effort"].Range? && filter["effort"].bounds.Keys <= {"$lte", "$gte"}
    ensures "effort" in filter ==>
              && ("$lte" in filter["effort"].bounds <==> ParamSet(query, "effort_lte"))
              && ("$gte" in filter["effort"].bounds <==> ParamSet(query, "effort_gte"))
    ensures "effort" in filter && "$lte" in filter["effort"].bounds ==>
              filter["effort"].bounds["$lte"] == ParseInt(query["effort_lte"])
    ensures "effort" in filter && "$gte" in filter["effort"].bounds ==>
              filter["effort"].bounds["$gte"] == ParseInt(query["effort_gte"])
    ensures "effort" in filter && "$lte" in filter["effort"].bounds && IsDigits(query["effort_lte"]) ==>
              filter["effort"].bounds["$lte"] == Int(DigitsValue(query["effort_lte"]))
    ensures "effort" in filter && "$gte" in filter["effort"].bounds && IsDigits(query["effort_gte"]) ==>
              filter["effort"].bounds["$gte"] == Int(DigitsValue(query["effort_gte"]))
  {
    filter := map[];
    if ParamSet(query, "status") {
      filter := filter["status" := Equals(query["status"])];
    }
    if ParamSet(query, "effort_lte") || ParamSet(query, "effort_gte") {
      filter := filter["effort" := Range(map[])];
    }
    if ParamSet(query, "effort_lte") {
      if IsDigits(query["effort_lte"]) {
        ParseIntDigits(query["effort_lte"]);
      }
      var effort := filter["effort"].bounds;
      filter := filter["effort" := Range(effort["$lte" := ParseInt(query["effort_lte"])])];
    }
    if ParamSet(query, "effort_gte") {
      if IsDigits(query["effort_gte"]) {
        ParseIntDigits(query["effort_gte"]);
      }
      var effort := filter["effort"].bounds;
      filter := filter["effort" := Range(effort["$gte" := ParseInt(query["effort_gte"])])];
    }
  }

  datatype Metadata = Metadata(totalCount: nat)

  /** The JSON body of a response. */
  datatype Body =
    | Listing(metadata: Metadata, records: seq<Record>)
    | Message(message: string)

  /** An HTTP response: status code and JSON body. */
  datatype Response = Response(status: nat, body: Body)

  /** The reply to a failed data-store call. */
  function InternalError(error: string): (r: Response)
    ensures r.status == 500 && r.body.Message?
    ensures |r.body.message| > |error| && r.body.message[|r.body.message| - |error|..] == error
  {
    Response(500, Message("Internal Server Error: " + error))
  }

  /**
   * The reply of `GET /api/issues` once the store has answered: the records
   * with their count, or an internal error.
   */
  function ListResponse(found: Result<seq<Record>, string>): (r: Response)
    ensures found.Success? ==> r.status == 200 && r.body.Listing? && r.body.records == found.value
    ensures r.body.Listing? ==> r.body.metadata.totalCount == |r.body.records|
    ensures found.Failure? ==> r == InternalError(found.error)
  {
    match found
    case Success(issues) => Response(200, Listing(Metadata(|issues|), issues))
    case Failure(error) => InternalError(error)
  }

  /** What `POST /api/issues` does with a body: reply with an error, or insert a document. */
  datatype PostOutcome = Rejected(response: Response) | Insert(document: Record)

  /**
   * The body after the handler's in-place updates: `created` set to the
   * timestamp, and a falsy `status` replaced by "New".
   */
  function Prepared(body: Record, created: Value): Record {
    var stamped := body["created" := created];
    if Truthy(Get(stamped, "status")) then stamped else stamped["status" := Str("New")]
  }

  /**
   * `POST /api/issues`: stamp the creation time (`created`, an object such as
   * a Date), default the status, validate, then reject with 422 or insert the
   * cleaned-up issue.
   */
  method CreateIssue(body: Record, created: Value) returns (outcome: PostOutcome)
    requires created.Obj?
    ensures outcome.Rejected? <==> !ValidIssue(Prepared(body, created))
    ensures outcome.Rejected? ==>
              outcome.response == Response(422, Message("Invalid request: " + Join(ValidationErrors(Prepared(body, created)), "; ")))
    ensures outcome.Insert? ==> outcome.document == Cleaned(Prepared(body, created))
  {
    var newIssue := body;
    newIssue := newIssue["created" := created];
    if !Truthy(Get(newIssue, "status")) {
      newIssue := newIssue["status" := Str("New")];
    }
    var errors := ValidateIssue(newIssue);
    if errors.Some? {
      outcome := Rejected(Response(422, Message("Invalid request: " + errors.value)));
      return;
    }
    var document := CleanupIssue(newIssue);
    outcome := Insert(document);
  }

  /**
   * The handler's updates: `created` is the timestamp, a falsy status becomes
   * "New", a truthy one is kept, and every other field is untouched.
   */
  lemma PreparedFields(body: Record, created: Value)
    ensures Get(Prepared(body, created), "created") == Some(created)
    ensures Get(Prepared(body, created), "status")
         == if Truthy(Get(body, "status")) then Get(body, "status") else Some(Str("New"))
    ensures Prepared(body, created).Keys == body.Keys + {"created", "status"}
         || (Truthy(Get(body, "status")) && Prepared(body, created).Keys == body.Keys + {"created"})
    ensures forall field :: field in body && field != "created" && field != "status" ==>
              field in Prepared(body, created) && Prepared(body, created)[field] == body[field]
  {
  }

  /** After the updates, neither `status` nor `created` is ever reported missing. */
  lemma PreparedNeverMissesStatusOrCreated(body: Record, created: Value)
    requires created.Obj?
    ensures MissingMessage("status") !in ValidationErrors(Prepared(body, created))
    ensures MissingMessage("created") !in ValidationErrors(Prepared(body, created))
  {
    var issue := Prepared(body, created);
    PreparedFields(body, created);
    if MissingMessage("status") in ValidationErrors(issue) {
      MissingMessageHasCause(issue, "status");
    }
    if MissingMessage("created") in ValidationErrors(issue) {
      MissingMessageHasCause(issue, "created");
    }
  }

  /**
   * A body with a truthy owner and title whose status is falsy or one of the
   * six is accepted, and the inserted status is "New" when it was falsy.
   */
  lemma AcceptedWhenOwnerAndTitleGiven(body: Record, created: Value)
    requires created.Obj?
    requires Truthy(Get(body, "owner")) && Truthy(Get(body, "title"))
    requires !Truthy(Get(body, "status")) || ToText(Get(body, "status")) in ValidStatuses
    ensures ValidIssue(Prepared(body, created))
    ensures !Truthy(Get(body, "status")) ==> Cleaned(Prepared(body, created))["status"] == Str("New")
  {
    PreparedFields(body, created);
  }

  /** The inserted document passes the validator again and holds only schema fields. */
  lemma InsertedDocumentIsValid(body: Record, created: Value)
    requires ValidIssue(Prepared(body, created))
    ensures ValidIssue(Cleaned(Prepared(body, created)))
    ensures ValidationErrors(Cleaned(Prepared(body, created))) == []
    ensures Cleaned(Prepared(body, created)).Keys <= IssueFieldType.Keys
  {
    var issue := Prepared(body, created);
    assert forall f :: f in IssueFieldType ==> Get(Cleaned(issue), f) == Get(issue, f);
    ValidationErrorsEmptyIff(Cleaned(issue));
  }

  /**
   * The create handler with `validateIssue` and `cleanupIssue` as written,
   * whose lookups also find the names inherited from `Object.prototype`.
   */
  function CreateIssueAsWritten(body: Record, created: Value): PostOutcome {
    var issue := Prepared(body, created);
    var errors := ValidationErrorsAsWritten(issue);
    if errors != [] then Rejected(Response(422, Message("Invalid request: " + Join(errors, "; "))))
    else Insert(CleanedAsWritten(issue))
  }

  /**
   * As written, a body with a truthy owner and title and a status named after
   * an inherited property is inserted with that status, while the intended
   * handler `CreateIssue` rejects it.
   */
  lemma CreateAsWrittenInsertsInheritedStatus(body: Record, created: Value)
    requires created.Obj?
    requires Truthy(Get(body, "owner")) && Truthy(Get(body, "title"))
    requires "status" in body && body["status"].Str? && body["status"].text in InheritedNames
    ensures CreateIssueAsWritten(body, created).Insert?
    ensures CreateIssueAsWritten(body, created).document["status"] == body["status"]
    ensures !ValidIssue(Prepared(body, created))
  {
    var issue := Prepared(body, created);
    PreparedFields(body, created);
    assert Truthy(Get(body, "status"));
    ValidateAsWrittenAcceptsInheritedStatus(issue);
    InheritedNamesAreNotStatuses();
  }

  /** As written, every body field named after an inherited property reaches the inserted document unchanged. */
  lemma CreateAsWrittenKeepsInheritedFields(body: Record, created: Value)
    requires CreateIssueAsWritten(body, created).Insert?
    ensures forall field :: field in body && field in InheritedNames ==>
              field in CreateIssueAsWritten(body, created).document
              && CreateIssueAsWritten(body, created).document[field] == body[field]
  {
    PreparedFields(body, created);
    CleanupAsWrittenKeepsInheritedField(Prepared(body, created));
  }
}
