/**
 * The form field that subscribes a form's submitter to a MailChimp list.
 *
 * `GetValueFromData` is what runs when the form is submitted: unless the
 * field was not submitted or no list is chosen, it builds a subscriber from
 * the submission, creates it on the list, and, when the configuration asks
 * for it and the create call reported status 400, updates the existing
 * subscriber instead. `GetLists` reads the account's lists for the
 * configuration screen.
 */
module EditableMailChimpField {
  import opened Wrappers
  import opened Tags
  import opened MailChimp

  /** The submitted form data: field name to submitted value. */
  type Submission = map<string, string>

  /** One merge-field row: the form field it reads and the merge key it writes. */
  datatype MergeField = MergeField(FieldName: string, Value: string)

  /** The stored configuration of one signup field; `Name` is the field's own form name. */
  datatype Config = Config(
    Name: string,
    ListID: string,
    TagsToAssign: string,
    EmailField: string,
    FirstNameField: string,
    LastNameField: string,
    UpdateContact: bool,
    MergeFields: seq<MergeField>)

  /** What the field contributes to the submission: `false`, or a message. */
  datatype FieldValue = False | Text(text: string)

  const SUBSCRIBED := "Subscribed"
  const NOT_SUBSCRIBED := "Not subscribed"

  /** PHP's truth value of a string: only "" and "0" are false. */
  predicate Truthy(s: string)
  {
    s != "" && s != "0"
  }

  /** `$data[key]`: the submitted value, or `null` when the key is missing. */
  function Lookup(data: Submission, key: string): (v: Option<string>)
    ensures v.Some? <==> key in data
    ensures v.Some? ==> v.value == data[key]
  {
    if key in data then Some(data[key]) else None
  }

  /** The guard of the submission handler: the field was submitted and a list is chosen. */
  predicate WillSubscribe(data: Submission, cfg: Config)
  {
    cfg.Name in data && Truthy(cfg.ListID)
  }

  // ---------------------------------------------------------------------------
  // Tags
  // ---------------------------------------------------------------------------

  /** The tags to assign: the split of `TagsToAssign`, or none when it is empty. */
  function TagList(cfg: Config): (tags: seq<string>)
    ensures tags == PregSplit(cfg.TagsToAssign)
    ensures cfg.TagsToAssign == "" ==> tags == []
    ensures forall tag | tag in tags :: tag != "" && ',' !in tag
  {
    if cfg.TagsToAssign != "" then PregSplit(cfg.TagsToAssign) else []
  }

  // ---------------------------------------------------------------------------
  // Merge fields
  // ---------------------------------------------------------------------------

  /** Merge fields under construction: merge key to the submitted value (`None` is `null`). */
  type MergeMap = map<string, Option<string>>

  /** `FNAME` and `LNAME`, each only when its form field is configured. */
  function NameFields(data: Submission, cfg: Config): (m: MergeMap)
    ensures m.Keys <= {"FNAME", "LNAME"}
    ensures "FNAME" in m <==> Truthy(cfg.FirstNameField)
    ensures "LNAME" in m <==> Truthy(cfg.LastNameField)
    ensures "FNAME" in m ==> m["FNAME"] == Lookup(data, cfg.FirstNameField)
    ensures "LNAME" in m ==> m["LNAME"] == Lookup(data, cfg.LastNameField)
  {
    var first: MergeMap := if Truthy(cfg.FirstNameField) then map["FNAME" := Lookup(data, cfg.FirstNameField)] else map[];
    if Truthy(cfg.LastNameField) then first["LNAME" := Lookup(data, cfg.LastNameField)] else first
  }

  /** Row `row` writes merge key `key`: it targets that key and its form field was submitted. */
  predicate Writes(data: Submission, row: MergeField, key: string)
  {
    row.FieldName in data && row.Value == key
  }

  /** One merge-field row applied to `m`. */
  function WriteRow(m: MergeMap, data: Submission, row: MergeField): MergeMap
  {
    if row.FieldName in data then m[row.Value := Some(data[row.FieldName])] else m
  }

  /** The rows applied to `m` in order, the last row last. */
  function ApplyMergeFields(m: MergeMap, data: Submission, rows: seq<MergeField>): MergeMap
    decreases |rows|
  {
    if rows == [] then m
    else WriteRow(ApplyMergeFields(m, data, rows[..|rows| - 1]), data, rows[|rows| - 1])
  }

  /** The merge fields sent for a submission. */
  function MergeFieldsFor(data: Submission, cfg: Config): MergeMap
  {
    ApplyMergeFields(NameFields(data, cfg), data, cfg.MergeFields)
  }

  /** The last row that writes `key`, if any. */
  function LastWriter(data: Submission, rows: seq<MergeField>, key: string): (j: Option<nat>)
    decreases |rows|
    ensures j.Some? ==> j.value < |rows| && Writes(data, rows[j.value], key)
    ensures j.Some? ==> forall k | j.value < k < |rows| :: !Writes(data, rows[k], key)
    ensures j.None? ==> forall k | 0 <= k < |rows| :: !Writes(data, rows[k], key)
  {
    if rows == [] then None
    else if Writes(data, rows[|rows| - 1], key) then Some(|rows| - 1)
    else LastWriter(data, rows[..|rows| - 1], key)
  }

  /**
   * Last write wins: a key holds the value of the last row that writes it;
   * a key no row writes keeps its value from `base`, or stays absent.
   */
  lemma {:induction false} MergeFieldsLastWriteWins(base: MergeMap, data: Submission, rows: seq<MergeField>, key: string)
    decreases |rows|
    ensures key in ApplyMergeFields(base, data, rows) <==> key in base || LastWriter(data, rows, key).Some?
    ensures LastWriter(data, rows, key).Some? ==>
      ApplyMergeFields(base, data, rows)[key] == Some(data[rows[LastWriter(data, rows, key).value].FieldName])
    ensures LastWriter(data, rows, key).None? && key in base ==>
      ApplyMergeFields(base, data, rows)[key] == base[key]
  {
    if rows != [] {
      var init := rows[..|rows| - 1];
      MergeFieldsLastWriteWins(base, data, init, key);
      if !Writes(data, rows[|rows| - 1], key) {
        assert LastWriter(data, rows, key) == LastWriter(data, init, key);
        match LastWriter(data, init, key)
        case Some(j) => assert rows[j] == init[j];
        case None =>
      }
    }
  }

  /** A row that writes `FNAME` and is not followed by another such row overrides the first-name mapping. */
  lemma RowOverridesFirstName(data: Submission, cfg: Config, j: nat)
    requires j < |cfg.MergeFields| && Writes(data, cfg.MergeFields[j], "FNAME")
    requires forall k | j < k < |cfg.MergeFields| :: !Writes(data, cfg.MergeFields[k], "FNAME")
    ensures "FNAME" in MergeFieldsFor(data, cfg)
    ensures MergeFieldsFor(data, cfg)["FNAME"] == Some(data[cfg.MergeFields[j].FieldName])
  {
    var w := LastWriter(data, cfg.MergeFields, "FNAME");
    if w.value < j { } else if j < w.value { }
    MergeFieldsLastWriteWins(NameFields(data, cfg), data, cfg.MergeFields, "FNAME");
  }

  /** The rows whose form field was submitted, in order. */
  function Submitted(data: Submission, rows: seq<MergeField>): (r: seq<MergeField>)
    decreases |rows|
    ensures forall row | row in r :: row in rows && row.FieldName in data
    ensures forall row :: multiset(r)[row] == if row.FieldName in data then multiset(rows)[row] else 0
  {
    if rows == [] then []
    else
      var last := rows[|rows| - 1];
      assert rows == rows[..|rows| - 1] + [last];
      Submitted(data, rows[..|rows| - 1]) + (if last.FieldName in data then [last] else [])
  }

  /** Rows whose form field is absent from the submission change nothing. */
  lemma {:induction false} AbsentRowsIgnored(m: MergeMap, data: Submission, rows: seq<MergeField>)
    decreases |rows|
    ensures ApplyMergeFields(m, data, rows) == ApplyMergeFields(m, data, Submitted(data, rows))
  {
    if rows != [] {
      var init := rows[..|rows| - 1];
      var last := rows[|rows| - 1];
      AbsentRowsIgnored(m, data, init);
      var s := Submitted(data, init);
      assert ApplyMergeFields(m, data, rows) == WriteRow(ApplyMergeFields(m, data, init), data, last);
      if last.FieldName in data {
        assert Submitted(data, rows) == s + [last];
        ApplySnoc(m, data, s, last);
      } else {
        assert Submitted(data, rows) == s + [];
        assert s + [] == s;
      }
    }
  }

  /** Applying one more row is one more write. */
  lemma ApplySnoc(m: MergeMap, data: Submission, rows: seq<MergeField>, row: MergeField)
    ensures ApplyMergeFields(m, data, rows + [row]) == WriteRow(ApplyMergeFields(m, data, rows), data, row)
  {
    assert (rows + [row])[..|rows|] == rows;
  }

  // ---------------------------------------------------------------------------
  // Payloads
  // ---------------------------------------------------------------------------

  /** A PHP string-or-null as JSON. */
  function OrNull(v: Option<string>): Json
  {
    match v
    case Some(s) => JString(s)
    case None => JNull
  }

  /** A list of strings as a JSON array. */
  function JStrings(xs: seq<string>): Json
  {
    JList(seq(|xs|, i requires 0 <= i < |xs| => JString(xs[i])))
  }

  /** The merge fields as a JSON object. */
  function MergeObject(m: MergeMap): Json
  {
    JObject(map key | key in m :: OrNull(m[key]))
  }

  /** The payload of the create call. */
  function CreatePayload(data: Submission, cfg: Config): Payload
  {
    var tags := TagList(cfg);
    var p := map[
      "email_address" := OrNull(Lookup(data, cfg.EmailField)),
      "status" := JString("subscribed"),
      "tags" := JList([]),
      "merge_fields" := MergeObject(MergeFieldsFor(data, cfg))];
    if tags != [] then p["tags" := JStrings(tags)] else p
  }

  /** The payload of the update call. */
  function UpdatePayload(data: Submission, cfg: Config): Payload
  {
    var tags := TagList(cfg);
    var p := map["merge_fields" := MergeObject(MergeFieldsFor(data, cfg))];
    if tags != [] then p["tags" := JStrings(tags)] else p
  }

  /**
   * The create payload has exactly four keys: the submitted address (or
   * `null`), the fixed status, the tags (an empty list when there are none)
   * and the merge fields.
   */
  lemma CreatePayloadContents(data: Submission, cfg: Config)
    ensures CreatePayload(data, cfg).Keys == {"email_address", "status", "tags", "merge_fields"}
    ensures CreatePayload(data, cfg)["email_address"] == OrNull(Lookup(data, cfg.EmailField))
    ensures CreatePayload(data, cfg)["status"] == JString("subscribed")
    ensures CreatePayload(data, cfg)["tags"] == JStrings(PregSplit(cfg.TagsToAssign))
    ensures CreatePayload(data, cfg)["merge_fields"] == MergeObject(MergeFieldsFor(data, cfg))
  {
    assert JStrings([]) == JList([]);
  }

  /**
   * The update payload never carries the address or the status; it carries
   * the same merge fields as the create payload, and the same tags exactly
   * when there are any.
   */
  lemma UpdatePayloadContents(data: Submission, cfg: Config)
    ensures "email_address" !in UpdatePayload(data, cfg) && "status" !in UpdatePayload(data, cfg)
    ensures UpdatePayload(data, cfg).Keys ==
      if PregSplit(cfg.TagsToAssign) == [] then {"merge_fields"} else {"merge_fields", "tags"}
    ensures UpdatePayload(data, cfg)["merge_fields"] == CreatePayload(data, cfg)["merge_fields"]
    ensures "tags" in UpdatePayload(data, cfg) ==> UpdatePayload(data, cfg)["tags"] == CreatePayload(data, cfg)["tags"]
  {
  }

  /** The update payload is the create payload less the address and the status, and less empty tags. */
  lemma UpdateIsCreateWithoutIdentity(data: Submission, cfg: Config)
    ensures UpdatePayload(data, cfg) ==
      CreatePayload(data, cfg) - {"email_address", "status"} - (if TagList(cfg) == [] then {"tags"} else {})
  {
  }

  /** A submission with an address and a first name, no tags and no merge-field rows. */
  lemma HappyPathPayload()
    ensures var data := map["Signup" := "1", "Email" := "a@example.com", "First" := "Ann"];
            var cfg := Config("Signup", "L1", "", "Email", "First", "", false, []);
            WillSubscribe(data, cfg) &&
            CreatePayload(data, cfg) == map[
              "email_address" := JString("a@example.com"),
              "status" := JString("subscribed"),
              "tags" := JList([]),
              "merge_fields" := JObject(map["FNAME" := JString("Ann")])]
  {
    var data := map["Signup" := "1", "Email" := "a@example.com", "First" := "Ann"];
    var cfg := Config("Signup", "L1", "", "Email", "First", "", false, []);
    assert MergeFieldsFor(data, cfg) == map["FNAME" := Some("Ann")];
    assert MergeObject(map["FNAME" := Some("Ann")]) == JObject(map["FNAME" := JString("Ann")]);
  }

  // ---------------------------------------------------------------------------
  // The submission handler
  // ---------------------------------------------------------------------------

  function MembersPath(listId: string): string
  {
    "lists/" + listId + "/members"
  }

  function MemberPath(listId: string, subscriberHash: string): string
  {
    MembersPath(listId) + "/" + subscriberHash
  }

  /** PHP's `$x == 400` for a decoded JSON value. */
  predicate IsStatus400(v: Json)
  {
    match v
    case JInt(i) => i == 400
    case JString(s) => s == "400"
    case JBool(b) => b
    case _ => false
  }

  /** The create response carries `status` 400. */
  predicate IsConflict(body: Payload)
  {
    "status" in body && IsStatus400(body["status"])
  }

  /** The e-mail address as the string the subscriber hash is computed from (`null` reads as ""). */
  function EmailString(data: Submission, cfg: Config): string
  {
    Lookup(data, cfg.EmailField).GetOr("")
  }

  /**
   * The merge fields of a submission, built as the handler builds them: the
   * name mapping first, then every submitted row in order.
   */
  method BuildMergeFields(data: Submission, cfg: Config) returns (mergeFields: MergeMap)
    ensures mergeFields == MergeFieldsFor(data, cfg)
  {
    mergeFields := map[];
    if Truthy(cfg.FirstNameField) {
      mergeFields := mergeFields["FNAME" := Lookup(data, cfg.FirstNameField)];
    }
    if Truthy(cfg.LastNameField) {
      mergeFields := mergeFields["LNAME" := Lookup(data, cfg.LastNameField)];
    }
    var rows := cfg.MergeFields;
    for i := 0 to |rows|
      invariant mergeFields == ApplyMergeFields(NameFields(data, cfg), data, rows[..i])
    {
      assert rows[..i + 1][..i] == rows[..i];
      var row := rows[i];
      if row.FieldName in data {
        mergeFields := mergeFields[row.Value := Some(data[row.FieldName])];
      }
    }
    assert rows[..|rows|] == rows;
  }

  /**
   * Handles one submission. `server` answers the API calls; `subscriberHash`
   * is the client library's digest of an e-mail address. Returns the field's
   * value and the calls made, in order.
   */
  method GetValueFromData(data: Submission, cfg: Config, server: Call -> Reply, subscriberHash: string -> string)
    returns (value: FieldValue, calls: seq<Call>)
    ensures !WillSubscribe(data, cfg) ==> value == False && calls == []
    ensures WillSubscribe(data, cfg) ==> 1 <= |calls| <= 2
    ensures WillSubscribe(data, cfg) ==> calls[0] == Post(MembersPath(cfg.ListID), CreatePayload(data, cfg))
    ensures WillSubscribe(data, cfg) ==> (|calls| == 2 <==> cfg.UpdateContact && IsConflict(server(calls[0]).body))
    ensures |calls| == 2 ==>
      calls[1] == Patch(MemberPath(cfg.ListID, subscriberHash(EmailString(data, cfg))), UpdatePayload(data, cfg))
    ensures WillSubscribe(data, cfg) ==>
      value == if server(calls[|calls| - 1]).success then Text(SUBSCRIBED) else Text(NOT_SUBSCRIBED)
  {
    if !(cfg.Name in data && Truthy(cfg.ListID)) {
      return False, [];
    }
    var mailChimp := new Client(server);
    var listId := cfg.ListID;

    var tags: seq<string> := [];
    if cfg.TagsToAssign != "" {
      tags := PregSplit(cfg.TagsToAssign);
    }

    var emailAddress := Lookup(data, cfg.EmailField);

    var mergeFields := BuildMergeFields(data, cfg);

    var payload := map[
      "email_address" := OrNull(emailAddress),
      "status" := JString("subscribed"),
      "tags" := JList([]),
      "merge_fields" := MergeObject(mergeFields)];
    if tags != [] {
      payload := payload["tags" := JStrings(tags)];
    }

    var result := mailChimp.Post(MembersPath(listId), payload);

    if cfg.UpdateContact && "status" in result && IsStatus400(result["status"]) {
      var hash := subscriberHash(emailAddress.GetOr(""));
      payload := map["merge_fields" := MergeObject(mergeFields)];
      if tags != [] {
        payload := payload["tags" := JStrings(tags)];
      }
      result := mailChimp.Patch(MemberPath(listId, hash), payload);
    }

    if mailChimp.Success() {
      value := Text(SUBSCRIBED);
    } else {
      value := Text(NOT_SUBSCRIBED);
    }
    calls := mailChimp.log;
  }

  // ---------------------------------------------------------------------------
  // The lists offered on the configuration screen
  // ---------------------------------------------------------------------------

  /** One list as offered for selection. */
  datatype ListOption = ListOption(ListID: Json, Name: Json)

  /** The `lists` array of a response body; no lists when it is missing or not an array. */
  function ListEntries(body: Payload): seq<Json>
  {
    if "lists" in body && body["lists"].JList? then body["lists"].items else []
  }

  /** `$entry[key]`: the member of a JSON object, `null` when there is none. */
  function Member(entry: Json, key: string): Json
  {
    if entry.JObject? && key in entry.fields then entry.fields[key] else JNull
  }

  /** The account's lists, in the order the API returns them; none when the request fails. */
  method GetLists(server: Call -> Reply) returns (lists: seq<ListOption>)
    ensures !server(Get("lists")).success ==> lists == []
    ensures server(Get("lists")).success ==>
      |lists| == |ListEntries(server(Get("lists")).body)|
    ensures server(Get("lists")).success ==>
      forall i | 0 <= i < |lists| ::
        lists[i].ListID == Member(ListEntries(server(Get("lists")).body)[i], "id") &&
        lists[i].Name == Member(ListEntries(server(Get("lists")).body)[i], "name")
  {
    var mailChimp := new Client(server);
    var result := mailChimp.Get("lists");
    lists := [];
    if mailChimp.Success() {
      var entries := ListEntries(result);
      for i := 0 to |entries|
        invariant |lists| == i
        invariant forall k | 0 <= k < i ::
          lists[k].ListID == Member(entries[k], "id") && lists[k].Name == Member(entries[k], "name")
      {
        var list := entries[i];
        lists := lists + [ListOption(Member(list, "id"), Member(list, "name"))];
      }
    }
  }
}
