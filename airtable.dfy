/**
 * The Airtable side of the service: looking a project up by job number,
 * creating a row in the Updates table, and patching a Projects row.
 *
 * The HTTP calls themselves are not modelled. Each function takes what the
 * remote end gave back as a parameter and returns, besides its result,
 * the requests it would have sent.
 */
module Airtable {
  import opened Wrappers
  import opened Json
  import opened WorkingDays

  /** The outcome of the Projects query: a failed call (HTTP error or undecodable body) or the decoded body. */
  datatype Fetch = FetchFailed | Fetched(body: Json)

  /** A project as `get_project_by_job_number` returns it. */
  datatype Project = Project(
    recordId: Json,
    jobNumber: Json,
    jobName: Json,
    clientName: Json,
    stage: Json,
    status: Json,
    round: Json,
    withClient: Json,
    teamsChannelId: Json)

  /** The "Update due" field of a new Updates row: the caller's value, or the computed default date. */
  datatype Due = GivenDue(value: Json) | DefaultDue(date: Date)

  /** The fields of a new row in the Updates table. */
  datatype UpdateRow = UpdateRow(projectLink: seq<Json>, update: Json, updatedOn: Date, updateDue: Due)

  /** A request sent to Airtable. */
  datatype Request =
    | QueryProjects(jobNumber: Json)
    | CreateUpdateRecord(row: UpdateRow)
    | PatchProject(recordId: Json, fields: map<string, Json>)

  /** What a write operation returns, and the requests it sent. */
  datatype Write = Write(ok: bool, requests: seq<Request>)

  // ---------------------------------------------------------------------
  // get_project_by_job_number
  // ---------------------------------------------------------------------

  /**
   * `records[0]` of the decoded body, when it is a record dict. Every other
   * case returns `None`: a body that is not a dict (`.get` raises), a falsy
   * or missing `records`, and a `records` that cannot be indexed by 0 or
   * whose first element cannot be indexed by a string (these raise, and the
   * exception is caught).
   */
  function FirstRecord(body: Json): (r: Option<map<string, Json>>)
    ensures r.Some? ==> body.JObject? && "records" in body.fields
    ensures r.Some? ==> body.fields["records"].JArray? && |body.fields["records"].items| > 0
    ensures r.Some? ==> body.fields["records"].items[0] == JObject(r.value)
  {
    if !body.JObject? then None
    else
      var records := Get(body.fields, "records", JArray([]));
      if !Truthy(records) then None
      else if records.JArray? && records.items[0].JObject? then Some(records.items[0].fields)
      else None
  }

  /** `fields.get('Client', '')`, with a list replaced by its first element or `''`. */
  function ClientName(fields: map<string, Json>): (r: Json)
    ensures "Client" !in fields ==> r == JString("")
    ensures "Client" in fields && !fields["Client"].JArray? ==> r == fields["Client"]
    ensures "Client" in fields && fields["Client"] == JArray([]) ==> r == JString("")
    ensures "Client" in fields && fields["Client"].JArray? && fields["Client"].items != [] ==> r == fields["Client"].items[0]
  {
    var client := Get(fields, "Client", JString(""));
    if client.JArray? then (if client.items != [] then client.items[0] else JString("")) else client
  }

  /** `fields.get('Round', 0) or 0`. */
  function RoundOf(fields: map<string, Json>): (r: Json)
    ensures Truthy(r) || r == JInt(0)
    ensures "Round" in fields && Truthy(fields["Round"]) ==> r == fields["Round"]
    ensures !("Round" in fields && Truthy(fields["Round"])) ==> r == JInt(0)
  {
    var round := Get(fields, "Round", JInt(0));
    if Truthy(round) then round else JInt(0)
  }

  /**
   * `p` is the project built from a record with this id and these fields:
   * every field present is copied (the client through `ClientName`, the
   * round through `RoundOf`) and every field missing takes its default.
   */
  predicate NormalisedFrom(p: Project, id: Json, fields: map<string, Json>, jobNumber: Json) {
    && p.recordId == id
    && p.jobNumber == (if "Job Number" in fields then fields["Job Number"] else jobNumber)
    && p.jobName == (if "Project Name" in fields then fields["Project Name"] else JString(""))
    && p.clientName == ClientName(fields)
    && p.stage == (if "Stage" in fields then fields["Stage"] else JString(""))
    && p.status == (if "Status" in fields then fields["Status"] else JString(""))
    && p.round == RoundOf(fields)
    && p.withClient == (if "With Client?" in fields then fields["With Client?"] else JBool(false))
    && p.teamsChannelId == (if "Teams Channel ID" in fields then fields["Teams Channel ID"] else JNull)
  }

  /** The normalised project built from one record, or `None` where `record['fields']` or `record['id']` raises. */
  function Normalise(record: map<string, Json>, jobNumber: Json): (r: Option<Project>)
    ensures r.Some? <==> "fields" in record && record["fields"].JObject? && "id" in record
    ensures r.Some? ==> NormalisedFrom(r.value, record["id"], record["fields"].fields, jobNumber)
  {
    if "fields" !in record || !record["fields"].JObject? || "id" !in record then None
    else
      var fields := record["fields"].fields;
      Some(Project(
        recordId := record["id"],
        jobNumber := Get(fields, "Job Number", jobNumber),
        jobName := Get(fields, "Project Name", JString("")),
        clientName := ClientName(fields),
        stage := Get(fields, "Stage", JString("")),
        status := Get(fields, "Status", JString("")),
        round := RoundOf(fields),
        withClient := Get(fields, "With Client?", JBool(false)),
        teamsChannelId := Get(fields, "Teams Channel ID", JNull)))
  }

  /**
   * `get_project_by_job_number(job_number)`, given whether the API key is
   * configured and what the Projects query returned.
   */
  function LookupProject(hasKey: bool, jobNumber: Json, fetch: Fetch): (r: Option<Project>)
    ensures r.Some? ==> hasKey && fetch.Fetched? && FirstRecord(fetch.body).Some?
    ensures r.Some? ==> Truthy(r.value.round) || r.value.round == JInt(0)
  {
    if !hasKey then None
    else match fetch
      case FetchFailed => None
      case Fetched(body) =>
        match FirstRecord(body)
        case None => None
        case Some(record) => Normalise(record, jobNumber)
  }

  /** The requests `get_project_by_job_number` sends: one query, unless the key is missing. */
  function LookupRequests(hasKey: bool, jobNumber: Json): (rs: seq<Request>)
    ensures |rs| <= 1
    ensures rs != [] <==> hasKey
    ensures forall q :: q in rs ==> q == QueryProjects(jobNumber)
  {
    if hasKey then [QueryProjects(jobNumber)] else []
  }

  /** A decoded response whose `records` list is the given one. */
  function ListBody(records: seq<Json>): Json {
    JObject(map["records" := JArray(records)])
  }

  /** The first record of a list body is the list's first element, when that is a dict. */
  lemma FirstRecordOfList(records: seq<Json>)
    ensures FirstRecord(ListBody(records)) == if records != [] && records[0].JObject? then Some(records[0].fields) else None
  {
    var body := map["records" := JArray(records)];
    assert Get(body, "records", JArray([])) == JArray(records);
  }

  /** Without an API key, or with an empty record list, the lookup finds nothing. */
  lemma LookupNothing(hasKey: bool, jobNumber: Json, body: map<string, Json>)
    requires !hasKey || "records" !in body || !Truthy(body["records"])
    ensures LookupProject(hasKey, jobNumber, Fetched(JObject(body))) == None
  {
  }

  /** Only the first record counts: the records after it are never looked at. */
  lemma FirstRecordWins(hasKey: bool, jobNumber: Json, record: Json, rest: seq<Json>)
    ensures LookupProject(hasKey, jobNumber, Fetched(ListBody([record] + rest)))
         == LookupProject(hasKey, jobNumber, Fetched(ListBody([record])))
  {
    FirstRecordOfList([record] + rest);
    FirstRecordOfList([record]);
  }

  /**
   * Whatever else the body and the record carry (an `offset`, a
   * `createdTime`), a first record with an id and a fields dict gives the
   * project built from them, with the defaults for the fields it leaves out.
   */
  lemma MissingFieldsDefault(jobNumber: Json, body: Json, record: map<string, Json>, fields: map<string, Json>)
    requires FirstRecord(body) == Some(record)
    requires "id" in record && "fields" in record && record["fields"] == JObject(fields)
    ensures LookupProject(true, jobNumber, Fetched(body)).Some?
    ensures var p := LookupProject(true, jobNumber, Fetched(body)).value;
      && NormalisedFrom(p, record["id"], fields, jobNumber)
      && ("Job Number" !in fields ==> p.jobNumber == jobNumber)
      && ("Project Name" !in fields ==> p.jobName == JString(""))
      && ("Client" !in fields ==> p.clientName == JString(""))
      && ("Stage" !in fields ==> p.stage == JString(""))
      && ("Status" !in fields ==> p.status == JString(""))
      && (!("Round" in fields && Truthy(fields["Round"])) ==> p.round == JInt(0))
      && ("With Client?" !in fields ==> p.withClient == JBool(false))
      && ("Teams Channel ID" !in fields ==> p.teamsChannelId == JNull)
  {
  }

  /** A project is in normal form when the lookup could have produced it. */
  predicate NormalForm(p: Project) {
    !p.clientName.JArray? && (Truthy(p.round) || p.round == JInt(0))
  }

  /** The Airtable record a normal-form project is read back from. */
  function RecordOf(p: Project): Json {
    JObject(map[
      "id" := p.recordId,
      "fields" := JObject(map[
        "Job Number" := p.jobNumber,
        "Project Name" := p.jobName,
        "Client" := p.clientName,
        "Stage" := p.stage,
        "Status" := p.status,
        "Round" := p.round,
        "With Client?" := p.withClient,
        "Teams Channel ID" := p.teamsChannelId])])
  }

  /** Looking up a project whose record carries every field gives the project back, whatever follows it. */
  lemma LookupRecordOf(p: Project, jobNumber: Json, rest: seq<Json>)
    requires NormalForm(p)
    ensures LookupProject(true, jobNumber, Fetched(ListBody([RecordOf(p)] + rest))) == Some(p)
  {
    FirstRecordOfList([RecordOf(p)] + rest);
    NormaliseRecordOf(p, jobNumber);
  }

  /** Normalising the record of a normal-form project gives the project. */
  lemma NormaliseRecordOf(p: Project, jobNumber: Json)
    requires NormalForm(p)
    ensures Normalise(RecordOf(p).fields, jobNumber) == Some(p)
  {
    var fields := RecordOf(p).fields["fields"].fields;
    assert ClientName(fields) == p.clientName;
    assert RoundOf(fields) == p.round;
  }

  // ---------------------------------------------------------------------
  // update_project_fields: the whitelist filter
  // ---------------------------------------------------------------------

  /** `field_mapping`: the analysis key and the Airtable field it is written to. */
  const FieldMapping: seq<(string, string)> :=
    [("Stage", "Stage"), ("Status", "Status"), ("Live Date", "Live Date"), ("With Client?", "With Client?")]

  /** The analysis keys a project patch may carry. */
  const PatchableKeys: set<string> := {"Stage", "Status", "Live Date", "With Client?"}

  /** The keys of the first `i` entries of the mapping. */
  function MappedKeys(i: nat): set<string>
    requires i <= |FieldMapping|
  {
    set j | 0 <= j < i :: FieldMapping[j].0
  }

  /** The whitelist is exactly the keys of the mapping. */
  lemma MappedKeysAll()
    ensures MappedKeys(|FieldMapping|) == PatchableKeys
  {
    var m := MappedKeys(|FieldMapping|);
    assert FieldMapping[0].0 in m && FieldMapping[1].0 in m && FieldMapping[2].0 in m && FieldMapping[3].0 in m;
    forall k | k in m
      ensures k in PatchableKeys
    {
      var j :| 0 <= j < |FieldMapping| && FieldMapping[j].0 == k;
      assert j == 0 || j == 1 || j == 2 || j == 3;
    }
  }

  /** The reference definition of the patch: the whitelisted keys that are present with a non-null value. */
  function ProjectPatch(updates: map<string, Json>): (r: map<string, Json>)
    ensures r.Keys <= PatchableKeys
    ensures forall k :: k in r ==> k in updates && r[k] == updates[k] && r[k] != JNull
    ensures forall k :: k in PatchableKeys && k in updates && updates[k] != JNull ==> k in r
  {
    map k | k in updates && k in PatchableKeys && updates[k] != JNull :: updates[k]
  }

  /**
   * The loop of `update_project_fields` that fills `update_fields`: for
   * each mapped key present in `updates` with a value that is not None,
   * copy the value to the mapped Airtable field.
   */
  method BuildUpdateFields(updates: map<string, Json>) returns (fields: map<string, Json>)
    ensures fields == ProjectPatch(updates)
    ensures fields.Keys <= PatchableKeys
    ensures forall k :: k in fields <==> k in PatchableKeys && k in updates && updates[k] != JNull
    ensures forall k :: k in fields ==> fields[k] == updates[k]
  {
    fields := map[];
    for i := 0 to |FieldMapping|
      invariant fields == map k | k in updates && k in MappedKeys(i) && updates[k] != JNull :: updates[k]
    {
      var (key, airtableField) := FieldMapping[i];
      assert key == airtableField;
      assert MappedKeys(i + 1) == MappedKeys(i) + {key};
      if key in updates && updates[key] != JNull {
        fields := fields[airtableField := updates[key]];
      }
    }
    MappedKeysAll();
  }

  /** Filtering twice is filtering once. */
  lemma ProjectPatchIdempotent(updates: map<string, Json>)
    ensures ProjectPatch(ProjectPatch(updates)) == ProjectPatch(updates)
  {
  }

  /** Keys outside the whitelist never affect the patch. */
  lemma ProjectPatchIgnores(updates: map<string, Json>, key: string, value: Json)
    requires key !in PatchableKeys
    ensures ProjectPatch(updates[key := value]) == ProjectPatch(updates)
  {
  }

  // ---------------------------------------------------------------------
  // update() lines 289-294: dropping the Updates-table keys
  // ---------------------------------------------------------------------

  /** The keys that go to the Updates table rather than the Projects table. */
  const UpdateKeys: set<string> := {"Update", "Update due"}

  /** `{k: v for k, v in projectUpdates.items() if k not in ['Update', 'Update due']}`. */
  function StripUpdateKeys(projectUpdates: map<string, Json>): (r: map<string, Json>)
    ensures r.Keys == projectUpdates.Keys - UpdateKeys
    ensures forall k :: k in r ==> r[k] == projectUpdates[k]
  {
    projectUpdates - UpdateKeys
  }

  /** Dropping the Updates-table keys never changes the whitelisted patch. */
  lemma PatchAfterStrip(projectUpdates: map<string, Json>)
    ensures ProjectPatch(StripUpdateKeys(projectUpdates)) == ProjectPatch(projectUpdates)
  {
  }

  // ---------------------------------------------------------------------
  // create_update and update_project_fields
  // ---------------------------------------------------------------------

  /**
   * The "Update due" value `create_update` writes: the given value when it
   * is truthy, otherwise five working days after today; `None` when that
   * date passes `date.max` (OverflowError).
   */
  function DueFor(today: Date, updateDue: Json): (r: Option<Due>)
    ensures Truthy(updateDue) ==> r == Some(GivenDue(updateDue))
    ensures !Truthy(updateDue) && r.Some? ==> r.value.DefaultDue? && today + 5 <= r.value.date <= today + 7
    ensures !Truthy(updateDue) && r.Some? ==> r.value.date == AddWorkdays(today, DefaultDueDays)
    ensures !Truthy(updateDue) ==> (r.None? <==> AddWorkdays(today, DefaultDueDays) > MaxOrdinal)
  {
    if Truthy(updateDue) then Some(GivenDue(updateDue))
    else
      var day := AddWorkdays(today, DefaultDueDays);
      DefaultDueSpan(today);
      if day <= MaxOrdinal then Some(DefaultDue(day)) else None
  }

  /** `create_update(project_record_id, update_text, update_due)`; `updateDue` is `JNull` for None. */
  function CreateUpdate(hasKey: bool, today: Date, recordId: Json, updateText: Json, updateDue: Json, postOk: bool): (w: Write)
    ensures w.ok ==> hasKey && postOk
    ensures |w.requests| <= 1
    ensures w.requests != [] <==> hasKey && DueFor(today, updateDue).Some?
    ensures w.requests != [] ==>
      w.requests[0] == CreateUpdateRecord(UpdateRow([recordId], updateText, today, DueFor(today, updateDue).value))
    ensures w.ok <==> w.requests != [] && postOk
  {
    if !hasKey then Write(false, [])
    else match DueFor(today, updateDue)
      case None => Write(false, [])
      case Some(due) => Write(postOk, [CreateUpdateRecord(UpdateRow([recordId], updateText, today, due))])
  }

  /**
   * `update_project_fields(job_number, updates)`: look the project up
   * again, filter the updates through the whitelist, and patch the record
   * the second lookup found unless the filtered map is empty.
   */
  function UpdateProjectFields(hasKey: bool, jobNumber: Json, updates: map<string, Json>, relookup: Fetch, patchOk: bool): (w: Write)
    ensures w.requests == LookupRequests(hasKey, jobNumber) + (
      if LookupProject(hasKey, jobNumber, relookup).Some? && ProjectPatch(updates) != map[]
      then [PatchProject(LookupProject(hasKey, jobNumber, relookup).value.recordId, ProjectPatch(updates))]
      else [])
    ensures LookupProject(hasKey, jobNumber, relookup).None? ==> !w.ok
    ensures LookupProject(hasKey, jobNumber, relookup).Some? && ProjectPatch(updates) == map[] ==> w.ok
    ensures w.ok <==> LookupProject(hasKey, jobNumber, relookup).Some? && (ProjectPatch(updates) == map[] || patchOk)
  {
    if !hasKey then Write(false, [])
    else
      var query := [QueryProjects(jobNumber)];
      match LookupProject(hasKey, jobNumber, relookup)
      case None => Write(false, query)
      case Some(project) =>
        var fields := ProjectPatch(updates);
        if fields == map[] then Write(true, query)
        else Write(patchOk, query + [PatchProject(project.recordId, fields)])
  }

  /** Every PATCH carries a non-empty map of whitelisted, non-null values copied from the updates. */
  lemma PatchIsWhitelisted(hasKey: bool, jobNumber: Json, updates: map<string, Json>, relookup: Fetch, patchOk: bool, q: Request)
    requires q in UpdateProjectFields(hasKey, jobNumber, updates, relookup, patchOk).requests && q.PatchProject?
    ensures q.fields != map[] && q.fields.Keys <= PatchableKeys
    ensures forall k :: k in q.fields ==> k in updates && updates[k] == q.fields[k] && q.fields[k] != JNull
  {
  }
}
