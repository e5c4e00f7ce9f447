/**
 * The `/update` endpoint: validate the request, look the job up, ask the
 * model for an analysis, then write an Updates row and patch the project
 * as the analysis says, and answer with the analysis plus the outcome.
 *
 * The handler is a function of the request body, the configuration, the
 * clock and the outcomes of the remote calls. It returns the HTTP
 * response and the calls it made, in order.
 */
module Handler {
  import opened Wrappers
  import opened Json
  import opened WorkingDays
  import opened Airtable
  import Fence

  /** The configuration and the clock: whether the Airtable key is set, and `date.today()`. */
  datatype Env = Env(hasAirtableKey: bool, today: Date)

  /** The model call raised, or returned this text as its first content block. */
  datatype Reply = ModelFailed | ModelText(text: string)

  /** What `json.loads` makes of a text: a JSONDecodeError with its message, or a value. */
  datatype Parse = DecodeError(message: string) | Decoded(value: Json)

  /** The outcomes of the remote calls, in the order the handler meets them. */
  datatype Remote = Remote(
    lookup: Fetch,
    reply: Reply,
    createOk: bool,
    relookup: Fetch,
    patchOk: bool)

  /** A remote call the handler makes: an Airtable request, or the model call with the fields the prompt is built from. */
  datatype Call =
    | ToAirtable(request: Request)
    | AskModel(jobNumber: Json, jobName: Json, clientName: Json, stage: Json, emailContent: Json)

  /** An HTTP response: the status and the JSON object that is its body. */
  datatype Response = Response(status: int, body: map<string, Json>)

  /** The response and the calls made while computing it. */
  datatype Outcome = Outcome(response: Response, calls: seq<Call>)

  /** The Airtable requests, as handler calls. */
  function Lift(rs: seq<Request>): (cs: seq<Call>)
    ensures |cs| == |rs|
    ensures forall i :: 0 <= i < |rs| ==> cs[i] == ToAirtable(rs[i])
  {
    seq(|rs|, i requires 0 <= i < |rs| => ToAirtable(rs[i]))
  }

  /** No call in the list writes to Airtable: each Airtable call is a query. */
  predicate NoWrites(cs: seq<Call>) {
    forall i :: 0 <= i < |cs| && cs[i].ToAirtable? ==> cs[i].request.QueryProjects?
  }

  /** The body of a 400 or 500 response that carries only an error message. */
  function ErrorBody(message: string): map<string, Json> {
    map["error" := JString(message)]
  }

  /** The answer of the catch-all `except Exception` branch; the exception's text is not modelled. */
  function InternalError(): Response {
    Response(500, ErrorBody("Internal server error"))
  }

  /** The body of the 404 answer for an unknown job. */
  function NotFoundBody(jobNumber: Json): (body: map<string, Json>)
    ensures body.Keys == {"error", "jobNumber", "message"}
    ensures body["error"] == JString("job_not_found") && body["jobNumber"] == jobNumber
    ensures jobNumber.JString? ==> body["message"] == JString("Could not find job " + jobNumber.s + " in the system")
  {
    map[
      "error" := JString("job_not_found"),
      "jobNumber" := jobNumber,
      "message" := JString("Could not find job " + PyStr(jobNumber) + " in the system")]
  }

  /** The keys the handler adds to the analysis before returning it. */
  const AddedKeys: set<string> :=
    {"jobNumber", "jobName", "updateCreated", "projectUpdated", "teamsChannelId", "projectRecordId"}

  /**
   * Lines 297-302: the analysis with the job's identity and the outcomes of
   * the two writes added; every other key of the analysis is kept as it was.
   */
  function ResultBody(analysis: map<string, Json>, jobNumber: Json, project: Project, created: bool, patched: bool): (body: map<string, Json>)
    ensures body.Keys == analysis.Keys + AddedKeys
    ensures forall k :: k in analysis && k !in AddedKeys ==> body[k] == analysis[k]
    ensures body["jobNumber"] == jobNumber && body["jobName"] == project.jobName
    ensures body["updateCreated"] == JBool(created) && body["projectUpdated"] == JBool(patched)
    ensures body["teamsChannelId"] == project.teamsChannelId && body["projectRecordId"] == project.recordId
  {
    analysis
      ["jobNumber" := jobNumber]
      ["jobName" := project.jobName]
      ["updateCreated" := JBool(created)]
      ["projectUpdated" := JBool(patched)]
      ["teamsChannelId" := project.teamsChannelId]
      ["projectRecordId" := project.recordId]
  }

  /** Line 271 and lines 279-285: the Updates row is written only when there is update text. */
  function CreateStep(env: Env, project: Project, updateText: Json, projectUpdates: map<string, Json>, remote: Remote): (w: Write)
    ensures !Truthy(updateText) ==> w == Write(false, [])
  {
    if Truthy(updateText)
    then CreateUpdate(env.hasAirtableKey, env.today, project.recordId, updateText, DueArgument(projectUpdates), remote.createOk)
    else Write(false, [])
  }

  /** Lines 273-276: the due date passed on, `JNull` (None) unless "Update due" is truthy. */
  function DueArgument(projectUpdates: map<string, Json>): (due: Json)
    ensures Truthy(due) <==> "Update due" in projectUpdates && Truthy(projectUpdates["Update due"])
    ensures Truthy(due) ==> due == projectUpdates["Update due"]
  {
    var due := Get(projectUpdates, "Update due", JNull);
    if Truthy(due) then due else JNull
  }

  /** Lines 288-294: the project is patched only when some key besides "Update" and "Update due" is left. */
  function PatchStep(env: Env, jobNumber: Json, projectUpdates: map<string, Json>, remote: Remote): (w: Write)
    ensures StripUpdateKeys(projectUpdates) == map[] ==> w == Write(false, [])
  {
    var projectFields := StripUpdateKeys(projectUpdates);
    if projectUpdates != map[] && projectFields != map[]
    then UpdateProjectFields(env.hasAirtableKey, jobNumber, projectFields, remote.relookup, remote.patchOk)
    else Write(false, [])
  }

  /**
   * Lines 267-302 of the handler, once the analysis has decoded to a dict:
   * answer a reported error with 400; otherwise write the Updates row when
   * there is update text, patch the project when there are project
   * updates besides "Update" and "Update due", and answer 200 with the
   * analysis plus the job's identity and the two outcomes.
   */
  function Analyse(env: Env, jobNumber: Json, project: Project, analysis: map<string, Json>, remote: Remote): (o: Outcome)
    ensures o.response.status == 200 || o.response.status == 400 || o.response.status == 500
    ensures o.response.status != 200 ==> o.calls == []
  {
    if Truthy(Get(analysis, "error", JNull)) then Outcome(Response(400, analysis), [])
    else
      var projectUpdates := Get(analysis, "projectUpdates", JObject(map[]));
      if !projectUpdates.JObject? then
        // `.get('Update due')` on a value that is not a dict raises.
        Outcome(InternalError(), [])
      else
        var created := CreateStep(env, project, Get(analysis, "airtableUpdate", JString("")), projectUpdates.fields, remote);
        var patched := PatchStep(env, jobNumber, projectUpdates.fields, remote);
        Outcome(Response(200, ResultBody(analysis, jobNumber, project, created.ok, patched.ok)),
                Lift(created.requests) + Lift(patched.requests))
  }

  /**
   * Lines 262-311 once the model has answered: strip the code fence, decode
   * the JSON, and act on the analysis. A decode error answers 500 with the
   * stripped text; an analysis that is not a dict raises at `.get`.
   */
  function Interpret(env: Env, jobNumber: Json, project: Project, text: string, remote: Remote, loads: string -> Parse): (o: Outcome)
    ensures o.response.status == 200 || o.response.status == 400 || o.response.status == 500
    ensures o.response.status != 200 ==> o.calls == []
  {
    var content := Fence.StripMarkdownJson(text);
    match loads(content)
    case DecodeError(message) =>
      Outcome(Response(500, map[
        "error" := JString("Claude returned invalid JSON"),
        "details" := JString(message),
        "raw_response" := JString(content)]), [])
    case Decoded(analysis) =>
      if !analysis.JObject? then Outcome(InternalError(), [])
      else Analyse(env, jobNumber, project, analysis.fields, remote)
  }

  /** The calls made up to and including the model call: the lookup, then the model. */
  function CallsUntilModel(env: Env, jobNumber: Json, project: Project, emailContent: Json): (cs: seq<Call>)
    ensures |cs| >= 1 && cs[|cs| - 1] == AskModel(jobNumber, project.jobName, project.clientName, project.stage, emailContent)
    ensures forall i :: 0 <= i < |cs| - 1 ==> cs[i] == ToAirtable(QueryProjects(jobNumber))
    ensures NoWrites(cs)
  {
    Lift(LookupRequests(env.hasAirtableKey, jobNumber)) + [AskModel(jobNumber, project.jobName, project.clientName, project.stage, emailContent)]
  }

  /**
   * Lines 232-311 once the request has a job number and an email: look the
   * job up (404 when it is not found), ask the model, and interpret the
   * answer; a failed model call raises, which answers 500.
   */
  function ForJob(env: Env, jobNumber: Json, emailContent: Json, found: Option<Project>, remote: Remote, loads: string -> Parse): (o: Outcome)
    ensures o.response.status == 200 || o.response.status == 400 || o.response.status == 404 || o.response.status == 500
    ensures o.response.status != 200 ==> NoWrites(o.calls)
  {
    match found
    case None =>
      var lookup := Lift(LookupRequests(env.hasAirtableKey, jobNumber));
      assert NoWrites(lookup);
      Outcome(Response(404, NotFoundBody(jobNumber)), lookup)
    case Some(project) =>
      var asked := CallsUntilModel(env, jobNumber, project, emailContent);
      match remote.reply
      case ModelFailed => Outcome(InternalError(), asked)
      case ModelText(text) =>
        var o := Interpret(env, jobNumber, project, text, remote, loads);
        assert o.response.status != 200 ==> asked + o.calls == asked;
        Outcome(o.response, asked + o.calls)
  }

  /**
   * `update()`: the whole handler. `data` is what `request.get_json()`
   * returned (`None` when it raised), `loads` is `json.loads`. A body that
   * is not a dict raises at `.get`, which answers 500.
   */
  function Update(env: Env, data: Option<Json>, remote: Remote, loads: string -> Parse): (o: Outcome)
    ensures o.response.status == 200 || o.response.status == 400 || o.response.status == 404 || o.response.status == 500
    ensures o.response.status != 200 ==> NoWrites(o.calls)
  {
    if data.None? || !data.value.JObject? then Outcome(InternalError(), [])
    else
      var request := data.value.fields;
      var jobNumber := Get(request, "jobNumber", JNull);
      var emailContent := Get(request, "emailContent", JString(""));
      if !Truthy(jobNumber) then Outcome(Response(400, ErrorBody("No job number provided")), [])
      else if !Truthy(emailContent) then Outcome(Response(400, ErrorBody("No email content provided")), [])
      else ForJob(env, jobNumber, emailContent, LookupProject(env.hasAirtableKey, jobNumber, remote.lookup), remote, loads)
  }

  // ---------------------------------------------------------------------
  // Properties
  // ---------------------------------------------------------------------

  /** The job number is checked before the email content, and neither failure calls anything. */
  lemma RequestChecks(env: Env, request: map<string, Json>, remote: Remote, loads: string -> Parse)
    ensures !Truthy(Get(request, "jobNumber", JNull)) ==>
      Update(env, Some(JObject(request)), remote, loads) == Outcome(Response(400, ErrorBody("No job number provided")), [])
    ensures Truthy(Get(request, "jobNumber", JNull)) && !Truthy(Get(request, "emailContent", JString(""))) ==>
      Update(env, Some(JObject(request)), remote, loads) == Outcome(Response(400, ErrorBody("No email content provided")), [])
    ensures Truthy(Get(request, "jobNumber", JNull)) && Truthy(Get(request, "emailContent", JString(""))) ==>
      Update(env, Some(JObject(request)), remote, loads)
        == ForJob(env, Get(request, "jobNumber", JNull), Get(request, "emailContent", JString("")),
                  LookupProject(env.hasAirtableKey, Get(request, "jobNumber", JNull), remote.lookup), remote, loads)
    ensures Update(env, None, remote, loads) == Outcome(InternalError(), [])
  {
  }

  /** An unknown job answers 404 naming the job number, after the lookup and before any model call. */
  lemma UnknownJob(env: Env, jobNumber: Json, emailContent: Json, remote: Remote, loads: string -> Parse)
    ensures var o := ForJob(env, jobNumber, emailContent, None, remote, loads);
      && o.response.status == 404
      && o.response.body["error"] == JString("job_not_found")
      && o.response.body["jobNumber"] == jobNumber
      && o.calls == Lift(LookupRequests(env.hasAirtableKey, jobNumber))
      && forall c :: c in o.calls ==> c.ToAirtable? && c.request.QueryProjects?
  {
  }

  /** A failed model call answers 500 after the lookup and the model call, and writes nothing. */
  lemma ModelCallFails(env: Env, jobNumber: Json, emailContent: Json, project: Project, remote: Remote, loads: string -> Parse)
    requires env.hasAirtableKey
    requires remote.reply == ModelFailed
    ensures var o := ForJob(env, jobNumber, emailContent, Some(project), remote, loads);
      o.response == InternalError() && |o.calls| == 2 && NoWrites(o.calls)
  {
  }

  /** When the analysis reports an error it is answered as it is, with 400, and nothing is written. */
  lemma ModelReportedError(env: Env, jobNumber: Json, project: Project, text: string, remote: Remote, loads: string -> Parse, analysis: map<string, Json>)
    requires loads(Fence.StripMarkdownJson(text)) == Decoded(JObject(analysis))
    requires Truthy(Get(analysis, "error", JNull))
    ensures Interpret(env, jobNumber, project, text, remote, loads) == Outcome(Response(400, analysis), [])
  {
  }

  /** A reply that does not decode answers 500 with the stripped reply text, and nothing is written. */
  lemma InvalidJson(env: Env, jobNumber: Json, project: Project, text: string, remote: Remote, loads: string -> Parse)
    requires loads(Fence.StripMarkdownJson(text)).DecodeError?
    ensures var o := Interpret(env, jobNumber, project, text, remote, loads);
      && o.response.status == 500
      && o.response.body["error"] == JString("Claude returned invalid JSON")
      && o.response.body["raw_response"] == JString(Fence.StripMarkdownJson(text))
      && o.calls == []
  {
  }

  /** For a fenced reply that does not decode, the raw response is the reply's inner text, trimmed. */
  lemma InvalidFencedJson(env: Env, jobNumber: Json, project: Project, tag: string, inner: string, remote: Remote, loads: string -> Parse)
    requires '\n' !in tag
    requires loads(Fence.StripMarkdownJson(Fence.Fenced(tag, inner))).DecodeError?
    ensures Interpret(env, jobNumber, project, Fence.Fenced(tag, inner), remote, loads).response.body["raw_response"]
         == JString(Fence.Strip(inner))
  {
    Fence.FencedReply(tag, inner);
  }

  /** The Updates row is written if and only if the analysis has update text (and the key is set and the due date exists). */
  lemma CreateDecision(env: Env, project: Project, updateText: Json, projectUpdates: map<string, Json>, remote: Remote)
    ensures var w := CreateStep(env, project, updateText, projectUpdates, remote);
      && (w.requests != [] <==> Truthy(updateText) && env.hasAirtableKey && DueFor(env.today, DueArgument(projectUpdates)).Some?)
      && (w.ok ==> Truthy(updateText) && remote.createOk)
  {
  }

  /** The row's due date is the analysis's "Update due" when that is truthy, and five working days on otherwise. */
  lemma CreateDueDate(env: Env, project: Project, updateText: Json, projectUpdates: map<string, Json>, remote: Remote)
    requires CreateStep(env, project, updateText, projectUpdates, remote).requests != []
    ensures var row := CreateStep(env, project, updateText, projectUpdates, remote).requests[0].row;
      && row.projectLink == [project.recordId]
      && row.update == updateText
      && row.updatedOn == env.today
      && ("Update due" in projectUpdates && Truthy(projectUpdates["Update due"]) ==> row.updateDue == GivenDue(projectUpdates["Update due"]))
      && (!("Update due" in projectUpdates && Truthy(projectUpdates["Update due"])) ==>
            row.updateDue == DefaultDue(AddWorkdays(env.today, DefaultDueDays))
            && env.today + 5 <= row.updateDue.date <= env.today + 7)
  {
  }

  /**
   * The project is patched, with exactly the whitelisted non-null entries
   * of the project updates, if and only if that map is not empty and the
   * second lookup finds the project; "Update" and "Update due" never reach
   * the patch.
   */
  lemma PatchDecision(env: Env, jobNumber: Json, projectUpdates: map<string, Json>, remote: Remote, q: Request)
    requires q in PatchStep(env, jobNumber, projectUpdates, remote).requests && q.PatchProject?
    ensures q.fields == ProjectPatch(projectUpdates) && q.fields != map[]
    ensures "Update" !in q.fields && "Update due" !in q.fields
    ensures LookupProject(env.hasAirtableKey, jobNumber, remote.relookup).Some?
    ensures q.recordId == LookupProject(env.hasAirtableKey, jobNumber, remote.relookup).value.recordId
  {
    PatchAfterStrip(projectUpdates);
  }

  /** A patch is sent whenever the whitelisted entries are not empty and the second lookup finds the project. */
  lemma PatchSent(env: Env, jobNumber: Json, projectUpdates: map<string, Json>, remote: Remote)
    requires ProjectPatch(projectUpdates) != map[]
    requires LookupProject(env.hasAirtableKey, jobNumber, remote.relookup).Some?
    ensures var w := PatchStep(env, jobNumber, projectUpdates, remote);
      w.requests[|w.requests| - 1] == PatchProject(LookupProject(env.hasAirtableKey, jobNumber, remote.relookup).value.recordId, ProjectPatch(projectUpdates))
  {
    PatchAfterStrip(projectUpdates);
    var k :| k in ProjectPatch(projectUpdates);
    assert k in StripUpdateKeys(projectUpdates);
  }

  /** Without keys besides "Update" and "Update due" nothing is looked up or patched and `projectUpdated` is False. */
  lemma NothingToPatch(env: Env, jobNumber: Json, projectUpdates: map<string, Json>, remote: Remote)
    requires projectUpdates.Keys <= UpdateKeys
    ensures PatchStep(env, jobNumber, projectUpdates, remote) == Write(false, [])
  {
    assert StripUpdateKeys(projectUpdates).Keys == {};
  }

  /**
   * Project updates with keys besides "Update" and "Update due" but none
   * on the whitelist still look the project up again, patch nothing, and
   * report `projectUpdated` True when the project is found.
   */
  lemma OnlyUnlistedKeys(env: Env, jobNumber: Json, projectUpdates: map<string, Json>, remote: Remote)
    requires projectUpdates.Keys !! PatchableKeys
    requires !(projectUpdates.Keys <= UpdateKeys)
    requires env.hasAirtableKey
    ensures var w := PatchStep(env, jobNumber, projectUpdates, remote);
      && w.requests == [QueryProjects(jobNumber)]
      && w.ok == LookupProject(env.hasAirtableKey, jobNumber, remote.relookup).Some?
  {
    var key :| key in projectUpdates && key !in UpdateKeys;
    assert key in StripUpdateKeys(projectUpdates);
    assert ProjectPatch(StripUpdateKeys(projectUpdates)).Keys == {};
  }

  /** The patch does not depend on the project's current field values, only on which record the second lookup finds. */
  lemma PatchIgnoresCurrentValues(env: Env, jobNumber: Json, projectUpdates: map<string, Json>, remote: Remote, relookup: Fetch)
    requires LookupProject(env.hasAirtableKey, jobNumber, remote.relookup).Some?
    requires LookupProject(env.hasAirtableKey, jobNumber, relookup).Some?
    requires LookupProject(env.hasAirtableKey, jobNumber, remote.relookup).value.recordId
          == LookupProject(env.hasAirtableKey, jobNumber, relookup).value.recordId
    ensures PatchStep(env, jobNumber, projectUpdates, remote) == PatchStep(env, jobNumber, projectUpdates, remote.(relookup := relookup))
  {
  }

  /**
   * The successful answer is the analysis with the six keys added: every
   * other key keeps its value, and the two flags say whether the writes
   * succeeded.
   */
  lemma SuccessBody(env: Env, jobNumber: Json, project: Project, analysis: map<string, Json>, remote: Remote)
    requires Analyse(env, jobNumber, project, analysis, remote).response.status == 200
    ensures var o := Analyse(env, jobNumber, project, analysis, remote);
      && ("projectUpdates" in analysis ==> analysis["projectUpdates"].JObject?)
      && o.response.body.Keys == analysis.Keys + AddedKeys
      && (forall k :: k in analysis && k !in AddedKeys ==> o.response.body[k] == analysis[k])
      && o.response.body["jobNumber"] == jobNumber
      && o.response.body["teamsChannelId"] == project.teamsChannelId
      && o.response.body["projectRecordId"] == project.recordId
  {
  }
}
