/** Jobs: the envelope that travels through the queue, the job rows, and the repository that updates
    them in place. */
module Jobs {
  import opened PyText

  datatype JobType = IndexDocument | DeleteDocument

  datatype JobStatus = Queued | Running | Succeeded | Failed

  const ERROR_LIMIT: nat := 2048

  // ---------- The envelope ----------

  datatype JobEnvelope = JobEnvelope(
    jobId: string, jobType: JobType, clientId: string, corpusId: string,
    documentId: string, fileType: string, filePath: Option<string>)

  /** The JSON values that occur in a payload. */
  datatype Json = JString(s: string) | JNull

  type Payload = map<string, Json>

  function TypeName(t: JobType): string {
    if t.IndexDocument? then "INDEX_DOCUMENT" else "DELETE_DOCUMENT"
  }

  function ToPayload(e: JobEnvelope): Payload {
    map["job_id" := JString(e.jobId),
        "job_type" := JString(TypeName(e.jobType)),
        "client_id" := JString(e.clientId),
        "corpus_id" := JString(e.corpusId),
        "document_id" := JString(e.documentId),
        "file_type" := JString(e.fileType),
        "file_path" := if e.filePath.Some? then JString(e.filePath.value) else JNull]
  }

  /** On the wire: seven keys, each with the field of its name. */
  lemma {:induction false} PayloadFields(e: JobEnvelope)
    ensures var p := ToPayload(e);
      && p.Keys == REQUIRED + {"file_type", "file_path"}
      && p["job_id"] == JString(e.jobId) && p["client_id"] == JString(e.clientId)
      && p["corpus_id"] == JString(e.corpusId) && p["document_id"] == JString(e.documentId)
      && p["file_type"] == JString(e.fileType)
      && (p["job_type"] == JString("INDEX_DOCUMENT") <==> e.jobType.IndexDocument?)
      && (p["job_type"] == JString("DELETE_DOCUMENT") <==> e.jobType.DeleteDocument?)
      && (e.filePath == None <==> p["file_path"] == JNull)
      && (e.filePath.Some? ==> p["file_path"] == JString(e.filePath.value))
  {
    var index, delete := "INDEX_DOCUMENT", "DELETE_DOCUMENT";
    assert index[0] != delete[0];
  }

  /** `str(value)`. */
  function Str(j: Json): string {
    if j.JString? then j.s else "None"
  }

  /** `payload.get(key)` where a missing, null or empty value counts as absent. */
  function NonEmpty(p: Payload, key: string): Option<string> {
    if key in p && p[key].JString? && p[key].s != "" then Some(p[key].s) else None
  }

  function ParseType(j: Json): Option<JobType> {
    if j == JString("INDEX_DOCUMENT") then Some(IndexDocument)
    else if j == JString("DELETE_DOCUMENT") then Some(DeleteDocument)
    else None
  }

  const REQUIRED: set<string> := {"job_id", "job_type", "client_id", "corpus_id", "document_id"}

  /** `Err` stands for `MalformedJobEnvelope`. */
  function FromPayload(p: Payload): Result<JobEnvelope, string> {
    if !(REQUIRED <= p.Keys) then Err("payload is not a valid job envelope: missing key")
    else
      var t := ParseType(p["job_type"]);
      if t.None? then Err("payload is not a valid job envelope: unknown job_type")
      else
        var fileType := NonEmpty(p, "file_type");
        Ok(JobEnvelope(Str(p["job_id"]), t.value, Str(p["client_id"]), Str(p["corpus_id"]), Str(p["document_id"]),
                       if fileType.None? then "" else fileType.value, NonEmpty(p, "file_path")))
  }

  /** A payload is malformed exactly when a required key is missing or the type is unknown; otherwise each field is
      read from the key of its name, and a missing, null or empty file path is none. */
  lemma {:induction false} ParsedFields(p: Payload)
    ensures FromPayload(p).Ok? <==>
      REQUIRED <= p.Keys && (p["job_type"] == JString("INDEX_DOCUMENT") || p["job_type"] == JString("DELETE_DOCUMENT"))
    ensures FromPayload(p).Ok? ==>
      var e := FromPayload(p).value;
      && e.jobId == Str(p["job_id"]) && e.clientId == Str(p["client_id"])
      && e.corpusId == Str(p["corpus_id"]) && e.documentId == Str(p["document_id"])
      && (e.jobType.IndexDocument? <==> p["job_type"] == JString("INDEX_DOCUMENT"))
      && (e.filePath.Some? ==> e.filePath.value != "" && p.Items >= {("file_path", JString(e.filePath.value))})
      && (e.filePath.None? ==> "file_path" !in p || p["file_path"] == JNull || p["file_path"] == JString(""))
      && (e.fileType != "" ==> p.Items >= {("file_type", JString(e.fileType))})
      && (e.fileType == "" ==> "file_type" !in p || p["file_type"] == JNull || p["file_type"] == JString(""))
  {
  }

  /** The trip through the queue keeps every envelope except one with an empty file path, which comes
      back without a path. */
  lemma {:induction false} EnvelopeRoundTrip(e: JobEnvelope)
    ensures FromPayload(ToPayload(e)) ==
      Ok(if e.filePath == Some("") then e.(filePath := None) else e)
    ensures FromPayload(ToPayload(e)) == Ok(e) <==> e.filePath != Some("")
  {
    assert REQUIRED <= ToPayload(e).Keys;
  }

  // ---------- Rows ----------

  datatype Job = Job(
    jobId: string, jobType: JobType, status: JobStatus, clientId: string, corpusId: string,
    documentId: string, fileType: string, filePath: Option<string>, errorMessage: Option<string>)

  type Rows = map<string, Job>

  predicate Terminal(status: JobStatus) { status.Succeeded? || status.Failed? }

  /** A new row for the job of an envelope. */
  function NewRow(e: JobEnvelope): Job {
    Job(e.jobId, e.jobType, Queued, e.clientId, e.corpusId, e.documentId, e.fileType, e.filePath, None)
  }

  /** The row and the envelope agree on every field they share. */
  predicate Agrees(row: Job, e: JobEnvelope) {
    && row.jobId == e.jobId && row.jobType == e.jobType && row.clientId == e.clientId && row.corpusId == e.corpusId
    && row.documentId == e.documentId && row.fileType == e.fileType && row.filePath == e.filePath
  }

  /** What a transition does with the error message: leave it, or set it. */
  datatype MessageUpdate = Keep | SetTo(message: Option<string>)

  function Moved(row: Job, status: JobStatus, update: MessageUpdate): Job {
    row.(status := status, errorMessage := if update.Keep? then row.errorMessage else update.message)
  }

  function Clipped(message: string): string {
    message[..Min(|message|, ERROR_LIMIT)]
  }

  /** The message is the beginning of the error, all of it if it is not too long. */
  lemma {:induction false} ClippedIsPrefix(message: string)
    ensures Clipped(message) <= message && |Clipped(message)| == Min(|message|, ERROR_LIMIT)
  {
  }

  const DUPLICATE := "duplicate job_id"
  const NOT_FOUND := "job not found"

  /** The rows after a transition; a missing row stays missing. */
  function Marked(rows: Rows, jobId: string, status: JobStatus, update: MessageUpdate): Rows {
    if jobId in rows then rows[jobId := Moved(rows[jobId], status, update)] else rows
  }

  /** The rows after a transition that may raise. */
  function Attempted(rows: Rows, jobId: string, status: JobStatus, update: MessageUpdate, fault: Option<Fault>): Rows {
    if Blocks(fault) then rows else Marked(rows, jobId, status, update)
  }

  /** What a call answers that fails on its own with `error`, if at all, and may raise before or after. */
  predicate Answers<T>(r: Result<T, string>, error: Option<string>, fault: Option<Fault>) {
    if Blocks(fault) then r == Err(fault.value.message)
    else if error.Some? then r == Err(error.value)
    else if fault.Some? then r == Err(fault.value.message)
    else r.Ok?
  }

  class JobRepository {
    var rows: Rows

    constructor ()
      ensures rows == map[]
    {
      rows := map[];
    }

    /** Insert a QUEUED row; the primary key refuses a second row with the same id. */
    method Create(e: JobEnvelope, fault: Option<Fault>) returns (r: Result<Job, string>)
      modifies this
      ensures Answers(r, if e.jobId in old(rows) then Some(DUPLICATE) else None, fault)
      ensures r.Ok? ==> r == Ok(NewRow(e)) && Agrees(r.value, e) && r.value.status.Queued? && r.value.errorMessage.None?
      ensures rows == if Blocks(fault) || e.jobId in old(rows) then old(rows) else old(rows)[e.jobId := NewRow(e)]
    {
      if Blocks(fault) {
        return Err(fault.value.message);
      }
      if e.jobId in rows {
        return Err(DUPLICATE);
      }
      var row := Job(e.jobId, e.jobType, Queued, e.clientId, e.corpusId, e.documentId, e.fileType, e.filePath, None);
      rows := rows[e.jobId := row];
      if fault.Some? {
        return Err(fault.value.message);
      }
      return Ok(row);
    }

    method Get(jobId: string) returns (r: Option<Job>)
      ensures r == if jobId in rows then Some(rows[jobId]) else None
    {
      if jobId in rows {
        return Some(rows[jobId]);
      }
      return None;
    }

    /** No check of the old status: any move is allowed. The commit comes before the refresh, so a raising
        transition may have happened. */
    method Transition(jobId: string, status: JobStatus, update: MessageUpdate, fault: Option<Fault>)
      returns (r: Result<Job, string>)
      modifies this
      ensures Answers(r, if jobId in old(rows) then None else Some(NOT_FOUND), fault)
      ensures r.Ok? ==> r == Ok(Moved(old(rows)[jobId], status, update))
      ensures rows == Attempted(old(rows), jobId, status, update, fault)
    {
      if Blocks(fault) {
        return Err(fault.value.message);
      }
      if jobId !in rows {
        return Err(NOT_FOUND);
      }
      var row := rows[jobId];
      row := row.(status := status);
      if update.SetTo? {
        row := row.(errorMessage := update.message);
      }
      rows := rows[jobId := row];
      if fault.Some? {
        return Err(fault.value.message);
      }
      return Ok(row);
    }

    method MarkRunning(jobId: string, fault: Option<Fault>) returns (r: Result<Job, string>)
      modifies this
      ensures Answers(r, if jobId in old(rows) then None else Some(NOT_FOUND), fault)
      ensures rows == Attempted(old(rows), jobId, Running, Keep, fault)
    {
      r := Transition(jobId, Running, Keep, fault);
    }

    method MarkSucceeded(jobId: string, fault: Option<Fault>) returns (r: Result<Job, string>)
      modifies this
      ensures Answers(r, if jobId in old(rows) then None else Some(NOT_FOUND), fault)
      ensures rows == Attempted(old(rows), jobId, Succeeded, SetTo(None), fault)
    {
      r := Transition(jobId, Succeeded, SetTo(None), fault);
    }

    method MarkFailed(jobId: string, errorMessage: string, fault: Option<Fault>) returns (r: Result<Job, string>)
      modifies this
      ensures Answers(r, if jobId in old(rows) then None else Some(NOT_FOUND), fault)
      ensures rows == Attempted(old(rows), jobId, Failed, SetTo(Some(Clipped(errorMessage))), fault)
    {
      r := Transition(jobId, Failed, SetTo(Some(Clipped(errorMessage))), fault);
    }
  }
}
