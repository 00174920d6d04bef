/** The request handlers: write a QUEUED row, then publish the envelope of the same job. */
module Services {
  import opened PyText
  import opened Jobs
  import opened Worker

  datatype ProtoFileType = Unspecified | Pdf | Txt | Md

  datatype IndexRequest = IndexRequest(
    clientId: string, corpusId: string, storagePath: string, documentId: string, fileType: ProtoFileType)

  datatype DeleteRequest = DeleteRequest(clientId: string, documentId: string)

  function FileTypeToStr(t: ProtoFileType): Option<string> {
    match t
    case Pdf => Some("pdf")
    case Txt => Some("txt")
    case Md => Some("md")
    case Unspecified => None
  }

  const BAD_FILE_TYPE := "unsupported or unspecified FileType"

  /** The envelope of an accepted index request; a request without a document id gets the fresh one. */
  function IndexSubmission(q: IndexRequest, jobId: string, freshId: string): Result<JobEnvelope, string> {
    if q.clientId == "" then Err("client_id is required")
    else if q.corpusId == "" then Err("corpus_id is required")
    else if q.storagePath == "" then Err("storage_path is required")
    else if FileTypeToStr(q.fileType).None? then Err(BAD_FILE_TYPE)
    else
      var documentId := if q.documentId == "" then freshId else q.documentId;
      Ok(JobEnvelope(jobId, IndexDocument, q.clientId, q.corpusId, documentId,
                     FileTypeToStr(q.fileType).value, Some(q.storagePath)))
  }

  /** The envelope of an accepted delete request; it carries no corpus and no file. */
  function DeleteSubmission(q: DeleteRequest, jobId: string): Result<JobEnvelope, string> {
    if q.clientId == "" then Err("client_id is required")
    else if q.documentId == "" then Err("document_id is required")
    else Ok(JobEnvelope(jobId, DeleteDocument, q.clientId, "", q.documentId, "", None))
  }

  /** What every accepted envelope satisfies. */
  predicate WellFormed(e: JobEnvelope) {
    && e.clientId != ""
    && (e.jobType.IndexDocument? ==> e.filePath.Some? && e.filePath.value != "")
    && (e.jobType.DeleteDocument? ==> e.filePath.None? && e.corpusId == "" && e.fileType == "")
  }

  lemma {:induction false} SubmissionsWellFormed(q: IndexRequest, d: DeleteRequest, jobId: string, freshId: string)
    ensures var r := IndexSubmission(q, jobId, freshId); r.Ok? ==> WellFormed(r.value) && r.value.jobId == jobId
    ensures var r := DeleteSubmission(d, jobId); r.Ok? ==> WellFormed(r.value) && r.value.jobId == jobId
  {
  }

  /** An index request is accepted exactly when its client, corpus and path are given and its file type is one of
      the three; the envelope carries them, and the document id that was given, or else the fresh one. */
  lemma {:induction false} IndexAccepted(q: IndexRequest, jobId: string, freshId: string)
    ensures var r := IndexSubmission(q, jobId, freshId);
      && (r.Ok? <==> q.clientId != "" && q.corpusId != "" && q.storagePath != "" && !q.fileType.Unspecified?)
      && (r.Ok? ==>
            var e := r.value;
            && e.jobId == jobId && e.jobType.IndexDocument? && e.clientId == q.clientId && e.corpusId == q.corpusId
            && e.filePath == Some(q.storagePath)
            && (q.documentId != "" ==> e.documentId == q.documentId)
            && (q.documentId == "" ==> e.documentId == freshId)
            && (e.fileType == "pdf" <==> q.fileType.Pdf?) && (e.fileType == "txt" <==> q.fileType.Txt?)
            && (e.fileType == "md" <==> q.fileType.Md?))
  {
    var pdf, txt, md := "pdf", "txt", "md";
    assert pdf[0] != txt[0] && pdf[0] != md[0] && txt[0] != md[0];
  }

  /** A delete request is accepted exactly when its client and document are given. */
  lemma {:induction false} DeleteAccepted(q: DeleteRequest, jobId: string)
    ensures var r := DeleteSubmission(q, jobId);
      && (r.Ok? <==> q.clientId != "" && q.documentId != "")
      && (r.Ok? ==>
            var e := r.value;
            && e.jobId == jobId && e.jobType.DeleteDocument? && e.clientId == q.clientId
            && e.documentId == q.documentId && e.corpusId == "" && e.fileType == "" && e.filePath.None?)
  {
  }

  /** Row first, envelope second: what a submission leaves behind, and what it answers. */
  predicate Submitted(
    submission: Result<JobEnvelope, string>, createFault: Option<Fault>, publishFault: Option<Fault>,
    rows: Rows, rows': Rows, messages: seq<Payload>, messages': seq<Payload>, r: Result<JobStatus, string>)
  {
    if submission.Err? then rows' == rows && messages' == messages && r == Err(submission.error)
    else
      var e := submission.value;
      if Blocks(createFault) then rows' == rows && messages' == messages && r == Err(createFault.value.message)
      else if e.jobId in rows then rows' == rows && messages' == messages && r == Err(DUPLICATE)
      else
        && rows' == rows[e.jobId := NewRow(e)]
        && if createFault.Some? then messages' == messages && r == Err(createFault.value.message)
           else
             && messages' == (if Blocks(publishFault) then messages else messages + [ToPayload(e)])
             && r == if publishFault.Some? then Err(publishFault.value.message) else Ok(Queued)
  }

  class IndexDocumentHandler {
    const repo: JobRepository
    const publisher: MessageQueue

    constructor (repo: JobRepository, publisher: MessageQueue)
      ensures this.repo == repo && this.publisher == publisher
    {
      this.repo, this.publisher := repo, publisher;
    }

    method Handle(
      q: IndexRequest, jobId: string, freshId: string, createFault: Option<Fault>, publishFault: Option<Fault>)
      returns (r: Result<JobStatus, string>)
      modifies repo, publisher
      ensures Submitted(IndexSubmission(q, jobId, freshId), createFault, publishFault,
                        old(repo.rows), repo.rows, old(publisher.messages), publisher.messages, r)
    {
      if q.clientId == "" {
        return Err("client_id is required");
      }
      if q.corpusId == "" {
        return Err("corpus_id is required");
      }
      if q.storagePath == "" {
        return Err("storage_path is required");
      }
      var fileType := FileTypeToStr(q.fileType);
      if fileType.None? {
        return Err(BAD_FILE_TYPE);
      }
      var documentId := if q.documentId == "" then freshId else q.documentId;
      var e := JobEnvelope(
        jobId, IndexDocument, q.clientId, q.corpusId, documentId, fileType.value, Some(q.storagePath));
      var created := repo.Create(e, createFault);
      if created.Err? {
        return Err(created.error);
      }
      if !Blocks(publishFault) {
        publisher.Publish(ToPayload(e));
      }
      if publishFault.Some? {
        return Err(publishFault.value.message);
      }
      return Ok(Queued);
    }
  }

  class DeleteDocumentHandler {
    const repo: JobRepository
    const publisher: MessageQueue

    constructor (repo: JobRepository, publisher: MessageQueue)
      ensures this.repo == repo && this.publisher == publisher
    {
      this.repo, this.publisher := repo, publisher;
    }

    method Handle(q: DeleteRequest, jobId: string, createFault: Option<Fault>, publishFault: Option<Fault>)
      returns (r: Result<JobStatus, string>)
      modifies repo, publisher
      ensures Submitted(DeleteSubmission(q, jobId), createFault, publishFault,
                        old(repo.rows), repo.rows, old(publisher.messages), publisher.messages, r)
    {
      if q.clientId == "" {
        return Err("client_id is required");
      }
      if q.documentId == "" {
        return Err("document_id is required");
      }
      var e := JobEnvelope(jobId, DeleteDocument, q.clientId, "", q.documentId, "", None);
      var created := repo.Create(e, createFault);
      if created.Err? {
        return Err(created.error);
      }
      if !Blocks(publishFault) {
        publisher.Publish(ToPayload(e));
      }
      if publishFault.Some? {
        return Err(publishFault.value.message);
      }
      return Ok(Queued);
    }
  }
}
