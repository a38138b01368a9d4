/** The document endpoints of backend/app/main.py: the filename rules of
    `upload_document`, and the tables behind `delete_document` and
    `submit_feedback`. The tables are held by a store object whose methods
    update them in place, as the SQL statements do. */
module DocumentApi {
  import opened Wrappers
  import opened Text

  /** An `HTTPException`: status code and detail text. */
  datatype HttpError = HttpError(status: int, detail: string)

  const MissingFilename := HttpError(400, "Missing filename")
  const UnsupportedFileType := HttpError(400, "Unsupported file type")
  const DocumentNotFound := HttpError(404, "Document not found")
  /** What FastAPI answers when a handler raises an uncaught exception,
      here a `KeyError` for a missing request field. */
  const InternalError := HttpError(500, "Internal Server Error")

  /** The directory uploads are written to, `Path("data") / "pdfs"`. */
  const UploadDir := "data/pdfs"

  // ---------------------------------------------------------------------
  // upload_document
  // ---------------------------------------------------------------------

  /** POSIX `os.path.basename`: the text after the last `/`. */
  function Basename(path: string): (r: string)
    ensures '/' !in r
    ensures EndsWith(path, r)
    ensures |r| < |path| ==> path[|path| - |r| - 1] == '/'
  {
    if path == [] || path[|path| - 1] == '/' then []
    else Basename(path[..|path| - 1]) + [path[|path| - 1]]
  }

  /** A path made of a directory part, a `/` and a slash-free name has that
      name as its basename, whatever the directory part holds. */
  lemma {:induction false} BasenameOfJoined(dir: string, name: string)
    requires '/' !in name
    ensures Basename(dir + "/" + name) == name
  {
    var p := dir + "/" + name;
    if name == [] {
      assert p[|p| - 1] == '/';
    } else {
      var init := name[..|name| - 1];
      assert p[..|p| - 1] == dir + "/" + init;
      BasenameOfJoined(dir, init);
      assert p[|p| - 1] == name[|name| - 1];
    }
  }

  /** A name without `/` is its own basename. */
  lemma {:induction false} BasenameOfPlainName(name: string)
    requires '/' !in name
    ensures Basename(name) == name
  {
    if name != [] {
      assert name[|name| - 1] != '/' by {
        assert name[|name| - 1] in name;
      }
      BasenameOfPlainName(name[..|name| - 1]);
    }
  }

  /** The allow-list, applied to the lower-cased name. */
  predicate AllowedExtension(lower: string) {
    EndsWith(lower, ".pdf") || EndsWith(lower, ".docx") || EndsWith(lower, ".txt")
  }

  /** The filename checks of `upload_document`: the client's name is
      reduced to its basename (a missing name counts as empty), an empty
      result is rejected, and so is a name without an allowed extension. */
  function ValidateFilename(clientName: Option<string>): (r: Result<string, HttpError>)
    ensures Basename(clientName.GetOr("")) == [] <==> r == Failure(MissingFilename)
    ensures r.Success? <==>
      Basename(clientName.GetOr("")) != [] && AllowedExtension(LowerAscii(Basename(clientName.GetOr(""))))
    ensures r.Success? ==> r.value == Basename(clientName.GetOr(""))
    ensures r.Failure? ==> r.error == MissingFilename || r.error == UnsupportedFileType
  {
    var name := Basename(clientName.GetOr(""));
    if name == [] then Failure(MissingFilename)
    else if !AllowedExtension(LowerAscii(name)) then Failure(UnsupportedFileType)
    else Success(name)
  }

  /** An accepted name is a single path component: no `/`, not empty, and
      neither `.` nor `..`, so it names a file directly in the upload
      directory. */
  lemma AcceptedNameIsPlain(clientName: Option<string>)
    requires ValidateFilename(clientName).Success?
    ensures var name := ValidateFilename(clientName).value;
            '/' !in name && name != [] && name != "." && name != ".."
  {
    var name := ValidateFilename(clientName).value;
    assert |LowerAscii(name)| == |name|;
  }

  /** The extension check ignores ASCII case: names that lower-case alike
      get the same verdict. */
  lemma CaseInsensitive(a: string, b: string)
    requires LowerAscii(Basename(a)) == LowerAscii(Basename(b))
    ensures ValidateFilename(Some(a)).Success? == ValidateFilename(Some(b)).Success?
    ensures ValidateFilename(Some(a)).Failure? ==> ValidateFilename(Some(a)) == ValidateFilename(Some(b))
  {
    assert |Basename(a)| == |LowerAscii(Basename(a))|;
  }

  /** Where the uploaded bytes are written. */
  function SavedPath(name: string): string {
    UploadDir + "/" + name
  }

  /** The saved file sits directly in the upload directory, under the
      accepted name. */
  lemma SavedDirectlyInUploadDir(clientName: Option<string>)
    requires ValidateFilename(clientName).Success?
    ensures var name := ValidateFilename(clientName).value;
            Basename(SavedPath(name)) == name && SavedPath(name)[..|UploadDir|] == UploadDir
  {
    BasenameOfJoined(UploadDir, ValidateFilename(clientName).value);
  }

  /** A client path with directories and an upper-case extension is
      accepted under its last component. */
  lemma AcceptsLastComponent()
    ensures ValidateFilename(Some("../../etc/Report.PDF")) == Success("Report.PDF")
  {
    BasenameOfJoined("../../etc", "Report.PDF");
    assert "../../etc/Report.PDF" == "../../etc" + "/" + "Report.PDF";
    assert LowerAscii("Report.PDF")[6..] == ".pdf";
  }

  /** Other extensions are refused. */
  lemma RejectsOtherExtension()
    ensures ValidateFilename(Some("notes.md")) == Failure(UnsupportedFileType)
  {
    BasenameOfPlainName("notes.md");
    var lower := LowerAscii("notes.md");
    assert |lower| == 8 && lower[3] == 'e' && lower[4] == 's';
    assert !EndsWith(lower, ".pdf") by { assert lower[8 - 4] != ".pdf"[0]; }
    assert !EndsWith(lower, ".docx") by { assert lower[8 - 5] != ".docx"[0]; }
    assert !EndsWith(lower, ".txt") by { assert lower[8 - 4] != ".txt"[0]; }
  }

  /** A path ending in `/`, and a missing name, are both "Missing filename". */
  lemma RejectsEmptyName(dir: string)
    ensures ValidateFilename(Some(dir + "/")) == Failure(MissingFilename)
    ensures ValidateFilename(None) == Failure(MissingFilename)
  {
    var p := dir + "/";
    assert p[|p| - 1] == '/';
  }

  datatype UploadResponse = UploadResponse(message: string, documentId: int, filename: string)

  /** `upload_document`: validation, then writing the file and running the
      chunker. `processing` is what those two steps give: the id of the
      document the chunker created, or None when the write or the chunker
      raised, which the framework answers with a 500. */
  function UploadDocument(clientName: Option<string>, processing: Option<int>): (r: Result<UploadResponse, HttpError>)
    ensures ValidateFilename(clientName).Failure? ==> r == Failure(ValidateFilename(clientName).error)
    ensures ValidateFilename(clientName).Success? && processing.None? ==> r == Failure(InternalError)
    ensures r.Success? <==> ValidateFilename(clientName).Success? && processing.Some?
    ensures r.Success? ==>
      && r.value.message == "Document processed successfully"
      && r.value.documentId == processing.value
      && r.value.filename == ValidateFilename(clientName).value
  {
    match ValidateFilename(clientName)
    case Failure(e) => Failure(e)
    case Success(name) =>
      match processing
      case None => Failure(InternalError)
      case Some(documentId) => Success(UploadResponse("Document processed successfully", documentId, name))
  }

  // ---------------------------------------------------------------------
  // delete_document and submit_feedback
  // ---------------------------------------------------------------------

  /** A row of the `feedback` table, keyed by message id. */
  datatype FeedbackRow = FeedbackRow(feedbackType: string, comment: string)

  /** `INSERT ... ON CONFLICT (message_id) DO UPDATE`: insert or overwrite
      the row of one message. */
  function Upsert(table: map<int, FeedbackRow>, messageId: int, row: FeedbackRow): (r: map<int, FeedbackRow>)
    ensures r.Keys == table.Keys + {messageId}
    ensures r[messageId] == row
    ensures forall m :: m in table && m != messageId ==> r[m] == table[m]
  {
    table[messageId := row]
  }

  /** Submitting again for the same message replaces the earlier feedback
      rather than adding a second record. */
  lemma ResubmissionOverwrites(table: map<int, FeedbackRow>, messageId: int, first: FeedbackRow, second: FeedbackRow)
    ensures Upsert(Upsert(table, messageId, first), messageId, second) == Upsert(table, messageId, second)
  {
  }

  /** Upserts for different messages commute. */
  lemma UpsertsCommute(table: map<int, FeedbackRow>, m1: int, r1: FeedbackRow, m2: int, r2: FeedbackRow)
    requires m1 != m2
    ensures Upsert(Upsert(table, m1, r1), m2, r2) == Upsert(Upsert(table, m2, r2), m1, r1)
  {
  }

  function DeletedMessage(filename: string): string {
    "Document '" + filename + "' deleted successfully"
  }

  /** The `documents` table (id to filename), the ids of the documents
      that some row of `chunks` or `holographic_storage` refers to, and the
      `feedback` table. Both referencing columns are declared without
      `ON DELETE CASCADE` (backend/app/core/database.py:38,50). */
  class DocumentStore {
    var documents: map<int, string>
    var referenced: set<int>
    var feedback: map<int, FeedbackRow>

    constructor(documents: map<int, string>, referenced: set<int>, feedback: map<int, FeedbackRow>)
      ensures this.documents == documents && this.referenced == referenced && this.feedback == feedback
    {
      this.documents := documents;
      this.referenced := referenced;
      this.feedback := feedback;
    }

    /** `delete_document`: 404 for an unknown id, with nothing removed. For
        a known id the `DELETE` runs; while chunks or stored patterns still
        refer to the document it violates their foreign key, the error
        escapes as a 500 and nothing is removed. Otherwise the row is
        removed and its filename reported. */
    method DeleteDocument(id: int) returns (r: Result<string, HttpError>)
      modifies this`documents
      ensures id !in old(documents) ==> r == Failure(DocumentNotFound) && documents == old(documents)
      ensures id in old(documents) && id in referenced ==>
        r == Failure(InternalError) && documents == old(documents)
      ensures id in old(documents) && id !in referenced ==>
        r == Success(DeletedMessage(old(documents)[id])) && documents == old(documents) - {id}
    {
      if id !in documents {
        return Failure(DocumentNotFound);
      }
      var filename := documents[id];
      if id in referenced {
        return Failure(InternalError);
      }
      documents := documents - {id};
      r := Success(DeletedMessage(filename));
    }

    /** `submit_feedback`: `message_id` and `feedback_type` must be present
        (a missing one raises, which the framework turns into a 500 and
        nothing is written); the comment defaults to the empty string. */
    method SubmitFeedback(messageId: Option<int>, feedbackType: Option<string>, comment: Option<string>)
      returns (r: Result<string, HttpError>)
      modifies this`feedback
      ensures messageId.None? || feedbackType.None? ==>
        r == Failure(InternalError) && feedback == old(feedback)
      ensures messageId.Some? && feedbackType.Some? ==>
        r == Success("Feedback submitted successfully")
        && feedback == Upsert(old(feedback), messageId.value, FeedbackRow(feedbackType.value, comment.GetOr("")))
    {
      if messageId.None? || feedbackType.None? {
        return Failure(InternalError);
      }
      feedback := Upsert(feedback, messageId.value, FeedbackRow(feedbackType.value, comment.GetOr("")));
      r := Success("Feedback submitted successfully");
    }
  }

  /** A document that still has a chunk cannot be deleted: the request
      fails with a 500 and the document stays listed. */
  method DeleteOfChunkedDocumentFails() returns (r: Result<string, HttpError>, kept: bool)
    ensures r == Failure(InternalError) && kept
  {
    var store := new DocumentStore(map[1 := "paper.pdf"], {1}, map[]);
    r := store.DeleteDocument(1);
    kept := 1 in store.documents;
  }
}
