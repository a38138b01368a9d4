/** The conversation session behind ui/src/pages/QueryInterface.js: the
    document list and the selection, the conversation log, the loading
    state with its rotating message, and the dialogs, changed by the page's
    event handlers. Each handler is one atomic step over the session. The
    outcome of every network call is a parameter, the interval timer is an
    "active" flag with a rotation index and a count of the ticks that fire
    while the query is pending, and `Date.now()` readings are parameters.
    A ghost log records the backend calls in the order they are made. */
module QuerySession {
  import opened Wrappers
  import opened Text

  datatype Document = Document(id: int, filename: string, createdAt: string)

  /** A source as the page receives it in the query response's JSON. The
      page only displays these fields, so it declares the shape itself
      rather than depending on the answer generator's model. */
  datatype Source = Source(chunkId: int, documentId: int, content: string, contentPreview: string)

  datatype Feedback = Feedback(kind: string, comment: string)

  /** An entry of the conversation log. Both kinds carry `feedback`, since
      feedback is attached to whichever message has the given id. */
  datatype Message =
    | UserMessage(id: int, content: string, selectedDocCount: nat, feedback: Option<Feedback>)
    | AiMessage(id: int, content: string, confidence: real, sources: seq<Source>,
                feedback: Option<Feedback>, error: bool, queriedDocCount: Option<nat>)

  /** The result of `queryAPI.query`: a failure, or the answer with its
      `sources` field possibly absent. */
  datatype QueryOutcome =
    | QueryFailed
    | QueryAnswered(answer: string, confidence: real, sources: Option<seq<Source>>)

  /** The result of `queryAPI.getDocuments`: a failure, or the reply with
      its `documents` field possibly absent. */
  datatype FetchOutcome = FetchFailed | Fetched(documents: Option<seq<Document>>)

  datatype FileRef = FileRef(name: string)

  /** The result of `queryAPI.uploadDocument` for one file: success with
      the reply's `message`, or failure with the server's `detail` and the
      error's own `message` (each possibly absent). */
  datatype UploadOutcome =
    | Uploaded(message: Option<string>)
    | UploadRejected(detail: Option<string>, message: Option<string>)

  datatype UploadResult = UploadResult(filename: string, status: string, message: string)

  datatype DeleteTarget = DeleteTarget(id: int, filename: string)
  datatype DeleteDialog = DeleteDialog(open: bool, target: Option<DeleteTarget>)
  datatype UploadDialog = UploadDialog(open: bool, files: seq<FileRef>, results: seq<UploadResult>)

  /** A call to the backend, as recorded in the session's call log. */
  datatype ApiCall =
    | ListDocuments
    | DeleteDocument(id: int)
    | Query(text: string, mode: string, documentIds: Option<seq<int>>)
    | UploadDocument(file: FileRef)
    | SubmitFeedback(messageId: int, feedbackType: string, comment: string)

  const LoadingMessages: seq<string> := [
    "Activating quantum retrieval systems...",
    "Engaging neuromorphic memory networks...",
    "Scanning holographic information patterns...",
    "Deploying swarm intelligence agents...",
    "Analyzing temporal causality chains...",
    "Running speculative RAG processes...",
    "Optimizing adaptive generation models...",
    "Retrieving relevant document fragments...",
    "Processing quantum interference patterns...",
    "Strengthening synaptic connections..."
  ]

  const Apology := "I apologize, but I encountered an error processing your query. Please try again."
  const QueryMode := "balanced"
  const UploadSucceeded := "Document processed successfully"
  const UploadFailed := "Upload failed"

  /** JavaScript `a || fallback` for a string that may be absent: the
      empty string is falsy too. */
  function JsOr(a: Option<string>, fallback: string): (r: string)
    ensures a.Some? && a.value != [] ==> r == a.value
    ensures a.None? || a.value == [] ==> r == fallback
  {
    if a.Some? && a.value != [] then a.value else fallback
  }

  // ---------------------------------------------------------------------
  // Selection
  // ---------------------------------------------------------------------

  predicate NoDup(s: seq<int>) {
    forall i, j :: 0 <= i < j < |s| ==> s[i] != s[j]
  }

  /** `s.filter(x => x !== id)`. */
  function Remove(s: seq<int>, id: int): (r: seq<int>)
    ensures forall x :: x in r <==> x in s && x != id
    ensures |r| <= |s|
  {
    if s == [] then [] else (if s[0] == id then [] else [s[0]]) + Remove(s[1..], id)
  }

  /** Filtering distributes over concatenation: the kept ids stay in
      order. */
  lemma {:induction false} RemoveConcat(a: seq<int>, b: seq<int>, id: int)
    ensures Remove(a + b, id) == Remove(a, id) + Remove(b, id)
  {
    if a != [] {
      assert (a + b)[1..] == a[1..] + b;
      RemoveConcat(a[1..], b, id);
    } else {
      assert a + b == b;
    }
  }

  /** Removing an absent id changes nothing. */
  lemma {:induction false} RemoveAbsent(s: seq<int>, id: int)
    requires id !in s
    ensures Remove(s, id) == s
  {
    if s != [] {
      RemoveAbsent(s[1..], id);
    }
  }

  /** Every other id keeps its number of occurrences. */
  lemma {:induction false} RemoveKeepsOthers(s: seq<int>, id: int, x: int)
    requires x != id
    ensures multiset(Remove(s, id))[x] == multiset(s)[x]
  {
    if s != [] {
      RemoveKeepsOthers(s[1..], id, x);
      assert s == [s[0]] + s[1..];
    }
  }

  lemma {:induction false} RemovePreservesNoDup(s: seq<int>, id: int)
    requires NoDup(s)
    ensures NoDup(Remove(s, id))
  {
    if s != [] {
      NoDupTail(s);
      RemovePreservesNoDup(s[1..], id);
    }
  }

  /** `handleDocumentSelect`: a selected id is removed (every occurrence),
      an unselected one is appended. */
  function Toggle(selected: seq<int>, id: int): (r: seq<int>)
    ensures id in r <==> id !in selected
    ensures forall x :: x != id ==> (x in r <==> x in selected)
  {
    if id in selected then Remove(selected, id) else selected + [id]
  }

  /** Toggling an unselected id appends it at the end. */
  lemma ToggleAppends(selected: seq<int>, id: int)
    requires id !in selected
    ensures Toggle(selected, id) == selected + [id]
    ensures Toggle(selected, id)[|selected|] == id
  {
  }

  /** Toggling a selected id keeps every other id, with its number of
      occurrences, in the same relative order. */
  lemma ToggleRemoves(selected: seq<int>, id: int, x: int)
    requires id in selected && x != id
    ensures multiset(Toggle(selected, id))[x] == multiset(selected)[x]
    ensures Toggle(selected, id) == Remove(selected, id)
  {
    RemoveKeepsOthers(selected, id, x);
  }

  /** Toggling an unselected id twice restores the selection exactly. */
  lemma ToggleTwiceUnselected(selected: seq<int>, id: int)
    requires id !in selected
    ensures Toggle(Toggle(selected, id), id) == selected
  {
    RemoveConcat(selected, [id], id);
    RemoveAbsent(selected, id);
    assert Remove([id], id) == [];
  }

  lemma NoDupTail(s: seq<int>)
    requires NoDup(s) && s != []
    ensures NoDup(s[1..]) && s[0] !in s[1..]
  {
    forall i, j | 0 <= i < j < |s[1..]| ensures s[1..][i] != s[1..][j] {
      assert s[1..][i] == s[i + 1] && s[1..][j] == s[j + 1];
    }
    forall k | 0 <= k < |s[1..]| ensures s[1..][k] != s[0] {
      assert s[1..][k] == s[k + 1];
    }
  }

  /** Removing a present id from a duplicate-free sequence takes away
      exactly one occurrence. */
  lemma {:induction false} RemoveOnce(s: seq<int>, id: int)
    requires NoDup(s) && id in s
    ensures multiset(Remove(s, id)) + multiset{id} == multiset(s)
  {
    NoDupTail(s);
    assert s == [s[0]] + s[1..];
    if s[0] == id {
      RemoveAbsent(s[1..], id);
    } else {
      RemoveOnce(s[1..], id);
    }
  }

  /** Toggling a selected id twice, in a selection without duplicates,
      gives the same ids with that one moved to the end. */
  lemma ToggleTwiceSelected(selected: seq<int>, id: int)
    requires NoDup(selected) && id in selected
    ensures var r := Toggle(Toggle(selected, id), id);
            r == Remove(selected, id) + [id] && multiset(r) == multiset(selected)
  {
    assert id !in Remove(selected, id);
    RemoveOnce(selected, id);
  }

  /** Toggling keeps a duplicate-free selection duplicate-free. */
  lemma TogglePreservesNoDup(selected: seq<int>, id: int)
    requires NoDup(selected)
    ensures NoDup(Toggle(selected, id))
  {
    if id in selected {
      RemovePreservesNoDup(selected, id);
    }
  }

  /** `documents.map(doc => doc.id)`. */
  function Ids(documents: seq<Document>): (r: seq<int>)
    ensures |r| == |documents|
    ensures forall i :: 0 <= i < |documents| ==> r[i] == documents[i].id
  {
    seq(|documents|, i requires 0 <= i < |documents| => documents[i].id)
  }

  /** `handleSelectAll`: clears the selection when it is as long as the
      document list, otherwise selects every document in list order. */
  function SelectAllResult(selected: seq<int>, documents: seq<Document>): (r: seq<int>)
    ensures |selected| == |documents| ==> r == []
    ensures |selected| != |documents| ==> |r| == |documents| && forall i :: 0 <= i < |r| ==> r[i] == documents[i].id
  {
    if |selected| == |documents| then [] else Ids(documents)
  }

  function Elements(s: seq<int>): set<int> {
    set x | x in s
  }

  lemma {:induction false} NoDupCard(s: seq<int>)
    requires NoDup(s)
    ensures |Elements(s)| == |s|
  {
    if s != [] {
      var t := s[..|s| - 1];
      assert NoDup(t) by {
        forall i, j | 0 <= i < j < |t| ensures t[i] != t[j] { assert t[i] == s[i] && t[j] == s[j]; }
      }
      NoDupCard(t);
      assert s[|s| - 1] !in Elements(t) by {
        forall k | 0 <= k < |t| ensures t[k] != s[|s| - 1] { assert t[k] == s[k]; }
      }
      assert s == t + [s[|s| - 1]];
      assert Elements(s) == Elements(t) + {s[|s| - 1]};
    }
  }

  /** When the selection holds no duplicates and only ids of listed
      documents (themselves distinct), comparing lengths is the same as
      asking whether every document is selected. */
  lemma LengthTestIsAllSelected(selected: seq<int>, documents: seq<Document>)
    requires NoDup(selected) && NoDup(Ids(documents))
    requires forall x :: x in selected ==> x in Ids(documents)
    ensures |selected| == |documents| <==> Elements(selected) == Elements(Ids(documents))
  {
    var a := Elements(selected);
    var b := Elements(Ids(documents));
    NoDupCard(selected);
    NoDupCard(Ids(documents));
    assert a <= b;
    if |selected| == |documents| {
      assert |b - a| == |b| - |a|;
      assert b == a + (b - a);
    }
  }

  /** Without the premises above the length test can misfire: a stale id
      in the selection makes select-all clear it although the one listed
      document is not selected. */
  lemma StaleSelectionClears()
    ensures SelectAllResult([5], [Document(7, "a.pdf", "")]) == []
    ensures 7 !in [5]
  {
  }

  // ---------------------------------------------------------------------
  // Queries
  // ---------------------------------------------------------------------

  /** True when `query.trim()` is empty: every character is white space. */
  predicate Blank(query: string) {
    forall i :: 0 <= i < |query| ==> IsJsSpace(query[i])
  }

  lemma BlankIsEmptyTrim(query: string)
    ensures Blank(query) <==> JsTrim(query) == []
  {
    TrimEmptyIff(query, IsJsSpace);
  }

  /** The submit gate: a query with something besides white space, and no
      query already in flight. */
  predicate SubmitAllowed(query: string, loading: bool) {
    !Blank(query) && !loading
  }

  /** The document ids sent with a query: null for an empty selection. */
  function DocumentIdsArg(selected: seq<int>): (r: Option<seq<int>>)
    ensures r.None? <==> selected == []
    ensures r.Some? ==> r.value == selected
  {
    if |selected| > 0 then Some(selected) else None
  }

  /** The AI message for a query outcome. */
  function AiReply(outcome: QueryOutcome, selectedCount: nat, id: int): (r: Message)
    ensures r.AiMessage? && r.id == id && r.feedback.None?
    ensures outcome.QueryFailed? ==>
      r.content == Apology && r.confidence == 0.0 && r.sources == [] && r.error && r.queriedDocCount.None?
    ensures outcome.QueryAnswered? ==>
      && r.content == outcome.answer && r.confidence == outcome.confidence
      && r.sources == outcome.sources.GetOr([]) && !r.error && r.queriedDocCount == Some(selectedCount)
  {
    match outcome
    case QueryFailed => AiMessage(id, Apology, 0.0, [], None, true, None)
    case QueryAnswered(answer, confidence, sources) =>
      AiMessage(id, answer, confidence, sources.GetOr([]), None, false, Some(selectedCount))
  }

  /** The two messages a query adds: the user's, then the AI's. */
  function QueryMessages(query: string, selected: seq<int>, outcome: QueryOutcome, t0: int, t1: int): (r: seq<Message>)
    ensures |r| == 2
    ensures r[0] == UserMessage(t0, query, |selected|, None)
    ensures r[1] == AiReply(outcome, |selected|, t1 + 1)
  {
    [UserMessage(t0, query, |selected|, None), AiReply(outcome, |selected|, t1 + 1)]
  }

  /** The rotation index after `ticks` interval callbacks. */
  lemma RotationStep(i: nat)
    ensures (i % |LoadingMessages| + 1) % |LoadingMessages| == (i + 1) % |LoadingMessages|
  {
  }

  // ---------------------------------------------------------------------
  // Feedback and uploads
  // ---------------------------------------------------------------------

  /** The `conversations.map(...)` of `handleFeedback`: every message with
      the id gets the feedback, the others are kept. */
  function SetFeedback(conversation: seq<Message>, id: int, feedback: Feedback): (r: seq<Message>)
    ensures |r| == |conversation|
    ensures forall i :: 0 <= i < |r| ==>
      if conversation[i].id == id then r[i] == conversation[i].(feedback := Some(feedback))
      else r[i] == conversation[i]
  {
    seq(|conversation|, i requires 0 <= i < |conversation| =>
      if conversation[i].id == id then conversation[i].(feedback := Some(feedback)) else conversation[i])
  }

  /** Feedback changes nothing but the feedback: ids, kinds, contents and
      order are kept. */
  lemma SetFeedbackKeepsMessages(conversation: seq<Message>, id: int, feedback: Feedback, i: nat)
    requires i < |conversation|
    ensures var m := SetFeedback(conversation, id, feedback)[i];
            && m.id == conversation[i].id && m.content == conversation[i].content
            && m.AiMessage? == conversation[i].AiMessage?
            && (m.feedback == conversation[i].feedback || conversation[i].id == id)
  {
  }

  /** Feedback for an id no message has leaves the log as it was. */
  lemma SetFeedbackUnknownId(conversation: seq<Message>, id: int, feedback: Feedback)
    requires forall i :: 0 <= i < |conversation| ==> conversation[i].id != id
    ensures SetFeedback(conversation, id, feedback) == conversation
  {
  }

  /** Feedback given twice: the second replaces the first. */
  lemma SetFeedbackOverwrites(conversation: seq<Message>, id: int, first: Feedback, second: Feedback)
    ensures SetFeedback(SetFeedback(conversation, id, first), id, second) == SetFeedback(conversation, id, second)
  {
  }

  /** The entry `handleFileUpload` records for one file. */
  function ResultFor(file: FileRef, outcome: UploadOutcome): (r: UploadResult)
    ensures r.filename == file.name
    ensures r.status == "success" <==> outcome.Uploaded?
    ensures r.status == "success" || r.status == "error"
    ensures r.message != []
  {
    match outcome
    case Uploaded(message) => UploadResult(file.name, "success", JsOr(message, UploadSucceeded))
    case UploadRejected(detail, message) => UploadResult(file.name, "error", JsOr(detail, JsOr(message, UploadFailed)))
  }

  /** A rejected upload reports the server's detail first, then the
      error's message, then a fixed text. */
  lemma RejectionMessage(file: FileRef, detail: Option<string>, message: Option<string>)
    ensures var m := ResultFor(file, UploadRejected(detail, message)).message;
            && (detail.Some? && detail.value != [] ==> m == detail.value)
            && (detail.None? || detail.value == [] ==> m == JsOr(message, UploadFailed))
  {
  }

  /** One result per file, in file order. */
  function UploadResults(files: seq<FileRef>, outcomes: seq<UploadOutcome>): (r: seq<UploadResult>)
    requires |outcomes| == |files|
    ensures |r| == |files|
    ensures forall i :: 0 <= i < |files| ==> r[i] == ResultFor(files[i], outcomes[i])
  {
    seq(|files|, i requires 0 <= i < |files| => ResultFor(files[i], outcomes[i]))
  }

  /** A failed upload does not stop the others: each file's entry depends
      on its own outcome only. */
  lemma UploadsIndependent(files: seq<FileRef>, outcomes: seq<UploadOutcome>, other: seq<UploadOutcome>, i: nat)
    requires |outcomes| == |files| == |other| && i < |files|
    requires outcomes[i] == other[i]
    ensures UploadResults(files, outcomes)[i] == UploadResults(files, other)[i]
  {
  }

  /** The upload calls for the files, one per file in order. */
  function UploadCalls(files: seq<FileRef>): (r: seq<ApiCall>)
    ensures |r| == |files|
    ensures forall i :: 0 <= i < |files| ==> r[i] == UploadDocument(files[i])
  {
    seq(|files|, i requires 0 <= i < |files| => UploadDocument(files[i]))
  }

  /** The document list after a fetch: the reply's list (an absent one
      counts as empty), or empty when the fetch failed. */
  function FetchedList(outcome: FetchOutcome): (r: seq<Document>)
    ensures outcome.FetchFailed? ==> r == []
    ensures outcome.Fetched? ==> r == outcome.documents.GetOr([])
  {
    match outcome
    case FetchFailed => []
    case Fetched(documents) => documents.GetOr([])
  }

  // ---------------------------------------------------------------------
  // The session
  // ---------------------------------------------------------------------

  class Session {
    // Shared application context.
    var documents: seq<Document>
    var selected: seq<int>
    var conversation: seq<Message>
    var loading: bool
    var documentsLoaded: bool
    // Page state.
    var query: string
    var loadingMessage: string
    var loadingDocs: bool
    var noSourcesDialog: bool
    var clearDialog: bool
    var deleteDialog: DeleteDialog
    var deleting: bool
    var uploading: bool
    var uploadDialog: UploadDialog
    // The loading-message interval.
    var intervalActive: bool
    var messageIndex: nat
    /** Backend calls made so far, oldest first. */
    ghost var calls: seq<ApiCall>

    /** Between handlers no interval runs and the rotation index is a
        valid position in the message list. The constructor establishes it
        and every handler that runs a query re-establishes it; the other
        handlers cannot touch either field, as their `modifies` clauses
        show. `Submit` is the one handler that needs it. */
    predicate Valid()
      reads this
    {
      messageIndex < |LoadingMessages| && !intervalActive
    }

    /** The page mounting over the given application context. */
    constructor(documents: seq<Document>, selected: seq<int>, conversation: seq<Message>,
                loading: bool, documentsLoaded: bool)
      ensures this.documents == documents && this.selected == selected
      ensures this.conversation == conversation && this.loading == loading
      ensures this.documentsLoaded == documentsLoaded
      ensures query == "" && loadingMessage == "" && loadingDocs == !documentsLoaded
      ensures !noSourcesDialog && !clearDialog && deleteDialog == DeleteDialog(false, None)
      ensures !deleting && !uploading && uploadDialog == UploadDialog(false, [], [])
      ensures Valid() && calls == []
    {
      this.documents := documents;
      this.selected := selected;
      this.conversation := conversation;
      this.loading := loading;
      this.documentsLoaded := documentsLoaded;
      query := "";
      loadingMessage := "";
      loadingDocs := !documentsLoaded;
      noSourcesDialog := false;
      clearDialog := false;
      deleteDialog := DeleteDialog(false, None);
      deleting := false;
      uploading := false;
      uploadDialog := UploadDialog(false, [], []);
      intervalActive := false;
      messageIndex := 0;
      calls := [];
    }

    /** What a fetch leaves behind. */
    predicate FetchApplied(outcome: FetchOutcome, wasLoaded: bool)
      reads this
    {
      && documents == FetchedList(outcome)
      && documentsLoaded == (wasLoaded || outcome.Fetched?)
      && !loadingDocs
    }

    /** `fetchDocuments`. A failure empties the list but leaves
        `documentsLoaded` as it was. */
    method FetchDocuments(outcome: FetchOutcome)
      modifies this`documents, this`documentsLoaded, this`loadingDocs, this`calls
      ensures FetchApplied(outcome, old(documentsLoaded))
      ensures calls == old(calls) + [ListDocuments]
    {
      loadingDocs := true;
      calls := calls + [ListDocuments];
      match outcome {
        case Fetched(list) =>
          documents := list.GetOr([]);
          documentsLoaded := true;
        case FetchFailed =>
          documents := [];
      }
      loadingDocs := false;
    }

    /** The mount effect: fetch unless the documents are already loaded. */
    method Mount(outcome: FetchOutcome)
      modifies this`documents, this`documentsLoaded, this`loadingDocs, this`calls
      ensures old(documentsLoaded) ==> documents == old(documents) && documentsLoaded && !loadingDocs && calls == old(calls)
      ensures !old(documentsLoaded) ==> FetchApplied(outcome, old(documentsLoaded)) && calls == old(calls) + [ListDocuments]
    {
      if !documentsLoaded {
        FetchDocuments(outcome);
      } else {
        loadingDocs := false;
      }
    }

    /** `handleDeleteDocument`: asks for confirmation. */
    method OpenDeleteDialog(id: int, filename: string)
      modifies this`deleteDialog
      ensures deleteDialog == DeleteDialog(true, Some(DeleteTarget(id, filename)))
    {
      deleteDialog := DeleteDialog(true, Some(DeleteTarget(id, filename)));
    }

    /** `cancelDelete`. */
    method CancelDelete()
      modifies this`deleteDialog
      ensures deleteDialog == DeleteDialog(false, None)
    {
      deleteDialog := DeleteDialog(false, None);
    }

    /** `confirmDelete`. Without a target nothing happens. After a
        successful delete the id leaves the selection, the list is fetched
        again and the dialog closes; after a failed one only `deleting`
        is reset and the dialog stays open. */
    method ConfirmDelete(deleteOk: bool, fetch: FetchOutcome)
      modifies this`selected, this`deleteDialog, this`deleting, this`documents,
               this`documentsLoaded, this`loadingDocs, this`calls
      ensures old(deleteDialog).target.None? ==> unchanged(this)
      ensures old(deleteDialog).target.Some? && !deleteOk ==>
        var id := old(deleteDialog).target.value.id;
        && selected == old(selected) && deleteDialog == old(deleteDialog) && !deleting
        && documents == old(documents) && documentsLoaded == old(documentsLoaded)
        && loadingDocs == old(loadingDocs) && calls == old(calls) + [DeleteDocument(id)]
      ensures old(deleteDialog).target.Some? && deleteOk ==>
        var id := old(deleteDialog).target.value.id;
        && selected == Remove(old(selected), id) && id !in selected
        && FetchApplied(fetch, old(documentsLoaded)) && deleteDialog == DeleteDialog(false, None) && !deleting
        && calls == old(calls) + [DeleteDocument(id), ListDocuments]
    {
      if deleteDialog.target.None? {
        return;
      }
      var id := deleteDialog.target.value.id;
      deleting := true;
      calls := calls + [DeleteDocument(id)];
      if deleteOk {
        selected := Remove(selected, id);
        FetchDocuments(fetch);
        deleteDialog := DeleteDialog(false, None);
      }
      deleting := false;
    }

    /** `handleDocumentSelect`. The id is not checked against the document
        list. */
    method ToggleSelect(id: int)
      modifies this`selected
      ensures selected == Toggle(old(selected), id)
      ensures id in selected <==> id !in old(selected)
    {
      selected := Toggle(selected, id);
    }

    /** `handleSelectAll`. */
    method SelectAll()
      modifies this`selected
      ensures selected == SelectAllResult(old(selected), documents)
    {
      selected := SelectAllResult(selected, documents);
    }

    /** Typing into the query box. */
    method SetQuery(text: string)
      modifies this`query
      ensures query == text
    {
      query := text;
    }

    /** What running a query with the captured text and selection leaves
        behind. */
    ghost predicate QueryRan(before: seq<Message>, callsBefore: seq<ApiCall>, q: string, sel: seq<int>,
                       outcome: QueryOutcome, ticks: nat, t0: int, t1: int)
      reads this
    {
      && conversation == before + QueryMessages(q, sel, outcome, t0, t1)
      && query == "" && !loading && loadingMessage == "" && !intervalActive
      && messageIndex == ticks % |LoadingMessages|
      && calls == callsBefore + [Query(q, QueryMode, DocumentIdsArg(sel))]
    }

    /** `executeQuery`. The user message (id `t0`) is appended first, then
        the AI message (id `t1 + 1`); `ticks` interval callbacks rotate the
        loading message while the query is pending, and the cleanup runs
        whatever the outcome. */
    method ExecuteQuery(outcome: QueryOutcome, ticks: nat, t0: int, t1: int)
      modifies this`conversation, this`query, this`loading, this`loadingMessage,
               this`intervalActive, this`messageIndex, this`calls
      ensures QueryRan(old(conversation), old(calls), old(query), selected, outcome, ticks, t0, t1)
      ensures Valid()
    {
      var q := query;
      conversation := conversation + [UserMessage(t0, q, |selected|, None)];
      query := "";
      loading := true;
      messageIndex := 0;
      loadingMessage := LoadingMessages[messageIndex];
      intervalActive := true;
      var i := 0;
      while i < ticks
        modifies this`messageIndex, this`loadingMessage
        invariant 0 <= i <= ticks
        invariant intervalActive
        invariant messageIndex == i % |LoadingMessages|
        invariant loadingMessage == LoadingMessages[messageIndex]
      {
        RotationStep(i);
        messageIndex := (messageIndex + 1) % |LoadingMessages|;
        loadingMessage := LoadingMessages[messageIndex];
        i := i + 1;
      }
      calls := calls + [Query(q, QueryMode, DocumentIdsArg(selected))];
      conversation := conversation + [AiReply(outcome, |selected|, t1 + 1)];
      assert conversation == old(conversation) + QueryMessages(q, selected, outcome, t0, t1);
      intervalActive := false;
      loading := false;
      loadingMessage := "";
    }

    /** `handleSubmit`: ignored for a blank query or while loading; with
        nothing selected it only opens the no-sources dialog; otherwise it
        runs the query. */
    method Submit(outcome: QueryOutcome, ticks: nat, t0: int, t1: int)
      modifies this`conversation, this`query, this`loading, this`loadingMessage,
               this`intervalActive, this`messageIndex, this`calls, this`noSourcesDialog
      requires Valid()
      ensures Valid()
      ensures !SubmitAllowed(old(query), old(loading)) ==> unchanged(this)
      ensures SubmitAllowed(old(query), old(loading)) && selected == [] ==>
        noSourcesDialog && conversation == old(conversation) && query == old(query)
        && loading == old(loading) && calls == old(calls) && loadingMessage == old(loadingMessage)
        && messageIndex == old(messageIndex) && intervalActive == old(intervalActive)
      ensures SubmitAllowed(old(query), old(loading)) && selected != [] ==>
        QueryRan(old(conversation), old(calls), old(query), selected, outcome, ticks, t0, t1) && noSourcesDialog == old(noSourcesDialog)
    {
      if !SubmitAllowed(query, loading) {
        return;
      }
      if |selected| == 0 {
        noSourcesDialog := true;
        return;
      }
      ExecuteQuery(outcome, ticks, t0, t1);
    }

    /** `handleNoSourcesContinue`: closes the dialog and runs the query
        over all documents, without checking the gate again. */
    method NoSourcesContinue(outcome: QueryOutcome, ticks: nat, t0: int, t1: int)
      modifies this`conversation, this`query, this`loading, this`loadingMessage,
               this`intervalActive, this`messageIndex, this`calls, this`noSourcesDialog
      ensures !noSourcesDialog && QueryRan(old(conversation), old(calls), old(query), selected, outcome, ticks, t0, t1)
      ensures Valid()
    {
      noSourcesDialog := false;
      ExecuteQuery(outcome, ticks, t0, t1);
    }

    /** `handleNoSourcesCancel`. */
    method NoSourcesCancel()
      modifies this`noSourcesDialog
      ensures !noSourcesDialog
    {
      noSourcesDialog := false;
    }

    /** `handleClear`: asks for confirmation. */
    method RequestClear()
      modifies this`clearDialog
      ensures clearDialog
    {
      clearDialog := true;
    }

    /** `cancelClear`. */
    method CancelClear()
      modifies this`clearDialog
      ensures !clearDialog
    {
      clearDialog := false;
    }

    /** `confirmClear`: empties the log and the query box. */
    method ConfirmClear()
      modifies this`query, this`conversation, this`clearDialog
      ensures query == "" && conversation == [] && !clearDialog
    {
      query := "";
      conversation := [];
      clearDialog := false;
    }

    /** `handleFeedback`: the log changes only once the call succeeded. */
    method HandleFeedback(messageId: int, feedbackType: string, comment: Option<string>, ok: bool)
      modifies this`conversation, this`calls
      ensures calls == old(calls) + [SubmitFeedback(messageId, feedbackType, comment.GetOr(""))]
      ensures ok ==> conversation == SetFeedback(old(conversation), messageId, Feedback(feedbackType, comment.GetOr("")))
      ensures !ok ==> conversation == old(conversation)
    {
      var c := comment.GetOr("");
      calls := calls + [SubmitFeedback(messageId, feedbackType, c)];
      if ok {
        conversation := SetFeedback(conversation, messageId, Feedback(feedbackType, c));
      }
    }

    /** `handleFileUpload`: nothing for an empty selection of files;
        otherwise each file is uploaded in turn, a failure not stopping the
        next, the results are shown, and the list is fetched once. */
    method HandleFileUpload(files: seq<FileRef>, outcomes: seq<UploadOutcome>, fetch: FetchOutcome)
      requires |outcomes| == |files|
      modifies this`uploadDialog, this`uploading, this`documents, this`documentsLoaded,
               this`loadingDocs, this`calls
      ensures files == [] ==> unchanged(this)
      ensures files != [] ==>
        && uploadDialog == UploadDialog(true, files, UploadResults(files, outcomes))
        && !uploading && FetchApplied(fetch, old(documentsLoaded))
        && calls == old(calls) + UploadCalls(files) + [ListDocuments]
    {
      if |files| == 0 {
        return;
      }
      uploadDialog := UploadDialog(true, files, []);
      uploading := true;
      var results: seq<UploadResult> := [];
      var i := 0;
      while i < |files|
        modifies this`calls
        invariant 0 <= i <= |files|
        invariant |results| == i
        invariant forall k :: 0 <= k < i ==> results[k] == ResultFor(files[k], outcomes[k])
        invariant calls == old(calls) + UploadCalls(files[..i])
      {
        assert UploadCalls(files[..i + 1]) == UploadCalls(files[..i]) + [UploadDocument(files[i])];
        calls := calls + [UploadDocument(files[i])];
        results := results + [ResultFor(files[i], outcomes[i])];
        i := i + 1;
      }
      assert files[..i] == files;
      assert results == UploadResults(files, outcomes);
      uploadDialog := uploadDialog.(results := results);
      FetchDocuments(fetch);
      uploading := false;
    }
  }
}
