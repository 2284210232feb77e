/** Answering questions over the corpus (backend-rag-final/api2.py): the guards and result
    shaping of `PDFRAGService.query`, the reply policy of the WhatsApp webhook, and the address
    handling of `WhatsAppService.send_message`. Retrieval, the answering model and the
    messaging transport are inputs. */
module Query {
  import opened Common
  import opened Text

  /** A retrieved document: its text and its metadata dictionary. */
  datatype Doc = Doc(content: string, metadata: map<string, string>)

  /** What similarity search and the answering chain did: raised, or returned the documents
      and the answer. */
  datatype Retrieval = RetrievalFailed(reason: string) | Retrieved(docs: seq<Doc>, answer: string)

  datatype Passage = Passage(source: string, sourceType: string, preview: string)

  /** The result dictionary of `query`, without its clock readings. The two source lists go
      through `set`, so only their elements are fixed. */
  datatype QueryResult = QueryResult(
    question: string,
    answer: string,
    sourcesUsed: nat,
    pdfSources: set<string>,
    excelSources: set<string>,
    passages: seq<Passage>)

  datatype QueryError = BadRequest(message: string) | InternalServerError(message: string)

  /** `doc.metadata.get(key, 'unknown')` */
  function MetaGet(d: Doc, key: string): string
  {
    if key in d.metadata then d.metadata[key] else "unknown"
  }

  /** The passage preview: the first 200 characters, marked when cut. */
  function PassagePreview(content: string): string
  {
    Truncate(content, 200, "...")
  }

  /** `source` names a retrieved document of the given type. */
  predicate SourceOfType(docs: seq<Doc>, sourceType: string, source: string)
  {
    exists k :: 0 <= k < |docs| && MetaGet(docs[k], "source_type") == sourceType && MetaGet(docs[k], "source") == source
  }

  /** The loop over the retrieved documents that sorts their sources into the PDF and the
      workbook list; other types are dropped. */
  method CollectSources(docs: seq<Doc>) returns (pdf: seq<string>, excel: seq<string>)
    ensures forall s :: s in pdf <==> SourceOfType(docs, "pdf", s)
    ensures forall s :: s in excel <==> SourceOfType(docs, "excel", s)
  {
    pdf, excel := [], [];
    var i := 0;
    while i < |docs|
      invariant 0 <= i <= |docs|
      invariant forall s :: s in pdf <==> SourceOfType(docs[..i], "pdf", s)
      invariant forall s :: s in excel <==> SourceOfType(docs[..i], "excel", s)
    {
      var sourceType := MetaGet(docs[i], "source_type");
      var sourceName := MetaGet(docs[i], "source");
      if sourceType == "pdf" {
        pdf := pdf + [sourceName];
      } else if sourceType == "excel" {
        excel := excel + [sourceName];
      }
      SourceOfTypeExtend(docs, i, "pdf");
      SourceOfTypeExtend(docs, i, "excel");
      i := i + 1;
    }
    assert docs[..i] == docs;
  }

  lemma SourceOfTypeExtend(docs: seq<Doc>, i: nat, sourceType: string)
    requires i < |docs|
    ensures forall s :: SourceOfType(docs[..i + 1], sourceType, s) <==>
              SourceOfType(docs[..i], sourceType, s)
              || (MetaGet(docs[i], "source_type") == sourceType && MetaGet(docs[i], "source") == s)
  {
    forall s | SourceOfType(docs[..i + 1], sourceType, s)
      ensures SourceOfType(docs[..i], sourceType, s)
              || (MetaGet(docs[i], "source_type") == sourceType && MetaGet(docs[i], "source") == s)
    {
      var k :| 0 <= k < i + 1 && MetaGet(docs[..i + 1][k], "source_type") == sourceType && MetaGet(docs[..i + 1][k], "source") == s;
      if k < i {
        assert docs[..i][k] == docs[..i + 1][k];
      }
    }
    forall s | SourceOfType(docs[..i], sourceType, s)
      ensures SourceOfType(docs[..i + 1], sourceType, s)
    {
      var k :| 0 <= k < i && MetaGet(docs[..i][k], "source_type") == sourceType && MetaGet(docs[..i][k], "source") == s;
      assert docs[..i + 1][k] == docs[..i][k];
    }
    assert docs[..i + 1][i] == docs[i];
  }

  /** `PDFRAGService.query`. `ready` says whether both the index and the answering chain are
      set. A blank question and a service that is not ready are refused before retrieval;
      a failure of retrieval or of the chain becomes an internal error carrying its message. */
  method Query(question: string, ready: bool, retrieval: Retrieval) returns (r: Result<QueryResult, QueryError>)
    ensures Strip(question) == "" ==> r == Err(BadRequest("Question cannot be empty"))
    ensures Strip(question) != "" && !ready ==> r == Err(InternalServerError("RAG system not properly initialized"))
    ensures Strip(question) != "" && ready && retrieval.RetrievalFailed? ==>
              r == Err(InternalServerError("Failed to process query: " + retrieval.reason))
    ensures r.Ok? <==> Strip(question) != "" && ready && retrieval.Retrieved?
    ensures r.Ok? ==>
              && r.value.question == question && r.value.answer == retrieval.answer
              && r.value.sourcesUsed == |retrieval.docs|
              && (forall s :: s in r.value.pdfSources <==> SourceOfType(retrieval.docs, "pdf", s))
              && (forall s :: s in r.value.excelSources <==> SourceOfType(retrieval.docs, "excel", s))
              && |r.value.passages| == Min(|retrieval.docs|, 2)
              && (forall i :: 0 <= i < |r.value.passages| ==>
                    r.value.passages[i] == Passage(MetaGet(retrieval.docs[i], "source"),
                                                   MetaGet(retrieval.docs[i], "source_type"),
                                                   PassagePreview(retrieval.docs[i].content)))
  {
    if Strip(question) == "" {
      return Err(BadRequest("Question cannot be empty"));
    }
    if !ready {
      return Err(InternalServerError("RAG system not properly initialized"));
    }
    match retrieval
    case RetrievalFailed(reason) =>
      r := Err(InternalServerError("Failed to process query: " + reason));
    case Retrieved(docs, answer) =>
      var pdf, excel := CollectSources(docs);
      var pdfSet, excelSet := (set s | s in pdf), (set s | s in excel);
      r := Ok(QueryResult(question, answer, |docs|, pdfSet, excelSet, Passages(docs)));
  }

  /** The relevant passages: the first two documents, each with its source and preview. */
  function Passages(docs: seq<Doc>): (ps: seq<Passage>)
    ensures |ps| == Min(|docs|, 2)
    ensures forall i :: 0 <= i < |ps| ==>
              ps[i] == Passage(MetaGet(docs[i], "source"), MetaGet(docs[i], "source_type"), PassagePreview(docs[i].content))
  {
    var shown := if |docs| <= 2 then docs else docs[..2];
    seq(|shown|, i requires 0 <= i < |shown| =>
      Passage(MetaGet(shown[i], "source"), MetaGet(shown[i], "source_type"), PassagePreview(shown[i].content)))
  }

  /** Previews are at most 203 characters and begin with the passage text. */
  lemma PassagePreviewBounded(content: string)
    ensures |PassagePreview(content)| <= 203
    ensures |content| <= 200 ==> PassagePreview(content) == content
    ensures StartsWith(PassagePreview(content), content[..MinNat(|content|, 200)])
  {
    TruncateBounds(content, 200, "...");
  }

  const ReplyLimit: nat := 1500
  const MoreDetails: string := "...\n\nFor more details, please contact us directly."
  const Greeting: string := "Hello! I'm your AI assistant. Ask me anything about our services."
  const Apology: string := "Sorry, I couldn't process your request. Please try again or contact support."
  const Unavailable: string := "Service temporarily unavailable. Please try again later."

  /** The body of the webhook's reply. `body` is the `Body` form field; `serviceUp` says
      whether the question-answering service was created. The stripped message is asked as
      a question; an answer over 1500 characters is cut and pointed to direct contact. */
  method WebhookReply(body: Option<string>, serviceUp: bool, ready: bool, retrieval: Retrieval) returns (reply: string)
    ensures !serviceUp ==> reply == Unavailable
    ensures serviceUp && Strip(body.UnwrapOr("")) == "" ==> reply == Greeting
    ensures serviceUp && Strip(body.UnwrapOr("")) != "" && !(ready && retrieval.Retrieved?) ==> reply == Apology
    ensures serviceUp && Strip(body.UnwrapOr("")) != "" && ready && retrieval.Retrieved? ==>
              reply == Truncate(retrieval.answer, ReplyLimit, MoreDetails)
  {
    var incoming := Strip(body.UnwrapOr(""));
    if !serviceUp {
      return Unavailable;
    }
    if incoming != "" {
      StripIdempotent(body.UnwrapOr(""));
      var result := Query(incoming, ready, retrieval);
      match result
      case Ok(res) =>
        var text := res.answer;
        if |text| > ReplyLimit {
          text := text[..ReplyLimit] + MoreDetails;
        }
        reply := text;
      case Err(_) =>
        reply := Apology;
    } else {
      reply := Greeting;
    }
  }

  /** Every webhook reply fits in the truncation limit plus the marker, and an answer within
      the limit is sent unchanged. */
  lemma WebhookReplyBounded(answer: string)
    ensures |Truncate(answer, ReplyLimit, MoreDetails)| <= ReplyLimit + |MoreDetails|
    ensures |answer| <= ReplyLimit ==> Truncate(answer, ReplyLimit, MoreDetails) == answer
    ensures |answer| > ReplyLimit ==>
              Truncate(answer, ReplyLimit, MoreDetails) == answer[..ReplyLimit] + MoreDetails
  {
    TruncateBounds(answer, ReplyLimit, MoreDetails);
  }

  const Prefix: string := "whatsapp:"

  /** The recipient rule of `send_message`: a number gets the `whatsapp:` prefix unless it
      already has it. */
  function NormalizeRecipient(to: string): (r: string)
    ensures StartsWith(r, Prefix)
    ensures StartsWith(to, Prefix) ==> r == to
    ensures !StartsWith(to, Prefix) ==> r[|Prefix|..] == to
  {
    if StartsWith(to, Prefix) then to else Prefix + to
  }

  /** Normalising a normalised recipient changes nothing. */
  lemma NormalizeRecipientIdempotent(to: string)
    ensures NormalizeRecipient(NormalizeRecipient(to)) == NormalizeRecipient(to)
  {
  }

  datatype MessageParams = MessageParams(body: string, sender: string, recipient: string, mediaUrl: seq<string>)

  /** The parameters `send_message` hands to the transport. The configured sender number is
      prefixed unconditionally, unlike the recipient. */
  function SendParams(senderNumber: string, to: string, message: string, mediaUrl: Option<string>): (p: MessageParams)
    ensures p.recipient == NormalizeRecipient(to) && p.body == message
    ensures p.sender == Prefix + senderNumber
    ensures p.mediaUrl != [] <==> mediaUrl.Some? && mediaUrl.value != ""
    ensures p.mediaUrl != [] ==> p.mediaUrl == [mediaUrl.value]
  {
    MessageParams(message, Prefix + senderNumber, NormalizeRecipient(to),
                  if mediaUrl.Some? && mediaUrl.value != "" then [mediaUrl.value] else [])
  }

  /** A sender number configured with the prefix is sent with it twice, while a recipient
      given with the prefix keeps a single one. */
  lemma SenderPrefixDoubles(number: string)
    ensures var p := SendParams(Prefix + number, Prefix + number, "", None);
            p.sender == Prefix + Prefix + number && p.recipient == Prefix + number
  {
    assert StartsWith(Prefix + number, Prefix) by {
      assert (Prefix + number)[..|Prefix|] == Prefix;
    }
  }
}
