/** The Document entity: a validated title and content, a provenance label and two timestamps. */
module Documents {
  import opened Wrappers
  import opened Text

  /** A UUID: 128 bits, chosen by the caller (the source draws it from uuid4). */
  type DocumentId = n: nat | n < 0x1_0000_0000_0000_0000_0000_0000_0000_0000

  /** An instant read from the caller's clock. */
  type Timestamp = int

  datatype Document = Document(
    id: DocumentId,
    title: string,
    content: string,
    source: string,
    createdAt: Timestamp,
    updatedAt: Timestamp)

  /** The two field validators' failures, one per rejected field. */
  datatype DocumentError = EmptyTitle | EmptyContent {
    /** The message the validator raises. */
    function Message(): (m: string)
      ensures |m| > 0
    {
      match this
      case EmptyTitle => "Document title cannot be empty"
      case EmptyContent => "Document content cannot be empty"
    }
  }

  /** The message tells which field was rejected. */
  lemma DocumentMessageNamesField(e1: DocumentError, e2: DocumentError)
    ensures e1.Message() == e2.Message() <==> e1 == e2
  {
  }

  /** What the validators guarantee of every document they let through. */
  predicate HasTitleAndContent(d: Document) {
    !Blank(d.title) && !Blank(d.content)
  }

  /** `title_not_empty`: `not v or not v.strip()` rejects the value, otherwise it is kept as given. */
  function ValidateTitle(title: string): (r: Result<string, DocumentError>)
    ensures r.Success? <==> !Blank(title)
    ensures r.Success? ==> r.value == title
    ensures r.Failure? ==> r.error == EmptyTitle
  {
    if title == [] || Strip(title) == [] then Failure(EmptyTitle) else Success(title)
  }

  /** `content_not_empty`: the same rule for the content field. */
  function ValidateContent(content: string): (r: Result<string, DocumentError>)
    ensures r.Success? <==> !Blank(content)
    ensures r.Success? ==> r.value == content
    ensures r.Failure? ==> r.error == EmptyContent
  {
    if content == [] || Strip(content) == [] then Failure(EmptyContent) else Success(content)
  }

  /** Constructing a Document. Every field is validated and every failure is reported, in
      declaration order (title, then content). `source` defaults to the empty string and both
      timestamps default to one reading of the clock. */
  function NewDocument(
    id: DocumentId, createdAt: Timestamp, title: string, content: string,
    source: string := "", updatedAt: Timestamp := createdAt): (r: Result<Document, seq<DocumentError>>)
    ensures r.Success? <==> !Blank(title) && !Blank(content)
    ensures r.Success? ==>
      && HasTitleAndContent(r.value)
      && r.value.title == title && r.value.content == content && r.value.source == source
      && r.value.id == id && r.value.createdAt == createdAt && r.value.updatedAt == updatedAt
    ensures r.Failure? ==>
      && (EmptyTitle in r.error <==> Blank(title))
      && (EmptyContent in r.error <==> Blank(content))
      && |r.error| <= 2
      && (|r.error| == 2 ==> r.error == [EmptyTitle, EmptyContent])
  {
    match (ValidateTitle(title), ValidateContent(content))
    case (Success(t), Success(c)) => Success(Document(id, t, c, source, createdAt, updatedAt))
    case (Failure(e), Success(_)) => Failure([e])
    case (Success(_), Failure(e)) => Failure([e])
    case (Failure(e1), Failure(e2)) => Failure([e1, e2])
  }

  /** `update_content`: sets the content and stamps `updatedAt` with the current time; the
      content is not validated again, since pydantic validates only at construction. */
  function UpdateContent(d: Document, content: string, now: Timestamp): (r: Document)
    ensures r.content == content && r.updatedAt == now
    ensures r.id == d.id && r.title == d.title && r.source == d.source && r.createdAt == d.createdAt
  {
    d.(content := content, updatedAt := now)
  }

  /** Because `update_content` skips the validator, a well-formed document can be given empty content. */
  lemma UpdateContentSkipsValidation(d: Document, now: Timestamp)
    requires HasTitleAndContent(d)
    ensures !HasTitleAndContent(UpdateContent(d, "", now))
  {
  }

  /** With non-blank content, `update_content` keeps the validators' guarantee. */
  lemma UpdateContentKeepsWellFormed(d: Document, content: string, now: Timestamp)
    requires HasTitleAndContent(d) && !Blank(content)
    ensures HasTitleAndContent(UpdateContent(d, content, now))
  {
  }
}
