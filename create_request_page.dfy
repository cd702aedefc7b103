/**
 * The create-request page's form: it starts blank with privacy "public", and submitting
 * sends the form with the tags text parsed into a list.
 */
module CreateRequestPage {
  import opened Common
  import opened Json
  import opened Db
  import opened CommaList
  import opened HelpRequestsRoute

  /** The form state; `tags` is free text. */
  datatype RequestForm = RequestForm(title: string, description: string, category: string,
                                     tags: string, privacy: string)

  /** The form's initial state. */
  const InitialForm := RequestForm("", "", "", "", Public)

  /**
   * `handleSubmit`'s body: every form field, with the tags text replaced by the parsed list,
   * whose items are non-empty, trimmed and comma-free.
   */
  function SubmitBody(f: RequestForm): (b: CreateBody)
    ensures b.title == f.title && b.description == f.description && b.category == f.category
    ensures b.tags == Some(ParseList(f.tags)) && b.privacy == Some(f.privacy)
    ensures forall i :: 0 <= i < |b.tags.value| ==> CleanItem(b.tags.value[i])
  {
    ParsedItemsClean(f.tags);
    CreateBody(f.title, f.description, f.category, Some(ParseList(f.tags)), Some(f.privacy))
  }

  /** The untouched form submits no tags and privacy "public", and is stored that way. */
  lemma InitialSubmit(id: RequestId, owner: UserId, status: string, now: Timestamp)
    ensures SubmitBody(InitialForm).tags == Some([])
    ensures SubmitBody(InitialForm).privacy == Some(Public)
    ensures ParseColumn(NewRequest(id, owner, SubmitBody(InitialForm), status, now).tags) == Some([])
    ensures NewRequest(id, owner, SubmitBody(InitialForm), status, now).privacy == Public
  {
    ParseBlank(InitialForm.tags);
  }

  /**
   * A submitted form is stored with the parsed tags, read back unchanged, and with its
   * privacy, or "public" when the privacy field is empty.
   */
  lemma SubmittedRequest(f: RequestForm, id: RequestId, owner: UserId, status: string, now: Timestamp)
    ensures ParseColumn(NewRequest(id, owner, SubmitBody(f), status, now).tags) == Some(ParseList(f.tags))
    ensures NewRequest(id, owner, SubmitBody(f), status, now).privacy == if f.privacy != [] then f.privacy else Public
  {
  }
}
