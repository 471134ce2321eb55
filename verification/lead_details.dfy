/** The lead details modal's comment form. A submit with blank text, or
    while a submit is in flight, does nothing. Otherwise the current user is
    looked up, one comment row is inserted with the trimmed text, and on
    success the lead with that comment appended is handed to the owner and
    the text box is cleared; on any failure an alert is shown and the text
    is kept. The in-flight flag is cleared once the handler finishes. */
module LeadDetails {
  import opened Wrappers
  import opened Strings
  import opened Types

  const NotAuthenticatedMessage := "Usuário não autenticado"
  /** The alert shown for every failure, whatever was caught. */
  const AddCommentAlert := "Erro ao adicionar comentário. Por favor, tente novamente."

  /** The form's state: the text box and the in-flight flag. */
  datatype FormState = FormState(newComment: string, isSubmitting: bool)

  /** The row inserted into the comments table. */
  datatype CommentInsert = CommentInsert(leadId: string, content: string, userId: string)

  /** Everything one submit does: the final form state, the insert it sends,
      the updated lead handed to `onUpdate`, the message of the error it
      caught (which is only logged), and the alert it shows. */
  datatype SubmitEffects = SubmitEffects(
    form: FormState,
    insert: Option<CommentInsert>,
    updated: Option<Lead>,
    failure: Option<string>,
    alert: Option<string>)

  /** The send button is enabled. */
  predicate CanSend(f: FormState) {
    !IsBlank(f.newComment) && !f.isSubmitting
  }

  /** The database's reply to the insert: the stored comment row, or an
      error message. */
  type InsertReply = Result<Comment>

  /** `lead` with `c` appended to its comment thread: one more comment, the
      old thread as a prefix, `c` last, and every other field unchanged. */
  function AppendComment(lead: Lead, c: Comment): (r: Lead)
    ensures |r.comments| == |lead.comments| + 1
    ensures r.comments[..|lead.comments|] == lead.comments
    ensures r.comments[|lead.comments|] == c
    ensures r.(comments := lead.comments) == lead
  {
    lead.(comments := lead.comments + [c])
  }

  /** `handleAddComment`, given the current user (`getUser`) and the
      database's reply to the insert (consulted only when an insert is sent). */
  function HandleAddComment(lead: Lead, f: FormState, user: Option<string>, reply: InsertReply): (e: SubmitEffects)
    ensures !CanSend(f) ==> e == SubmitEffects(f, None, None, None, None)
    ensures CanSend(f) ==> !e.form.isSubmitting
    ensures CanSend(f) && user.None? ==>
      e == SubmitEffects(f, None, None, Some(NotAuthenticatedMessage), Some(AddCommentAlert))
    ensures e.insert.Some? <==> CanSend(f) && user.Some?
    ensures e.insert.Some? ==> e.insert.value.leadId == lead.id && e.insert.value.userId == user.value
    ensures e.insert.Some? ==> e.insert.value.content != []
    ensures e.updated.Some? <==> e.insert.Some? && reply.Ok?
    ensures e.updated.Some? ==>
      && e.updated.value.(comments := lead.comments) == lead
      && e.updated.value.comments == lead.comments + [reply.value]
      && e.form.newComment == []
      && e.failure.None?
    ensures e.failure.Some? ==> e.form.newComment == f.newComment && e.updated.None?
    ensures e.insert.Some? && reply.Err? ==> e.failure == Some(reply.message)
    ensures CanSend(f) ==> (e.updated.Some? <==> e.failure.None?)
    ensures e.alert.Some? <==> e.failure.Some?
    ensures e.alert.Some? ==> e.alert.value == AddCommentAlert
  {
    BlankTrim(f.newComment);
    if IsBlank(f.newComment) || f.isSubmitting then SubmitEffects(f, None, None, None, None)
    else
      var submitting := f.(isSubmitting := true);
      match user
      case None =>
        SubmitEffects(submitting.(isSubmitting := false), None, None, Some(NotAuthenticatedMessage), Some(AddCommentAlert))
      case Some(userId) =>
        var insert := CommentInsert(lead.id, Trim(f.newComment), userId);
        match reply
        case Err(message) =>
          SubmitEffects(submitting.(isSubmitting := false), Some(insert), None, Some(message), Some(AddCommentAlert))
        case Ok(comment) =>
          SubmitEffects(FormState([], false), Some(insert), Some(AppendComment(lead, comment)), None, None)
  }

  /** The inserted row carries the trimmed text of the box. */
  lemma InsertCarriesTrimmedText(lead: Lead, f: FormState, userId: string, reply: InsertReply)
    requires CanSend(f)
    ensures HandleAddComment(lead, f, Some(userId), reply).insert == Some(CommentInsert(lead.id, Trim(f.newComment), userId))
  {
  }

  /** The send button is enabled exactly when a submit would do something:
      with the button disabled the handler is a no-op, and with it enabled
      the handler always reports a result or a failure. */
  lemma SendButtonMatchesGuard(lead: Lead, f: FormState, user: Option<string>, reply: InsertReply)
    ensures CanSend(f) <==> HandleAddComment(lead, f, user, reply) != SubmitEffects(f, None, None, None, None)
  {
  }

  /** After a successful submit the form is ready for the next comment only
      once new text is typed: a second submit with the cleared box is a
      no-op, so the same comment is never inserted twice. */
  lemma NoDoubleInsert(lead: Lead, f: FormState, userId: string, c: Comment, reply: InsertReply)
    requires CanSend(f)
    ensures
      var e := HandleAddComment(lead, f, Some(userId), Ok(c));
      HandleAddComment(e.updated.value, e.form, Some(userId), reply).insert.None?
  {
  }
}
