/** The comment rules of the approve/reject dialog
    (leave-app/src/components/leaves/ApprovalModal.tsx): a rejection needs a
    non-blank comment, the comment handed on is trimmed, and confirming or
    closing clears the dialog. */
module ApprovalModal {
  import opened Wrappers
  import opened Text

  datatype Kind = Approve | Reject

  const RejectNeedsComment := "Comments are required when rejecting"

  /** What `handleConfirm` passes to `onConfirm`, or `None` when it refuses. */
  function ConfirmedComment(kind: Kind, comments: string): (r: Option<string>)
    ensures r.None? <==> kind == Reject && AllWhitespace(comments)
    ensures r.Some? ==> r.value == Trim(comments)
    ensures kind == Approve ==> r.Some?
    ensures kind == Reject && r.Some? ==> r.value != [] && !IsWhitespace(r.value[0]) && !IsWhitespace(r.value[|r.value| - 1])
  {
    if kind == Reject && Trim(comments) == [] then None else Some(Trim(comments))
  }

  /** An approval whose comment is blank hands on the empty string, which the
      approval stores as null. */
  lemma BlankApprovalStoresNoComment(comments: string)
    requires AllWhitespace(comments)
    ensures ConfirmedComment(Approve, comments) == Some("")
  {
  }

  /** The dialog's state: the comment text and the error message (`""` when none). */
  class Dialog {
    const kind: Kind
    var comments: string
    var error: string

    constructor (kind: Kind)
      ensures this.kind == kind && comments == "" && error == ""
    {
      this.kind := kind;
      comments, error := "", "";
    }

    /** `handleConfirm`: either the error is set and nothing is confirmed, or the
        trimmed comment is confirmed and both fields are cleared. */
    method HandleConfirm() returns (confirmed: Option<string>)
      modifies this
      ensures confirmed == ConfirmedComment(kind, old(comments))
      ensures confirmed.None? ==> comments == old(comments) && error == RejectNeedsComment
      ensures confirmed.Some? ==> comments == "" && error == ""
    {
      if kind == Reject && Trim(comments) == [] {
        error := RejectNeedsComment;
        return None;
      }
      confirmed := Some(Trim(comments));
      comments := "";
      error := "";
    }

    /** `handleClose`: both fields are cleared. */
    method HandleClose()
      modifies this
      ensures comments == "" && error == ""
    {
      comments := "";
      error := "";
    }

    /** The text area's `onChange`: the new text replaces the comment and clears the error. */
    method EditComments(text: string)
      modifies this
      ensures comments == text && error == ""
    {
      comments := text;
      error := "";
    }
  }
}
