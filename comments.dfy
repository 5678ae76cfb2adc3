/**
 * The comment box under a product: the draft comment, the draft reply, the
 * single open reply form, and the two callbacks the box invokes on submit.
 */
module Comments {
  import opened Wrappers
  import opened Text
  import opened Types

  /**
   * The guard shared by both submit handlers: the trimmed text is a
   * non-empty (truthy) string and somebody is signed in.
   */
  predicate CanSubmit(text: string, user: Option<User>) {
    Trim(text) != "" && user.Some?
  }

  /** The guard refuses exactly the white-space-only drafts and the signed-out visitor. */
  lemma CanSubmitMeaning(text: string, user: Option<User>)
    ensures CanSubmit(text, user) <==> !AllSpace(text) && user.Some?
  {
    TrimEmptyIff(text);
  }

  /** One invocation of a callback the page passed in. */
  datatype Callback =
    | CommentPosted(content: string)
    | ReplyPosted(commentId: string, content: string)
  {
    /** What the callback carries: non-empty text with no surrounding white space. */
    predicate WellFormed() {
      content != "" && Trimmed(content)
    }
  }

  /** The box's state; `posted` records the callback invocations in order. */
  class CommentBox {
    /** The signed-in user, if any, as the authentication context reports it. */
    var user: Option<User>
    var newComment: string
    var replyingTo: Option<string>
    var replyContent: string
    var posted: seq<Callback>

    /** Every callback carried trimmed, non-empty text. */
    ghost predicate Valid()
      reads this
    {
      forall i :: 0 <= i < |posted| ==> posted[i].WellFormed()
    }

    /** Both drafts empty, no reply form open, nothing posted. */
    constructor (user: Option<User>)
      ensures Valid()
      ensures this.user == user
      ensures newComment == "" && replyingTo == None && replyContent == "" && posted == []
    {
      this.user := user;
      newComment := "";
      replyingTo := None;
      replyContent := "";
      posted := [];
    }

    /** Typing in the comment box. */
    method EditComment(text: string)
      requires Valid()
      modifies this
      ensures Valid()
      ensures user == old(user)
      ensures newComment == text
      ensures replyingTo == old(replyingTo) && replyContent == old(replyContent) && posted == old(posted)
    {
      newComment := text;
    }

    /** Typing in the open reply form. */
    method EditReply(text: string)
      requires Valid()
      modifies this
      ensures Valid()
      ensures user == old(user)
      ensures replyContent == text
      ensures newComment == old(newComment) && replyingTo == old(replyingTo) && posted == old(posted)
    {
      replyContent := text;
    }

    /**
     * `handleSubmitComment`: when the guard holds, invokes `onAddComment`
     * once with the trimmed draft and clears the draft; otherwise nothing
     * happens at all.
     */
    method SubmitComment()
      requires Valid()
      modifies this
      ensures Valid()
      ensures user == old(user)
      ensures CanSubmit(old(newComment), old(user)) ==>
                posted == old(posted) + [CommentPosted(Trim(old(newComment)))] && newComment == ""
      ensures !CanSubmit(old(newComment), old(user)) ==> posted == old(posted) && newComment == old(newComment)
      ensures replyingTo == old(replyingTo) && replyContent == old(replyContent)
    {
      if CanSubmit(newComment, user) {
        posted := posted + [CommentPosted(Trim(newComment))];
        newComment := "";
      }
    }

    /**
     * `handleSubmitReply`: when the guard holds, invokes `onAddReply` once
     * with `commentId` and the trimmed draft, clears the draft and closes
     * the reply form; otherwise nothing happens at all.
     */
    method SubmitReply(commentId: string)
      requires Valid()
      requires replyingTo == Some(commentId)
      modifies this
      ensures Valid()
      ensures user == old(user)
      ensures CanSubmit(old(replyContent), old(user)) ==>
                && posted == old(posted) + [ReplyPosted(commentId, Trim(old(replyContent)))]
                && replyContent == "" && replyingTo == None
      ensures !CanSubmit(old(replyContent), old(user)) ==>
                posted == old(posted) && replyContent == old(replyContent) && replyingTo == old(replyingTo)
      ensures newComment == old(newComment)
    {
      if CanSubmit(replyContent, user) {
        posted := posted + [ReplyPosted(commentId, Trim(replyContent))];
        replyContent := "";
        replyingTo := None;
      }
    }

    /** The Reply button: opens the form under `commentId`, or closes it when it is already the open one. */
    method ToggleReply(commentId: string)
      requires Valid()
      modifies this
      ensures Valid()
      ensures user == old(user)
      ensures replyingTo == if old(replyingTo) == Some(commentId) then None else Some(commentId)
      ensures newComment == old(newComment) && replyContent == old(replyContent) && posted == old(posted)
    {
      replyingTo := if replyingTo == Some(commentId) then None else Some(commentId);
    }

    /** The Cancel button: closes the reply form and clears the reply draft. */
    method CancelReply()
      requires Valid()
      modifies this
      ensures Valid()
      ensures user == old(user)
      ensures replyingTo == None && replyContent == ""
      ensures newComment == old(newComment) && posted == old(posted)
    {
      replyingTo := None;
      replyContent := "";
    }

    /**
     * `useAuth()` reporting a sign-in or a sign-out while the box is
     * mounted: only `user` changes, so an open reply form stays selected
     * and reappears after signing in again.
     */
    method AuthChanged(u: Option<User>)
      requires Valid()
      modifies this
      ensures Valid()
      ensures user == u
      ensures newComment == old(newComment) && replyingTo == old(replyingTo)
      ensures replyContent == old(replyContent) && posted == old(posted)
    {
      user := u;
    }
  }

  /**
   * Pressing Reply twice on the same comment leaves that comment's form as
   * it was (open or closed) and closes any other comment's form.
   */
  method ToggleTwice(box: CommentBox, commentId: string)
    requires box.Valid()
    modifies box
    ensures box.Valid()
    ensures box.replyingTo == if old(box.replyingTo) == Some(commentId) then Some(commentId) else None
    ensures box.newComment == old(box.newComment) && box.replyContent == old(box.replyContent)
    ensures box.posted == old(box.posted) && box.user == old(box.user)
  {
    box.ToggleReply(commentId);
    box.ToggleReply(commentId);
  }
}
