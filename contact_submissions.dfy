/**
 * The contact submissions page: viewing an unread submission marks it as
 * read, and a confirmed delete removes it from the list.
 */
module ContactSubmissions {
  import opened Wrappers
  import opened Lists
  import opened ApiRoutes

  datatype Submission = Submission(
    id: string,
    name: string,
    email: string,
    message: string,
    isRead: bool,
    createdAt: string)

  function SubmissionId(s: Submission): string {
    s.id
  }

  /**
   * The mark-as-read `map`: same length and order; the entries with id `id`
   * become read, and no other field of any entry changes.
   */
  function MarkRead(s: seq<Submission>, id: string): (r: seq<Submission>)
    ensures |r| == |s|
    ensures forall i :: 0 <= i < |s| ==> r[i].(isRead := s[i].isRead) == s[i]
    ensures forall i :: 0 <= i < |s| ==> r[i].isRead == (s[i].isRead || s[i].id == id)
  {
    if s == [] then []
    else [if s[0].id == id then s[0].(isRead := true) else s[0]] + MarkRead(s[1..], id)
  }

  /** Marking the same id as read twice is the same as marking it once. */
  lemma MarkReadIdempotent(s: seq<Submission>, id: string)
    ensures MarkRead(MarkRead(s, id), id) == MarkRead(s, id)
  {
    var once := MarkRead(s, id);
    var twice := MarkRead(once, id);
    forall i | 0 <= i < |s| ensures twice[i] == once[i] {
      assert once[i].(isRead := s[i].isRead) == s[i];
    }
  }

  /** When every entry with that id is already read, marking it changes nothing. */
  lemma MarkReadWhenRead(s: seq<Submission>, id: string)
    requires forall i :: 0 <= i < |s| && s[i].id == id ==> s[i].isRead
    ensures MarkRead(s, id) == s
  {
    var r := MarkRead(s, id);
    forall i | 0 <= i < |s| ensures r[i] == s[i] {
      assert r[i].(isRead := s[i].isRead) == s[i];
    }
  }

  /** Marking as read and deleting by id commute: the two updates touch different things. */
  lemma {:induction false} MarkReadCommutesWithDelete(s: seq<Submission>, read: string, deleted: string)
    ensures Without(MarkRead(s, read), SubmissionId, deleted) == MarkRead(Without(s, SubmissionId, deleted), read)
  {
    if s != [] {
      MarkReadCommutesWithDelete(s[1..], read, deleted);
      var head := if s[0].id == read then s[0].(isRead := true) else s[0];
      assert MarkRead(s, read) == [head] + MarkRead(s[1..], read);
      assert ([head] + MarkRead(s[1..], read))[1..] == MarkRead(s[1..], read);
      if s[0].id != deleted {
        assert Without(s, SubmissionId, deleted) == [s[0]] + Without(s[1..], SubmissionId, deleted);
      }
    }
  }

  /** The page's state, and the service calls it has issued. */
  class ContactSubmissionsPage {
    var submissions: seq<Submission>
    var selectedSubmission: Option<Submission>
    var isViewDialogOpen: bool
    var isDeleteDialogOpen: bool
    var calls: seq<ServiceCall>

    constructor ()
      ensures submissions == [] && selectedSubmission == None
      ensures !isViewDialogOpen && !isDeleteDialogOpen && calls == []
    {
      submissions := [];
      selectedSubmission := None;
      isViewDialogOpen := false;
      isDeleteDialogOpen := false;
      calls := [];
    }

    /** `fetchSubmissions`: shows the fetched list as it came, or keeps the old one when the request fails. */
    method FetchSubmissions(fetched: Option<seq<Submission>>)
      modifies this
      ensures calls == old(calls) + [Crud(ContactSubmissions, GetAll)]
      ensures submissions == fetched.GetOr(old(submissions))
      ensures selectedSubmission == old(selectedSubmission)
      ensures isViewDialogOpen == old(isViewDialogOpen) && isDeleteDialogOpen == old(isDeleteDialogOpen)
    {
      calls := calls + [Crud(ContactSubmissions, GetAll)];
      if fetched.Some? {
        submissions := fetched.value;
      }
    }

    /**
     * `handleViewClick`: selects the submission and opens the view dialog;
     * only an unread submission is marked as read, and the list changes only
     * when that call succeeds (`marked`).
     */
    method HandleViewClick(submission: Submission, marked: bool)
      modifies this
      ensures selectedSubmission == Some(submission) && isViewDialogOpen
      ensures isDeleteDialogOpen == old(isDeleteDialogOpen)
      ensures submission.isRead ==> calls == old(calls) && submissions == old(submissions)
      ensures !submission.isRead ==>
        && calls == old(calls) + [MarkAsRead(submission.id)]
        && submissions == (if marked then MarkRead(old(submissions), submission.id) else old(submissions))
    {
      selectedSubmission := Some(submission);
      isViewDialogOpen := true;
      if !submission.isRead {
        calls := calls + [MarkAsRead(submission.id)];
        if marked {
          submissions := MarkRead(submissions, submission.id);
        }
      }
    }

    /** `handleDeleteClick`: selects the submission and opens the delete dialog. */
    method HandleDeleteClick(submission: Submission)
      modifies this
      ensures selectedSubmission == Some(submission) && isDeleteDialogOpen
      ensures isViewDialogOpen == old(isViewDialogOpen)
      ensures submissions == old(submissions) && calls == old(calls)
    {
      selectedSubmission := Some(submission);
      isDeleteDialogOpen := true;
    }

    /**
     * `confirmDelete`: with nothing selected, nothing happens. Otherwise one
     * delete call; when it succeeds the submissions with that id leave the
     * list; either way the delete dialog ends closed with nothing selected.
     */
    method ConfirmDelete(deleted: bool)
      modifies this
      ensures isViewDialogOpen == old(isViewDialogOpen)
      ensures old(selectedSubmission).None? ==>
        submissions == old(submissions) && isDeleteDialogOpen == old(isDeleteDialogOpen)
        && selectedSubmission == None && calls == old(calls)
      ensures old(selectedSubmission).Some? ==>
        && var id := old(selectedSubmission).value.id;
        && calls == old(calls) + [Crud(ContactSubmissions, Remove(id))]
        && submissions == (if deleted then Without(old(submissions), SubmissionId, id) else old(submissions))
        && !isDeleteDialogOpen && selectedSubmission == None
    {
      if selectedSubmission.None? {
        return;
      }
      var id := selectedSubmission.value.id;
      calls := calls + [Crud(ContactSubmissions, Remove(id))];
      if deleted {
        submissions := Without(submissions, SubmissionId, id);
      }
      isDeleteDialogOpen := false;
      selectedSubmission := None;
    }

    /** The "mark as read" button: one call; the list changes only when it succeeds. */
    method MarkAsReadClick(submission: Submission, marked: bool)
      modifies this
      ensures calls == old(calls) + [MarkAsRead(submission.id)]
      ensures submissions == (if marked then MarkRead(old(submissions), submission.id) else old(submissions))
      ensures selectedSubmission == old(selectedSubmission)
      ensures isViewDialogOpen == old(isViewDialogOpen) && isDeleteDialogOpen == old(isDeleteDialogOpen)
    {
      calls := calls + [MarkAsRead(submission.id)];
      if marked {
        submissions := MarkRead(submissions, submission.id);
      }
    }
  }
}
