/** Quiz deletion in src/components/QuizList.jsx: the delete button records
    the quiz awaiting confirmation and opens the dialog; confirming calls
    deleteQuizById (src/components/context/AuthProvider.jsx) and drops every
    entry with that id from the local list unless the call throws. The
    database's answer is an oracle. */
module QuizDeletion {
  import opened JsSemantics

  const Deleted := "Quiz deleted successfully"
  const DeleteFailed := "Failed to delete quiz."

  /** A row of the list: id, title, status and creation date as fetched. */
  datatype QuizItem = QuizItem(id: string, title: string, status: string, createdAt: string)

  datatype Toast = SuccessToast(text: string) | ErrorToast(text: string)

  /** What the quiz_sets delete query does: no error, an error result, or a throw. */
  datatype DbReply = DbOk | DbError | DbThrows

  /** How the awaited deleteQuizById(id) settles. */
  datatype CallResult = ReturnedSuccess | ReturnedUndefined | Threw

  /** deleteQuizById: no user or a database error both return undefined;
      only a throw from the client reaches the caller as an exception. */
  function DeleteQuizById(signedIn: bool, reply: DbReply): (r: CallResult)
    ensures r.Threw? <==> signedIn && reply.DbThrows?
    ensures r.ReturnedSuccess? <==> signedIn && reply.DbOk?
  {
    if !signedIn then ReturnedUndefined
    else match reply
      case DbOk => ReturnedSuccess
      case DbError => ReturnedUndefined
      case DbThrows => Threw
  }

  // ---------------------------------------------------------------------
  // prevQuizzes.filter((quiz) => quiz.id !== id)

  function WithoutId(qs: seq<QuizItem>, id: string): (r: seq<QuizItem>)
    ensures |r| <= |qs|
    ensures forall q :: q in r <==> q in qs && q.id != id
  {
    if qs == [] then []
    else if qs[0].id != id then [qs[0]] + WithoutId(qs[1..], id)
    else WithoutId(qs[1..], id)
  }

  function CountId(qs: seq<QuizItem>, id: string): nat {
    if qs == [] then 0 else (if qs[0].id == id then 1 else 0) + CountId(qs[1..], id)
  }

  /** The filter keeps the order of what it keeps: it distributes over
      concatenation. */
  lemma {:induction false} WithoutIdConcat(a: seq<QuizItem>, b: seq<QuizItem>, id: string)
    ensures WithoutId(a + b, id) == WithoutId(a, id) + WithoutId(b, id)
  {
    if a == [] {
      assert a + b == b;
    } else {
      assert (a + b)[0] == a[0] && (a + b)[1..] == a[1..] + b;
      WithoutIdConcat(a[1..], b, id);
    }
  }

  /** Exactly the entries with that id are dropped. */
  lemma {:induction false} WithoutIdLength(qs: seq<QuizItem>, id: string)
    ensures |WithoutId(qs, id)| == |qs| - CountId(qs, id)
  {
    if qs != [] {
      WithoutIdLength(qs[1..], id);
    }
  }

  /** A list with no entry of that id is left as it is. */
  lemma {:induction false} WithoutAbsentId(qs: seq<QuizItem>, id: string)
    requires forall q :: q in qs ==> q.id != id
    ensures WithoutId(qs, id) == qs
  {
    if qs != [] {
      assert forall q :: q in qs[1..] ==> q in qs;
      WithoutAbsentId(qs[1..], id);
    }
  }

  /** Filtering twice by the same id is filtering once. */
  lemma WithoutIdIdempotent(qs: seq<QuizItem>, id: string)
    ensures WithoutId(WithoutId(qs, id), id) == WithoutId(qs, id)
  {
    WithoutAbsentId(WithoutId(qs, id), id);
  }

  /** The list component's state. */
  class QuizList {
    var quizzes: seq<QuizItem>
    var quizToDeleteId: Option<string>
    var isDialogOpen: bool
    var isDeleting: bool
    var toasts: seq<Toast>

    /** After the fetch effect has loaded the creator's quizzes. */
    constructor (fetched: seq<QuizItem>)
      ensures quizzes == fetched && quizToDeleteId.None? && !isDialogOpen && !isDeleting && toasts == []
    {
      quizzes := fetched;
      quizToDeleteId := None;
      isDialogOpen := false;
      isDeleting := false;
      toasts := [];
    }

    /** handleDeleteClick(quizId) */
    method HandleDeleteClick(quizId: string)
      modifies this
      ensures quizToDeleteId == Some(quizId) && isDialogOpen
      ensures quizzes == old(quizzes) && isDeleting == old(isDeleting) && toasts == old(toasts)
    {
      quizToDeleteId := Some(quizId);
      isDialogOpen := true;
    }

    /** The dialog's onOpenChange (cancel or dismiss). */
    method SetDialogOpen(open: bool)
      modifies this
      ensures isDialogOpen == open
      ensures quizzes == old(quizzes) && quizToDeleteId == old(quizToDeleteId)
      ensures isDeleting == old(isDeleting) && toasts == old(toasts)
    {
      isDialogOpen := open;
    }

    /** confirmDelete up to its await: without a pending id nothing happens;
        otherwise the deleting flag is set and the id the call is made for is
        returned. */
    method BeginDelete() returns (pending: Option<string>)
      modifies this
      ensures IsFalsy(old(quizToDeleteId)) ==> pending.None? && isDeleting == old(isDeleting)
      ensures !IsFalsy(old(quizToDeleteId)) ==> pending == old(quizToDeleteId) && isDeleting
      ensures quizzes == old(quizzes) && quizToDeleteId == old(quizToDeleteId)
      ensures isDialogOpen == old(isDialogOpen) && toasts == old(toasts)
    {
      if IsFalsy(quizToDeleteId) {
        pending := None;
        return;
      }
      pending := quizToDeleteId;
      isDeleting := true;
    }

    /** confirmDelete once deleteQuizById(id) has settled: the list loses the
        captured id unless the call threw, one toast is shown, and the finally
        block resets the flags and the pending id, whatever id is pending by
        then. */
    method FinishDelete(id: string, settled: CallResult)
      modifies this
      ensures quizzes == (if settled.Threw? then old(quizzes) else WithoutId(old(quizzes), id))
      ensures toasts == old(toasts) + [if settled.Threw? then ErrorToast(DeleteFailed) else SuccessToast(Deleted)]
      ensures !isDeleting && !isDialogOpen && quizToDeleteId.None?
    {
      if settled.Threw? {
        toasts := toasts + [ErrorToast(DeleteFailed)];
      } else {
        quizzes := WithoutId(quizzes, id);
        toasts := toasts + [SuccessToast(Deleted)];
      }
      // finally
      isDeleting := false;
      isDialogOpen := false;
      quizToDeleteId := None;
    }

    /** confirmDelete run to completion with no other event in between, with
        whether a user is signed in and what the database does. Returns the
        call's settlement, None when no call is made. */
    method ConfirmDelete(signedIn: bool, reply: DbReply) returns (call: Option<CallResult>)
      modifies this
      ensures IsFalsy(old(quizToDeleteId)) ==>
                && call.None?
                && quizzes == old(quizzes) && quizToDeleteId == old(quizToDeleteId)
                && isDialogOpen == old(isDialogOpen) && isDeleting == old(isDeleting) && toasts == old(toasts)
      ensures !IsFalsy(old(quizToDeleteId)) ==>
                && call == Some(DeleteQuizById(signedIn, reply))
                && quizzes == (if call.value.Threw? then old(quizzes) else WithoutId(old(quizzes), old(quizToDeleteId).value))
                && toasts == old(toasts) + [if call.value.Threw? then ErrorToast(DeleteFailed) else SuccessToast(Deleted)]
                && !isDeleting && !isDialogOpen && quizToDeleteId.None?
    {
      var pending := BeginDelete();
      if pending.None? {
        call := None;
        return;
      }
      var settled := DeleteQuizById(signedIn, reply);
      call := Some(settled);
      FinishDelete(pending.value, settled);
    }
  }

  /** Deleting quiz a, the dialog is dismissed and the delete button of
      quiz b pressed while the call is pending. When the call for a settles,
      the list loses a, not b, and the finally block clears b's pending id
      and closes the dialog b opened. */
  method DeleteInterleavedWithNewClick(fetched: seq<QuizItem>, a: string, b: string)
    returns (pendingBefore: Option<string>, pendingAfter: Option<string>, dialogAfter: bool, after: seq<QuizItem>)
    requires a != ""
    ensures pendingBefore == Some(b) && pendingAfter.None? && !dialogAfter
    ensures after == WithoutId(fetched, a)
  {
    var list := new QuizList(fetched);
    list.HandleDeleteClick(a);
    var pending := list.BeginDelete();
    list.SetDialogOpen(false);
    list.HandleDeleteClick(b);
    pendingBefore := list.quizToDeleteId;
    list.FinishDelete(pending.value, DeleteQuizById(true, DbOk));
    pendingAfter := list.quizToDeleteId;
    dialogAfter := list.isDialogOpen;
    after := list.quizzes;
  }

  /** A database error does not reach confirmDelete as an exception, so the
      entry leaves the local list although it is still stored. */
  lemma DatabaseErrorStillRemovesLocally(qs: seq<QuizItem>, id: string, q: QuizItem)
    requires q in qs && q.id == id
    ensures !DeleteQuizById(true, DbError).Threw?
    ensures q !in WithoutId(qs, id)
    ensures |WithoutId(qs, id)| < |qs|
  {
    WithoutIdLength(qs, id);
    CountIdPositive(qs, id, q);
  }

  lemma {:induction false} CountIdPositive(qs: seq<QuizItem>, id: string, q: QuizItem)
    requires q in qs && q.id == id
    ensures CountId(qs, id) > 0
  {
    if qs[0] != q {
      CountIdPositive(qs[1..], id, q);
    }
  }
}
