/**
 * The invitations page (src/components/content/invitation/Invitations.tsx): the
 * label of an invitation's status and the toast that reports a response.
 */
module Invitations {

  /** src/types/Invitation.ts */
  datatype InvitationStatus = Pending | Accepted | Declined

  /** The status column of a sent invitation: pending and accepted have their own
      labels, everything else reads as declined. */
  function StatusLabel(status: InvitationStatus): string {
    if status == Pending then "Ожидание"
    else if status == Accepted then "Принято"
    else "Отклонено"
  }

  /** The three statuses have three different labels. */
  lemma StatusLabelInjective(s1: InvitationStatus, s2: InvitationStatus)
    ensures StatusLabel(s1) == StatusLabel(s2) <==> s1 == s2
  {
    if s1 != s2 {
      assert |StatusLabel(s1)| != |StatusLabel(s2)|;
    }
  }

  datatype ToastKind = SuccessToast | ErrorToast

  datatype Toast = Toast(open: bool, message: string, kind: ToastKind)

  /** The toast opened after responding to an invitation: its kind follows the
      outcome of the call, its message the outcome and whether it was accepted. */
  function ResponseToast(accepted: bool, succeeded: bool): (t: Toast)
    ensures t.open
    ensures t.kind == (if succeeded then SuccessToast else ErrorToast)
  {
    if succeeded then
      Toast(true, if accepted then "Вы присоединились к команде!" else "Приглашение отклонено.", SuccessToast)
    else
      Toast(true, if accepted then "Ошибка при принятии приглашения" else "Ошибка при отклонении приглашения", ErrorToast)
  }

  /** The four possible toasts differ in their message, so the message tells
      both what was answered and how the call ended. */
  lemma ResponseToastMessagesDistinct(a1: bool, s1: bool, a2: bool, s2: bool)
    ensures ResponseToast(a1, s1).message == ResponseToast(a2, s2).message <==> a1 == a2 && s1 == s2
  {
    var m1, m2 := ResponseToast(a1, s1).message, ResponseToast(a2, s2).message;
    if (a1, s1) != (a2, s2) {
      assert m1[0] != m2[0] || m1[10] != m2[10] || |m1| != |m2|;
    }
  }

  /** The response request: the invitation and the answer given. */
  datatype RespondRequest = RespondRequest(invitationId: int, accepted: bool)

  /** The toast state of the page. */
  class InvitationsPage {
    var toast: Toast

    constructor ()
      ensures toast == Toast(false, "", SuccessToast)
    {
      toast := Toast(false, "", SuccessToast);
    }

    /** `handleResponseToInvite`, given whether the call succeeds; returns the
        request sent and whether the invitation lists are reloaded, which happens
        only after success. */
    method RespondToInvite(id: int, accepted: bool, succeeds: bool) returns (request: RespondRequest, reload: bool)
      modifies this`toast
      ensures request == RespondRequest(id, accepted)
      ensures toast == ResponseToast(accepted, succeeds)
      ensures reload == succeeds
    {
      request := RespondRequest(id, accepted);
      toast := ResponseToast(accepted, succeeds);
      reload := succeeds;
    }

    /** The snackbar's close handler: only `open` changes. */
    method CloseToast()
      modifies this`toast
      ensures !toast.open && toast.message == old(toast).message && toast.kind == old(toast).kind
    {
      toast := toast.(open := false);
    }
  }
}
