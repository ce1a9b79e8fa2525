// The librarian's loan table of src/pages/admin/Borrowings.tsx: the label and
// variant ternaries of each row, the "Mark as Returned" action and the report flag.

module AdminBorrowings {
  import opened Types
  import opened Effects
  import BorrowingCard

  /** The label ternary: `returnDate ? "Returned" : dueDate < now ? "Overdue" : "Active"`. */
  function Label(b: Borrowing, now: int): (r: string)
    ensures r == "Returned" <==> Truthy(b.returnDate)
    ensures r == "Overdue" <==> !Truthy(b.returnDate) && b.dueDate < now
    ensures r == "Active" <==> !Truthy(b.returnDate) && !(b.dueDate < now)
  {
    if Truthy(b.returnDate) then "Returned"
    else if b.dueDate < now then "Overdue"
    else "Active"
  }

  /** The variant ternary, written separately from the label in the row. */
  function BadgeVariant(b: Borrowing, now: int): Variant {
    if Truthy(b.returnDate) then Success
    else if b.dueDate < now then Error
    else Primary
  }

  /** The two ternaries each call `new Date()`: the variant reads the clock at
      `variantAt`, the label a little later at `labelAt`. They move in lockstep,
      each label with its own variant, unless the due date falls between the two
      reads; then an unreturned loan gets the "primary" badge captioned "Overdue". */
  lemma LabelAndVariantInLockstep(b: Borrowing, variantAt: int, labelAt: int)
    requires variantAt <= labelAt
    ensures !(variantAt <= b.dueDate < labelAt) ==>
      && (Label(b, labelAt) == "Returned" <==> BadgeVariant(b, variantAt) == Success)
      && (Label(b, labelAt) == "Overdue" <==> BadgeVariant(b, variantAt) == Error)
      && (Label(b, labelAt) == "Active" <==> BadgeVariant(b, variantAt) == Primary)
    ensures !Truthy(b.returnDate) && variantAt <= b.dueDate < labelAt ==>
      BadgeVariant(b, variantAt) == Primary && Label(b, labelAt) == "Overdue"
  {
  }

  /** The librarian's table and the patron's card show the same badge for the
      same loan at the same instant. */
  lemma AgreesWithBorrowingCard(b: Borrowing, now: int)
    ensures BorrowingCard.StatusBadge(b, now) == Badge(Label(b, now), BadgeVariant(b, now))
  {
  }

  /** "Mark as Returned" is offered for loans without a return date. */
  predicate OffersMarkReturned(b: Borrowing) {
    !Truthy(b.returnDate)
  }

  /** The action is offered exactly on the loans the card calls active, and so
      never on a loan labelled "Returned". */
  lemma MarkReturnedOnActiveLoans(b: Borrowing, now: int)
    ensures OffersMarkReturned(b) <==> BorrowingCard.IsActive(b)
    ensures OffersMarkReturned(b) <==> Label(b, now) != "Returned"
  {
  }

  /** `handleReturn`: the return mutation for that loan, once the librarian confirms. */
  function HandleReturn(borrowingId: string, confirmed: bool): (r: Option<ApiCall>)
    ensures r.Some? <==> confirmed
    ensures r.Some? ==> r.value == ReturnBook(borrowingId)
  {
    if confirmed then Some(ReturnBook(borrowingId)) else None
  }

  /** The report button's flag: raised when the download starts and lowered in
      `finally`, whether the download succeeded or not. */
  class ReportDownload {
    var isGeneratingReport: bool

    constructor ()
      ensures !isGeneratingReport
    {
      isGeneratingReport := false;
    }

    method Start()
      modifies this
      ensures isGeneratingReport
    {
      isGeneratingReport := true;
    }

    /** The download settles; a failure shows an error toast. */
    method Finish(succeeded: bool) returns (effects: seq<Effect>)
      modifies this
      ensures !isGeneratingReport
      ensures succeeded ==> effects == []
      ensures !succeeded ==> effects == [Toast(ErrorToast, "Failed to generate report")]
    {
      if !succeeded {
        effects := [Toast(ErrorToast, "Failed to generate report")];
      } else {
        effects := [];
      }
      isGeneratingReport := false;
    }
  }
}
