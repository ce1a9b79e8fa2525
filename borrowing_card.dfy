// The loan card of src/components/borrowings/BorrowingCard.tsx: its status badge,
// the overdue highlight, the Return button and the "Returned" footer.
// `isPast(d)` is `d < now` on instants in milliseconds.

module BorrowingCard {
  import opened Types
  import Button

  /** `!borrowing.returnDate`: the loan has not been handed back. */
  predicate IsActive(b: Borrowing) {
    !Truthy(b.returnDate)
  }

  /** `!borrowing.returnDate && isPast(new Date(borrowing.dueDate))`. */
  predicate IsOverdue(b: Borrowing, now: int) {
    !Truthy(b.returnDate) && b.dueDate < now
  }

  const ReturnedBadge := Badge("Returned", Success)
  const OverdueBadge := Badge("Overdue", Error)
  const ActiveBadge := Badge("Active", Primary)

  /** `getStatusBadge`: Returned before Overdue before Active. */
  function StatusBadge(b: Borrowing, now: int): (r: Badge)
    ensures r == ReturnedBadge || r == OverdueBadge || r == ActiveBadge
  {
    if Truthy(b.returnDate) then ReturnedBadge
    else if IsOverdue(b, now) then OverdueBadge
    else ActiveBadge
  }

  /** A set return date wins regardless of the due date; an unreturned loan past
      its due date is overdue; anything else is active. */
  lemma StatusPriority(b: Borrowing, now: int)
    ensures StatusBadge(b, now) == ReturnedBadge <==> Truthy(b.returnDate)
    ensures StatusBadge(b, now) == OverdueBadge <==> !Truthy(b.returnDate) && b.dueDate < now
    ensures StatusBadge(b, now) == ActiveBadge <==> !Truthy(b.returnDate) && now <= b.dueDate
    ensures IsOverdue(b, now) ==> IsActive(b)
  {
  }

  /** The status never goes back to Active once a loan is overdue: overdue at one
      instant stays overdue at every later one. */
  lemma OverdueIsPermanent(b: Borrowing, now: int, later: int)
    requires now <= later && IsOverdue(b, now)
    ensures StatusBadge(b, later) == OverdueBadge
  {
  }

  /** The Return button: it emits the loan's id and is disabled while loading. */
  datatype ReturnButton = ReturnButton(emits: string, disabled: bool)

  datatype CardView = CardView(
    badge: Badge, dueDateHighlighted: bool,
    returnButton: Option<ReturnButton>, returnedFooter: bool)

  /** The card for a loan; `hasOnReturn` says whether the parent passed `onReturn`. */
  function Card(b: Borrowing, hasOnReturn: bool, isLoading: bool, now: int): (v: CardView)
    ensures v.badge == StatusBadge(b, now)
    ensures v.returnButton.Some? <==> IsActive(b) && hasOnReturn
    ensures v.returnButton.Some? ==> v.returnButton.value.emits == b.id
    ensures v.returnButton.Some? ==> (v.returnButton.value.disabled <==> isLoading)
    ensures v.returnedFooter <==> !IsActive(b)
    ensures v.dueDateHighlighted <==> v.badge == OverdueBadge
  {
    CardView(
      StatusBadge(b, now),
      IsOverdue(b, now),
      if IsActive(b) && hasOnReturn then Some(ReturnButton(b.id, Button.Disabled(false, isLoading))) else None,
      !IsActive(b))
  }

  /** A card offers either the Return button or the "Returned" footer, never both. */
  lemma ButtonOrFooter(b: Borrowing, isLoading: bool, now: int)
    ensures var v := Card(b, true, isLoading, now);
      v.returnButton.Some? != v.returnedFooter
    ensures !Card(b, false, isLoading, now).returnButton.Some?
  {
  }
}
