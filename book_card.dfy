// The catalogue card of src/components/books/BookCard.tsx: availability badge,
// genre text, details link and the optional Borrow button.

module BookCard {
  import opened Types
  import Text
  import Button
  import Routes

  /** The one availability rule of the client: a copy is left on the shelf. */
  predicate IsAvailable(b: Book) {
    b.availableQuantity > 0
  }

  const AvailableBadge := Badge("Available", Success)
  const UnavailableBadge := Badge("Unavailable", Error)

  function AvailabilityBadge(b: Book): (r: Badge)
    ensures r == AvailableBadge <==> IsAvailable(b)
    ensures r == UnavailableBadge <==> !IsAvailable(b)
  {
    if IsAvailable(b) then AvailableBadge else UnavailableBadge
  }

  /** The Borrow button: disabled when nothing is left or a borrow is in flight. */
  datatype BorrowButton = BorrowButton(emits: string, disabled: bool)

  datatype CardView = CardView(badge: Badge, genreText: string, detailsLink: string, borrow: Option<BorrowButton>)

  /** The card; `hasOnBorrow` says whether the parent passed `onBorrow`. */
  function Card(b: Book, hasOnBorrow: bool, isLoading: bool): (v: CardView)
    ensures v.badge == AvailabilityBadge(b)
    ensures v.borrow.Some? <==> hasOnBorrow
    ensures v.borrow.Some? ==> v.borrow.value.emits == b.id
    ensures v.borrow.Some? ==> (v.borrow.value.disabled <==> !IsAvailable(b) || isLoading)
  {
    CardView(
      AvailabilityBadge(b),
      Text.LowerAll(b.genre),
      "/books/" + b.id,
      if hasOnBorrow then Some(BorrowButton(b.id, Button.Disabled(!IsAvailable(b) || isLoading, isLoading))) else None)
  }

  /** What a click on Borrow hands to `onBorrow`: nothing when the button is
      missing or disabled. */
  function ClickBorrow(v: CardView): Option<string> {
    if v.borrow.Some? && !v.borrow.value.disabled then Some(v.borrow.value.emits) else None
  }

  /** A click reaches `onBorrow` exactly when it was passed, a copy is left and no
      borrow is in flight, and then it carries the book's id. */
  lemma BorrowOnlyWhenAvailable(b: Book, hasOnBorrow: bool, isLoading: bool)
    ensures ClickBorrow(Card(b, hasOnBorrow, isLoading)).Some? <==> hasOnBorrow && IsAvailable(b) && !isLoading
    ensures ClickBorrow(Card(b, hasOnBorrow, isLoading)).Some? ==> ClickBorrow(Card(b, hasOnBorrow, isLoading)).value == b.id
  {
  }

  /** The genre is shown with no upper-case letter, and the details link is the
      location the route table serves the book's page at. */
  lemma GenreAndLink(b: Book)
    ensures var v := Card(b, false, false);
      && |v.genreText| == |b.genre|
      && (forall i :: 0 <= i < |v.genreText| ==> !Text.IsUpper(v.genreText[i]))
      && Text.LowerAll(v.genreText) == v.genreText
      && v.detailsLink == Routes.Href(Routes.PathOf(Routes.BookDetails(b.id)))
    ensures b.id != "" ==> Routes.Match(Routes.PathOf(Routes.BookDetails(b.id))) == Some(Routes.BookDetails(b.id))
  {
    var v := Card(b, false, false);
    assert Routes.Join(["books", b.id][1..]) == "/" + b.id;
    if b.id != "" {
      Routes.MatchPathOf(Routes.BookDetails(b.id));
    }
  }
}
