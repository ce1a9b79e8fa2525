// The librarian's book form of src/components/admin/BookForm.tsx: its default
// record, the rule of each field, the genre options and the submit label.

module BookForm {
  import opened Types
  import opened Validation
  import BookSearch

  /** The record the form starts from when no book is given. */
  const Defaults := BookFormData("", "", "", "", 0, 1, "")

  /** `initialData || {...}`: a given record, however partial, is used as it stands. */
  function DefaultValues(initialData: Option<BookFormData>): BookFormData {
    initialData.GetOr(Defaults)
  }

  /** The book an edit starts from, as the form's record. */
  function FromBook(b: Book): BookFormData {
    BookFormData(b.name, b.isbn, b.author, b.publisher, b.numberOfPages, b.quantity, b.genre)
  }

  /** The registered fields, in the order the form registers them. */
  datatype Field = Name | Isbn | Author | Publisher | NumberOfPages | Quantity | Genre

  /** The message of the first rule of the field that the record breaks. */
  function FieldError(d: BookFormData, f: Field): Option<string> {
    match f
    case Name => RequiredError(d.name, "Book title is required")
    case Isbn => IsbnError(d.isbn)
    case Author => RequiredError(d.author, "Author is required")
    case Publisher => RequiredError(d.publisher, "Publisher is required")
    case NumberOfPages => AtLeastOneError(d.numberOfPages, "Pages must be at least 1")
    case Quantity => AtLeastOneError(d.quantity, "Quantity must be at least 1")
    case Genre => RequiredError(d.genre, "Genre is required")
  }

  function Errors(d: BookFormData): seq<(Field, string)> {
    Collect(Checks(d))
  }

  /** `handleSubmit(onSubmit)`: the record reaches `onSubmit` only without errors. */
  function Submit(d: BookFormData): Option<BookFormData> {
    if Errors(d) == [] then Some(d) else None
  }

  /** Each field with the outcome of its rules, in registration order. */
  function Checks(d: BookFormData): seq<(Field, Option<string>)> {
    [ (Name, FieldError(d, Name)), (Isbn, FieldError(d, Isbn)),
      (Author, FieldError(d, Author)), (Publisher, FieldError(d, Publisher)),
      (NumberOfPages, FieldError(d, NumberOfPages)), (Quantity, FieldError(d, Quantity)),
      (Genre, FieldError(d, Genre)) ]
  }

  /** No error is collected exactly when every field passes its rules. */
  lemma ErrorsEmptyWhenAllPass(d: BookFormData)
    ensures Errors(d) == [] <==>
      && FieldError(d, Name).None? && FieldError(d, Isbn).None? && FieldError(d, Author).None?
      && FieldError(d, Publisher).None? && FieldError(d, NumberOfPages).None?
      && FieldError(d, Quantity).None? && FieldError(d, Genre).None?
  {
    var checks := Checks(d);
    assert (forall i :: 0 <= i < |checks| ==> checks[i].1.None?) <==>
      checks[0].1.None? && checks[1].1.None? && checks[2].1.None? && checks[3].1.None? &&
      checks[4].1.None? && checks[5].1.None? && checks[6].1.None?;
  }

  /** A record is submitted exactly when the five text fields are filled, the
      ISBN has the accepted shape with 10 to 13 digits, and both numbers are at
      least 1; what is submitted is the record itself. */
  lemma SubmitAccepts(d: BookFormData)
    ensures Submit(d).Some? <==>
      && Present(d.name) && Present(d.author) && Present(d.publisher) && Present(d.genre)
      && IsbnShape(d.isbn) && 10 <= DigitCount(d.isbn) <= 13
      && d.numberOfPages >= 1 && d.quantity >= 1
    ensures Submit(d).Some? ==> Submit(d).value == d
  {
    ErrorsEmptyWhenAllPass(d);
  }

  /** The outcome of each rule on the blank form. */
  lemma DefaultChecks()
    ensures Checks(Defaults) == [
      (Name, Some("Book title is required")), (Isbn, Some("ISBN is required")),
      (Author, Some("Author is required")), (Publisher, Some("Publisher is required")),
      (NumberOfPages, Some("Pages must be at least 1")), (Quantity, None),
      (Genre, Some("Genre is required"))]
  {
  }

  /** The blank form breaks every text rule and the page minimum, but not the
      quantity minimum: the default of 0 pages must always be changed. */
  lemma DefaultsBreakPagesButNotQuantity()
    ensures FieldError(Defaults, Quantity).None?
    ensures FieldError(Defaults, NumberOfPages) == Some("Pages must be at least 1")
    ensures Errors(Defaults) == [
      (Name, "Book title is required"), (Isbn, "ISBN is required"),
      (Author, "Author is required"), (Publisher, "Publisher is required"),
      (NumberOfPages, "Pages must be at least 1"), (Genre, "Genre is required")]
  {
    DefaultChecks();
    var checks := Checks(Defaults);
    assert Collect(checks[6..]) == [(Genre, "Genre is required")];
    assert Collect(checks[5..]) == Collect(checks[6..]);
    assert Collect(checks[4..]) == [(NumberOfPages, "Pages must be at least 1")] + Collect(checks[5..]);
  }

  /** The record `handleSubmit` validates, given what was typed into the six
      inputs. The genre select's `{...register("genre")}` comes after its
      `onChange`, so react-hook-form's handler replaces `handleGenreChange`, and
      `Select` calls that handler with the chosen value rather than an event:
      nothing is stored, and the genre stays the default one. */
  function Submitted(initialData: Option<BookFormData>, typed: BookFormData): BookFormData {
    typed.(genre := DefaultValues(initialData).genre)
  }

  /** The select is held at `initialData?.genre || ""`. */
  function ShownGenre(initialData: Option<BookFormData>): string {
    if initialData.Some? then initialData.value.genre else ""
  }

  /** A new book is never submitted: whatever is typed and chosen, the genre
      stays "" and "Genre is required" is reported. */
  lemma NewBookNeverSubmits(typed: BookFormData)
    ensures Submit(Submitted(None, typed)).None?
    ensures FieldError(Submitted(None, typed), Genre) == Some("Genre is required")
  {
    SubmitAccepts(Submitted(None, typed));
  }

  /** An edit submits the book's own genre whatever is chosen, which is also the
      genre the select keeps showing; the other six fields are what was typed. */
  lemma EditSubmitsBookGenre(b: Book, typed: BookFormData)
    ensures var d := Submitted(Some(FromBook(b)), typed);
      d.genre == b.genre == ShownGenre(Some(FromBook(b))) && d.(genre := typed.genre) == typed
    ensures Submit(Submitted(Some(FromBook(b)), typed)).Some? ==>
      Submit(Submitted(Some(FromBook(b)), typed)).value.genre == b.genre
    ensures ShownGenre(None) == Submitted(None, typed).genre
  {
  }

  /** Whatever else is filled in, a record that keeps the default page count is
      never submitted. */
  lemma DefaultPageCountBlocksSubmit(d: BookFormData)
    requires d.numberOfPages == Defaults.numberOfPages
    ensures Submit(d).None?
  {
    SubmitAccepts(d);
  }

  /** The genre options: the labels of the search form, without "All Genres". */
  function GenreOptions(genres: Option<seq<string>>): seq<SelectOption> {
    BookSearch.GenreList(genres)
  }

  /** The options are those of the search form with its first entry dropped,
      and none of them is the "All Genres" entry. */
  lemma GenreOptionsAsInSearch(genres: Option<seq<string>>)
    ensures GenreOptions(genres) == BookSearch.GenreOptions(genres)[1..]
    ensures BookSearch.AllGenres !in GenreOptions(genres)
  {
    var r := GenreOptions(genres);
    assert BookSearch.GenreOptions(genres)[1..] == r;
    forall i | 0 <= i < |r|
      ensures r[i] != BookSearch.AllGenres
    {
      if r[i].value == "" {
        assert |r[i].caption| == 0;
      }
    }
  }

  /** `initialData?.name ? "Update Book" : "Add Book"`. */
  function SubmitLabel(initialData: Option<BookFormData>): (r: string)
    ensures r == "Update Book" <==> initialData.Some? && Present(initialData.value.name)
    ensures r == "Add Book" <==> !(initialData.Some? && Present(initialData.value.name))
  {
    if initialData.Some? && Present(initialData.value.name) then "Update Book" else "Add Book"
  }

  /** An edit starts from the book's own fields and is labelled "Update Book"
      whenever the book has a title; a new book is labelled "Add Book". */
  lemma EditStartsFromBook(b: Book)
    ensures DefaultValues(Some(FromBook(b))) == FromBook(b)
    ensures DefaultValues(None) == Defaults
    ensures SubmitLabel(Some(FromBook(b))) == "Update Book" <==> b.name != ""
    ensures SubmitLabel(None) == "Add Book"
  {
  }
}
