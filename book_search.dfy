// The search form of src/components/books/BookSearch.tsx: its field record, the
// change, clear and submit handlers, and the genre options.

module BookSearch {
  import opened Types
  import Text
  import BookList

  /** The form's record: every field is a string, "" when unset. */
  datatype Fields = Fields(title: string, author: string, isbn: string, genre: string)

  const EmptyFields := Fields("", "", "", "")

  /** `value || ""`. */
  function OrEmpty(s: Option<string>): (r: string)
    ensures Truthy(s) ==> r == s.value
    ensures !Truthy(s) ==> r == ""
  {
    if Truthy(s) then s.value else ""
  }

  /** The record the form starts from, given `initialParams`. */
  function InitialFields(p: SearchParams): Fields {
    Fields(OrEmpty(p.title), OrEmpty(p.author), OrEmpty(p.isbn), OrEmpty(p.genre))
  }

  /** The record `onSearch` receives on submit. */
  function AsParams(f: Fields): SearchParams {
    SearchParams(Some(f.title), Some(f.author), Some(f.isbn), Some(f.genre), None, None)
  }

  /** The two conversions between the form's record and the search parameters
      agree: the parameters a submit emits, read as `initialParams`, give the
      same four fields. (The form reads `initialParams` only when it mounts.) */
  lemma InitialFieldsRoundTrip(f: Fields)
    ensures InitialFields(AsParams(f)) == f
  {
  }

  /** The `name` attributes of the three text inputs. */
  datatype InputName = TitleInput | AuthorInput | IsbnInput

  class SearchForm {
    var fields: Fields

    constructor (initialParams: SearchParams)
      ensures fields == InitialFields(initialParams)
    {
      fields := InitialFields(initialParams);
    }

    /** `handleInputChange`: `[name]: value`, every other field kept. */
    method HandleInputChange(name: InputName, value: string)
      modifies this
      ensures fields.title == (if name == TitleInput then value else old(fields.title))
      ensures fields.author == (if name == AuthorInput then value else old(fields.author))
      ensures fields.isbn == (if name == IsbnInput then value else old(fields.isbn))
      ensures fields.genre == old(fields.genre)
    {
      match name {
        case TitleInput => fields := fields.(title := value);
        case AuthorInput => fields := fields.(author := value);
        case IsbnInput => fields := fields.(isbn := value);
      }
    }

    method HandleGenreChange(value: string)
      modifies this
      ensures fields == old(fields).(genre := value)
    {
      fields := fields.(genre := value);
    }

    /** `handleSearch`: the record is emitted as it stands. */
    method HandleSubmit() returns (emitted: SearchParams)
      ensures emitted == AsParams(fields)
      ensures InitialFields(emitted) == fields
    {
      emitted := AsParams(fields);
    }

    /** `handleClear`: every field emptied and `{}` emitted. */
    method HandleClear() returns (emitted: SearchParams)
      modifies this
      ensures fields == EmptyFields
      ensures emitted == NoParams
    {
      fields := EmptyFields;
      emitted := NoParams;
    }
  }

  /** Clearing and submitting an empty form differ as records ("" against
      undefined) but lead the catalogue to the same request. */
  lemma ClearMatchesEmptySubmit(currentPage: int)
    ensures AsParams(EmptyFields) != NoParams
    ensures BookList.BooksRequest(AsParams(EmptyFields), currentPage) == BookList.BooksRequest(NoParams, currentPage)
  {
  }

  const AllGenres := SelectOption("", "All Genres")

  /** The label of a genre: first character upper-cased, the rest lower-cased. */
  function GenreOption(genre: string): SelectOption {
    SelectOption(genre, Text.Capitalize(genre))
  }

  /** One option per genre, in order; [] until the genres have arrived. */
  function GenreList(genres: Option<seq<string>>): (r: seq<SelectOption>)
    ensures genres.None? ==> r == []
    ensures genres.Some? ==> |r| == |genres.value| && forall i :: 0 <= i < |r| ==> r[i] == GenreOption(genres.value[i])
  {
    if genres.None? then [] else seq(|genres.value|, i requires 0 <= i < |genres.value| => GenreOption(genres.value[i]))
  }

  /** `genreOptions`: "All Genres" first, then the genres. */
  function GenreOptions(genres: Option<seq<string>>): seq<SelectOption> {
    [AllGenres] + GenreList(genres)
  }

  /** The options begin with "All Genres" (value ""), then each genre in order as
      its own value with a capitalised label; labelling a label again changes
      nothing. */
  lemma GenreOptionsShape(genres: Option<seq<string>>)
    ensures var r := GenreOptions(genres);
      && r[0] == AllGenres
      && |r| == 1 + (if genres.None? then 0 else |genres.value|)
      && (genres.Some? ==> forall i :: 0 <= i < |genres.value| ==>
            r[i + 1].value == genres.value[i]
            && r[i + 1].caption == Text.Capitalize(genres.value[i])
            && Text.Capitalize(r[i + 1].caption) == r[i + 1].caption)
  {
    var r, l := GenreOptions(genres), GenreList(genres);
    assert r[1..] == l;
    if genres.Some? {
      forall i | 0 <= i < |genres.value|
        ensures r[i + 1].value == genres.value[i]
        ensures r[i + 1].caption == Text.Capitalize(genres.value[i])
        ensures Text.Capitalize(r[i + 1].caption) == r[i + 1].caption
      {
        assert r[i + 1] == l[i] == GenreOption(genres.value[i]);
        Text.CapitalizeIdempotent(genres.value[i]);
      }
    }
  }
}
