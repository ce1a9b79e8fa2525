// The patron's loan page of src/components/borrowings/BorrowingList.tsx: the
// loading and empty states, the two sections and the `isReturning` flag of the
// return mutation.

module BorrowingList {
  import opened Types
  import opened Effects
  import BorrowingCard

  /** A query's `data`: absent until it has been fetched. */
  type Data = Option<seq<Borrowing>>

  /** `!data || data.length === 0`. */
  predicate NoneOrEmpty(d: Data) {
    d.None? || |d.value| == 0
  }

  /** `.filter((borrowing) => borrowing.returnDate)`. */
  function HistoryFilter(s: seq<Borrowing>): (r: seq<Borrowing>)
    ensures |r| <= |s|
    ensures forall b :: b in r ==> b in s && Truthy(b.returnDate)
  {
    if s == [] then []
    else if Truthy(s[0].returnDate) then [s[0]] + HistoryFilter(s[1..])
    else HistoryFilter(s[1..])
  }

  /** The filter keeps every returned record. */
  lemma {:induction false} HistoryFilterKeepsReturned(s: seq<Borrowing>)
    ensures forall b :: b in s && Truthy(b.returnDate) ==> b in HistoryFilter(s)
  {
    if s != [] {
      HistoryFilterKeepsReturned(s[1..]);
      assert forall b :: b in s ==> b == s[0] || b in s[1..];
    }
  }

  /** The filter works record by record, so it keeps the original order: it
      distributes over concatenation. */
  lemma {:induction false} HistoryFilterAppend(a: seq<Borrowing>, b: seq<Borrowing>)
    ensures HistoryFilter(a + b) == HistoryFilter(a) + HistoryFilter(b)
  {
    if a == [] {
      assert a + b == b;
    } else {
      assert (a + b)[0] == a[0];
      assert (a + b)[1..] == a[1..] + b;
      HistoryFilterAppend(a[1..], b);
    }
  }

  /** Filtering twice is filtering once. */
  lemma {:induction false} HistoryFilterIdempotent(s: seq<Borrowing>)
    ensures HistoryFilter(HistoryFilter(s)) == HistoryFilter(s)
  {
    if s != [] {
      HistoryFilterIdempotent(s[1..]);
      if Truthy(s[0].returnDate) {
        assert ([s[0]] + HistoryFilter(s[1..]))[0] == s[0];
        assert ([s[0]] + HistoryFilter(s[1..]))[1..] == HistoryFilter(s[1..]);
      }
    }
  }

  /** The cards of a section, each with the props the page passes. */
  function Cards(s: seq<Borrowing>, hasOnReturn: bool, isLoading: bool, now: int): (r: seq<BorrowingCard.CardView>)
    ensures |r| == |s|
    ensures forall i :: 0 <= i < |s| ==> r[i] == BorrowingCard.Card(s[i], hasOnReturn, isLoading, now)
  {
    seq(|s|, i requires 0 <= i < |s| => BorrowingCard.Card(s[i], hasOnReturn, isLoading, now))
  }

  datatype ListView =
    | Loading
    | NothingBorrowed
    | Sections(active: Option<seq<BorrowingCard.CardView>>, history: Option<seq<BorrowingCard.CardView>>)

  /** What the page renders; a section is present when its query returned a
      non-empty list. */
  function View(active: Data, loadingActive: bool, history: Data, loadingHistory: bool,
                isReturning: bool, now: int): (v: ListView)
    ensures v == Loading <==> loadingActive || loadingHistory
    ensures v == NothingBorrowed <==> !(loadingActive || loadingHistory) && NoneOrEmpty(active) && NoneOrEmpty(history)
    ensures v.Sections? ==> v.active.Some? || v.history.Some?
  {
    if loadingActive || loadingHistory then Loading
    else if NoneOrEmpty(active) && NoneOrEmpty(history) then NothingBorrowed
    else Sections(
      if !NoneOrEmpty(active) then Some(Cards(active.value, true, isReturning, now)) else None,
      if !NoneOrEmpty(history) then Some(Cards(HistoryFilter(history.value), false, false, now)) else None)
  }

  /** Every unreturned loan in the active section gets a Return button that is
      disabled while a return is in flight; no history card ever gets one. */
  lemma ReturnButtonsOnlyInActiveSection(active: Data, history: Data, isReturning: bool, now: int)
    requires View(active, false, history, false, isReturning, now).Sections?
    ensures var v := View(active, false, history, false, isReturning, now);
      && (v.active.Some? ==> forall i :: 0 <= i < |active.value| && BorrowingCard.IsActive(active.value[i]) ==>
            v.active.value[i].returnButton == Some(BorrowingCard.ReturnButton(active.value[i].id, isReturning)))
      && (v.history.Some? ==> forall c :: c in v.history.value ==> c.returnButton.None? && c.returnedFooter)
  {
    var v := View(active, false, history, false, isReturning, now);
    if v.history.Some? {
      var h := HistoryFilter(history.value);
      forall c | c in v.history.value
        ensures c.returnButton.None? && c.returnedFooter
      {
        var i :| 0 <= i < |v.history.value| && v.history.value[i] == c;
        assert h[i] in h;
      }
    }
  }

  /** The state of the return mutation on this page. */
  class ReturnFlow {
    var isReturning: bool

    constructor ()
      ensures !isReturning
    {
      isReturning := false;
    }

    /** `handleReturnBook` then `onMutate`: the request for that loan goes out and
        the flag goes up. */
    method HandleReturnBook(borrowingId: string) returns (call: ApiCall)
      modifies this
      ensures isReturning
      ensures call == ReturnBook(borrowingId)
    {
      call := ReturnBook(borrowingId);
      isReturning := true;
    }

    /** `onSuccess`: a toast, both queries refetched, the flag lowered. */
    method OnSuccess() returns (effects: seq<Effect>)
      modifies this
      ensures !isReturning
      ensures effects == [Toast(SuccessToast, "Book returned successfully!"),
                          Refetch("activeBorrowings"), Refetch("borrowingHistory")]
    {
      effects := [Toast(SuccessToast, "Book returned successfully!")];
      effects := effects + [Refetch("activeBorrowings")];
      effects := effects + [Refetch("borrowingHistory")];
      isReturning := false;
    }

    /** `onError`: a toast and the flag lowered; nothing is refetched. */
    method OnError() returns (effects: seq<Effect>)
      modifies this
      ensures !isReturning
      ensures effects == [Toast(ErrorToast, "Failed to return book. Please try again.")]
      ensures Calls(effects) == []
    {
      effects := [Toast(ErrorToast, "Failed to return book. Please try again.")];
      isReturning := false;
    }
  }
}
