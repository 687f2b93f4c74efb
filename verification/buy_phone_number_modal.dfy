/** The "Buy Phone Number" dialog: a searchable, paginated list of purchasable
    number offers with a multi-selection and a purchase action. */
module BuyModal {
  import opened Seqs
  import opened Text
  import opened Wrappers

  /** One purchasable number. The monthly price is display-only and is not
      part of this model. */
  datatype PhoneNumberOption = PhoneNumberOption(number: string, location: string, capabilities: seq<string>)

  /** The offers the dialog lists, in display order. */
  const MockAvailableNumbers: seq<PhoneNumberOption> := [
    PhoneNumberOption("+1(762)263-1409", "Wilmington", ["Voice", "SMS"]),
    PhoneNumberOption("+1(775)369-7206", "Imlay", ["Voice", "SMS"]),
    PhoneNumberOption("+1(938)223-1107", "Red Bay", ["Voice", "SMS"]),
    PhoneNumberOption("+1(775)269-7954", "Mcgill", ["Voice", "SMS"]),
    PhoneNumberOption("+1(270)812-9623", "Hawesville", ["Voice", "SMS"]),
    PhoneNumberOption("+1(231)440-1145", "Baldwin", ["Voice", "SMS"]),
    PhoneNumberOption("+1(231)272-5896", "Kingsley", ["Voice", "SMS"]),
    PhoneNumberOption("+1(856)406-2712", "Merchantville", ["Voice", "SMS"]),
    PhoneNumberOption("+1(856)432-7839", "Gloucester", ["Voice", "SMS"])
  ]

  const ItemsPerPage: nat := 8

  // ---------------------------------------------------------------------------
  // Search

  /** The search predicate: the number is matched case-sensitively, the
      location case-insensitively. */
  function OfferMatches(o: PhoneNumberOption, query: string): (b: bool)
    ensures query == [] ==> b
    ensures b ==> |query| <= |o.number| || |query| <= |o.location|
  {
    Includes(o.number, query) || Includes(Lower(o.location), Lower(query))
  }

  /** The offers that match the search box, in their original order. */
  function FilteredNumbers(offers: seq<PhoneNumberOption>, query: string): (r: seq<PhoneNumberOption>)
    ensures IsSubsequence(r, offers)
    ensures |r| <= |offers|
    ensures forall o :: o in r <==> o in offers && OfferMatches(o, query)
    ensures forall o :: multiset(r)[o] == if OfferMatches(o, query) then multiset(offers)[o] else 0
    ensures query == [] ==> r == offers
  {
    var keep := o => OfferMatches(o, query);
    FilterMultiplicity(offers, keep);
    if query == [] then FilterAllPass(offers, keep); Filter(offers, keep)
    else Filter(offers, keep)
  }

  /** An offer matches exactly when the query occurs verbatim in its number,
      or the lowercased query occurs in its lowercased location. */
  lemma OfferMatchesIff(o: PhoneNumberOption, query: string)
    ensures OfferMatches(o, query) <==>
      IsSubstring(query, o.number) || IsSubstring(Lower(query), Lower(o.location))
  {
    IncludesIffOccurs(o.number, query);
    IncludesIffOccurs(Lower(o.location), Lower(query));
  }

  // ---------------------------------------------------------------------------
  // Pagination

  /** `Math.ceil(n / itemsPerPage)`: the fewest pages of eight that hold `n`
      items; zero when there is nothing to show. */
  function TotalPages(n: nat): (t: nat)
    ensures (t - 1) * ItemsPerPage < n <= t * ItemsPerPage
    ensures t == 0 <==> n == 0
  {
    (n + ItemsPerPage - 1) / ItemsPerPage
  }

  /** `(currentPage - 1) * itemsPerPage`. */
  function StartIndex(page: int): (s: int)
    ensures s + ItemsPerPage == page * ItemsPerPage
    ensures s >= 0 <==> page >= 1
  {
    (page - 1) * ItemsPerPage
  }

  /** `filtered.slice(startIndex, startIndex + itemsPerPage)`: the items shown
      on page `page`. Page 0, which the "next" button can reach when nothing
      matches, starts at index -8 and so shows nothing. */
  function Paginate<T>(filtered: seq<T>, page: nat): (r: seq<T>)
    ensures |r| <= ItemsPerPage
    ensures page >= 1 && StartIndex(page) <= |filtered|
        ==> r == filtered[StartIndex(page)..Min(page * ItemsPerPage, |filtered|)]
    ensures page >= 1 && StartIndex(page) >= |filtered| ==> r == []
    ensures page == 0 ==> r == []
    ensures forall x | x in r :: x in filtered
  {
    JsSlice(filtered, StartIndex(page), StartIndex(page) + ItemsPerPage)
  }

  /** Pages 1 to `k`, one after the other. */
  function PagesUpTo<T>(filtered: seq<T>, k: nat): (r: seq<T>) {
    if k == 0 then [] else PagesUpTo(filtered, k - 1) + Paginate(filtered, k)
  }

  /** The first `k` pages are the first `8 * k` items (or all of them). */
  lemma {:induction false} PagesUpToIsPrefix<T>(filtered: seq<T>, k: nat)
    ensures PagesUpTo(filtered, k) == filtered[..Min(k * ItemsPerPage, |filtered|)]
  {
    if k > 0 {
      PagesUpToIsPrefix(filtered, k - 1);
      var n := |filtered|;
      if StartIndex(k) <= n {
        assert filtered[..Min(k * ItemsPerPage, n)]
            == filtered[..StartIndex(k)] + filtered[StartIndex(k)..Min(k * ItemsPerPage, n)];
      }
    }
  }

  /** Reading pages 1 to `TotalPages` in order gives back every filtered
      offer exactly once, in order. */
  lemma PagesReconstructFiltered<T>(filtered: seq<T>)
    ensures PagesUpTo(filtered, TotalPages(|filtered|)) == filtered
  {
    PagesUpToIsPrefix(filtered, TotalPages(|filtered|));
  }

  /** "Showing first N results": `Math.min(itemsPerPage, filtered.length)`. */
  function ShowingFirst(n: nat): (k: nat)
    ensures k <= ItemsPerPage && k <= n
    ensures k == n || k == ItemsPerPage
  {
    Min(ItemsPerPage, n)
  }

  /** The "Showing first" label counts the items of page 1, whichever page is
      on screen. */
  lemma ShowingFirstIsFirstPageSize<T>(filtered: seq<T>)
    ensures ShowingFirst(|filtered|) == |Paginate(filtered, 1)|
  {
  }

  /** The "previous" button: `Math.max(1, prev - 1)`. */
  function PrevPage(p: nat): (r: nat)
    ensures r >= 1
    ensures p > 1 ==> r == p - 1
    ensures p <= 1 ==> r == 1
  {
    if 1 >= p - 1 then 1 else p - 1
  }

  /** The "next" button: `Math.min(totalPages, prev + 1)`. It never passes the
      last page, steps forward by one before it, and steps BACK to the last
      page from beyond it (a search can shrink the page count without moving
      the cursor). */
  function NextPage(p: nat, totalPages: nat): (r: nat)
    ensures r <= totalPages
    ensures p < totalPages ==> r == p + 1
    ensures p >= totalPages ==> r == totalPages
  {
    Min(totalPages, p + 1)
  }

  /** With nothing matching, "next" moves the cursor to page 0. */
  lemma NextWithNoResultsGoesToZero(p: nat)
    ensures NextPage(p, TotalPages(0)) == 0
  {
  }

  // ---------------------------------------------------------------------------
  // Selection

  /** `handleNumberSelect`: drop `n` if it is selected, append it otherwise. */
  function Toggle(selected: seq<string>, n: string): (r: seq<string>)
    ensures n in r <==> n !in selected
    ensures forall m :: m != n ==> (m in r <==> m in selected)
    ensures NoDuplicates(selected) ==> NoDuplicates(r)
  {
    if n in selected then RemoveAll(selected, n) else selected + [n]
  }

  /** Toggling twice selects the same numbers as before; when `n` was not
      selected it restores the list exactly. */
  lemma ToggleTwice(selected: seq<string>, n: string)
    ensures forall m :: m in Toggle(Toggle(selected, n), n) <==> m in selected
    ensures n !in selected ==> Toggle(Toggle(selected, n), n) == selected
  {
    if n !in selected {
      RemoveAllAfterAppend(selected, n);
    }
  }

  // ---------------------------------------------------------------------------
  // The dialog's state

  /** The dialog's `useState` fields, updated synchronously. The provider and
      country pickers are not modelled: nothing in the list reads them. */
  class BuyPhoneNumberModal {
    var searchQuery: string
    var currentPage: nat
    var selectedNumbers: seq<string>

    /** The selection never lists a number twice. */
    ghost predicate Valid()
      reads this
    {
      NoDuplicates(selectedNumbers)
    }

    /** The offers listed under the current search. */
    function Filtered(): (r: seq<PhoneNumberOption>)
      reads this
      ensures IsSubsequence(r, MockAvailableNumbers)
      ensures forall o :: o in r <==> o in MockAvailableNumbers && OfferMatches(o, searchQuery)
    {
      FilteredNumbers(MockAvailableNumbers, searchQuery)
    }

    /** `totalPages` under the current search. */
    function PageCount(): (t: nat)
      reads this
      ensures t == 0 <==> Filtered() == []
      ensures (t - 1) * ItemsPerPage < |Filtered()| <= t * ItemsPerPage
    {
      TotalPages(|Filtered()|)
    }

    /** The offers on screen: at most one page of the current matches. */
    function Paginated(): (r: seq<PhoneNumberOption>)
      reads this
      ensures |r| <= ItemsPerPage
      ensures forall o | o in r :: o in Filtered()
      ensures currentPage == 0 ==> r == []
    {
      Paginate(Filtered(), currentPage)
    }

    constructor ()
      ensures Valid()
      ensures searchQuery == [] && currentPage == 1 && selectedNumbers == []
    {
      searchQuery := [];
      currentPage := 1;
      selectedNumbers := [];
    }

    /** Typing in the search box. The page cursor and the selection are kept. */
    method SetSearchQuery(query: string)
      modifies this
      ensures searchQuery == query
      ensures currentPage == old(currentPage) && selectedNumbers == old(selectedNumbers)
    {
      searchQuery := query;
    }

    method GoToPreviousPage()
      modifies this
      ensures currentPage == PrevPage(old(currentPage))
      ensures currentPage >= 1
      ensures searchQuery == old(searchQuery) && selectedNumbers == old(selectedNumbers)
    {
      currentPage := PrevPage(currentPage);
    }

    method GoToNextPage()
      modifies this
      ensures currentPage == NextPage(old(currentPage), old(PageCount()))
      ensures currentPage <= PageCount()
      ensures searchQuery == old(searchQuery) && selectedNumbers == old(selectedNumbers)
    {
      currentPage := NextPage(currentPage, PageCount());
    }

    method HandleNumberSelect(number: string)
      requires Valid()
      modifies this
      ensures Valid()
      ensures selectedNumbers == Toggle(old(selectedNumbers), number)
      ensures number in selectedNumbers <==> number !in old(selectedNumbers)
      ensures searchQuery == old(searchQuery) && currentPage == old(currentPage)
    {
      selectedNumbers := Toggle(selectedNumbers, number);
    }

    /** The "Save" button. `openChange` is the value passed to the parent's
        `onOpenChange` callback, `None` when it is not called. An empty
        selection changes nothing and keeps the dialog open; otherwise the
        selection is cleared and the dialog asks to be closed. */
    method HandlePurchase() returns (openChange: Option<bool>)
      requires Valid()
      modifies this
      ensures Valid()
      ensures old(selectedNumbers) == [] ==> openChange == None && selectedNumbers == []
      ensures old(selectedNumbers) != [] ==> openChange == Some(false) && selectedNumbers == []
      ensures searchQuery == old(searchQuery) && currentPage == old(currentPage)
    {
      if |selectedNumbers| == 0 {
        return None;
      }
      selectedNumbers := [];
      openChange := Some(false);
    }
  }

  // ---------------------------------------------------------------------------
  // The shipped offers

  /** With an empty search box the dialog lists all nine offers. */
  lemma MockOffersUnfiltered()
    ensures FilteredNumbers(MockAvailableNumbers, []) == MockAvailableNumbers
    ensures |FilteredNumbers(MockAvailableNumbers, [])| == 9
  {
  }

  /** Nine offers: two pages, of eight and of one. */
  lemma MockOffersPaging()
    ensures TotalPages(|MockAvailableNumbers|) == 2
    ensures |Paginate(MockAvailableNumbers, 1)| == 8
    ensures Paginate(MockAvailableNumbers, 2) == [MockAvailableNumbers[8]]
  {
    var n := |MockAvailableNumbers|;
    assert n == 9;
    assert Paginate(MockAvailableNumbers, 2) == MockAvailableNumbers[8..9];
  }

  /** "wilm" and "WILM" both find Wilmington through its location. */
  lemma WilmingtonFoundInAnyCase()
    ensures OfferMatches(MockAvailableNumbers[0], "wilm")
    ensures OfferMatches(MockAvailableNumbers[0], "WILM")
  {
    LowerWilmington();
    LowerQueryWilm();
  }

  lemma LowerWilmington()
    ensures Includes(Lower(MockAvailableNumbers[0].location), "wilm")
  {
    var loc := Lower(MockAvailableNumbers[0].location);
    assert loc[0] == 'w' && loc[1] == 'i' && loc[2] == 'l' && loc[3] == 'm';
    assert loc[..4] == "wilm";
  }

  lemma LowerQueryWilm()
    ensures Lower("WILM") == "wilm" && Lower("wilm") == "wilm"
  {
    var q, q' := Lower("WILM"), Lower("wilm");
    assert q[0] == 'w' && q[1] == 'i' && q[2] == 'l' && q[3] == 'm';
    assert q'[0] == 'w' && q'[1] == 'i' && q'[2] == 'l' && q'[3] == 'm';
  }
}
