/** The "Phone Numbers" page: a searchable table of owned numbers with row
    selection, a "select all" header checkbox, capability statistics, and the
    "Add Number" button that opens the buy dialog. */
module Dashboard {
  import opened Seqs
  import opened Text
  import opened Wrappers
  import BuyModal

  datatype Capability = Call | SMS | MMS

  datatype NumberType = Local | TollFree

  datatype PhoneNumber = PhoneNumber(
    id: string,
    number: string,
    numberType: NumberType,
    capabilities: seq<Capability>,
    owner: string,
    sharedWith: seq<string>,
    location: Option<string>,
    country: string)

  /** The numbers the table starts with. */
  const MockPhoneNumbers: seq<PhoneNumber> := [
    PhoneNumber("1", "+1(555)123-4567", Local, [Call, SMS, MMS], "John Doe", [], Some("New York"), "US"),
    PhoneNumber("2", "+1(555)234-5678", Local, [Call, SMS, MMS], "Jane Smith", ["AL", "WI"], Some("California"), "US"),
    PhoneNumber("3", "+1(555)345-6789", Local, [Call, SMS, MMS], "Mike Johnson", ["AL"], Some("Texas"), "US"),
    PhoneNumber("4", "+1(555)456-7890", Local, [Call, SMS, MMS], "Sarah Wilson", [], Some("Florida"), "US"),
    PhoneNumber("5", "+1(555)567-8901", Local, [Call, SMS, MMS], "David Brown", ["WI"], Some("Illinois"), "US")
  ]

  // ---------------------------------------------------------------------------
  // Search

  /** The search predicate: the lowercased query occurs in the lowercased
      number, owner, or location when there is one. */
  function RecordMatches(p: PhoneNumber, query: string): (b: bool)
    ensures query == [] ==> b
    ensures b ==> || |query| <= |p.number|
                  || |query| <= |p.owner|
                  || (p.location.Some? && |query| <= |p.location.value|)
  {
    var q := Lower(query);
    || Includes(Lower(p.number), q)
    || Includes(Lower(p.owner), q)
    || (p.location.Some? && Includes(Lower(p.location.value), q))
  }

  /** The rows the table shows, in their original order. */
  function FilteredNumbers(records: seq<PhoneNumber>, query: string): (r: seq<PhoneNumber>)
    ensures IsSubsequence(r, records)
    ensures |r| <= |records|
    ensures forall p :: p in r <==> p in records && RecordMatches(p, query)
    ensures forall p :: multiset(r)[p] == if RecordMatches(p, query) then multiset(records)[p] else 0
    ensures query == [] ==> r == records
  {
    var keep := p => RecordMatches(p, query);
    FilterMultiplicity(records, keep);
    if query == [] then FilterAllPass(records, keep); Filter(records, keep)
    else Filter(records, keep)
  }

  /** A record matches exactly when the lowercased query occurs in its
      lowercased number, its lowercased owner, or its lowercased location;
      a record without a location can match only through number or owner. */
  lemma RecordMatchesIff(p: PhoneNumber, query: string)
    ensures RecordMatches(p, query) <==>
      || IsSubstring(Lower(query), Lower(p.number))
      || IsSubstring(Lower(query), Lower(p.owner))
      || (p.location.Some? && IsSubstring(Lower(query), Lower(p.location.value)))
  {
    IncludesIffOccurs(Lower(p.number), Lower(query));
    IncludesIffOccurs(Lower(p.owner), Lower(query));
    if p.location.Some? {
      IncludesIffOccurs(Lower(p.location.value), Lower(query));
    }
  }

  /** The search ignores letter case: queries that lowercase alike show the
      same rows. */
  lemma {:induction false} SearchIgnoresCase(records: seq<PhoneNumber>, q1: string, q2: string)
    requires Lower(q1) == Lower(q2)
    ensures FilteredNumbers(records, q1) == FilteredNumbers(records, q2)
  {
    FilterCongruent(records, p => RecordMatches(p, q1), p => RecordMatches(p, q2));
  }

  /** Searching for a query shows the same rows as searching for its
      lowercase form. */
  lemma SearchSameAsLowercased(records: seq<PhoneNumber>, query: string)
    ensures FilteredNumbers(records, query) == FilteredNumbers(records, Lower(query))
  {
    LowerIdempotent(query);
    SearchIgnoresCase(records, query, Lower(query));
  }

  /** "Showing X of Y entries": X rows shown out of Y records. */
  function ShowingCounts(records: seq<PhoneNumber>, query: string): (counts: (nat, nat))
    ensures counts.0 == |set i: nat | i < |records| && RecordMatches(records[i], query)|
    ensures counts.0 <= counts.1 == |records|
    ensures query == [] ==> counts.0 == counts.1
  {
    var keep := p => RecordMatches(p, query);
    FilterLength(records, keep);
    assert PassingPositions(records, keep) == set i: nat | i < |records| && RecordMatches(records[i], query);
    (|FilteredNumbers(records, query)|, |records|)
  }

  // ---------------------------------------------------------------------------
  // Statistics

  /** `phoneNumbers.filter(p => p.capabilities.includes(c)).length`: the
      number of records offering capability `c`. */
  function CapabilityCount(records: seq<PhoneNumber>, c: Capability): (k: nat)
    ensures k == |set i: nat | i < |records| && c in records[i].capabilities|
    ensures k <= |records|
  {
    var keep := (p: PhoneNumber) => c in p.capabilities;
    FilterLength(records, keep);
    assert PassingPositions(records, keep) == set i: nat | i < |records| && c in records[i].capabilities;
    |Filter(records, keep)|
  }

  // ---------------------------------------------------------------------------
  // Selection

  /** `phoneNumbers.map(p => p.id)`. */
  function Ids(records: seq<PhoneNumber>): (ids: seq<string>)
    ensures |ids| == |records|
    ensures forall i | 0 <= i < |records| :: ids[i] == records[i].id
  {
    seq(|records|, i requires 0 <= i < |records| => records[i].id)
  }

  /** The header checkbox is ticked when the selection is as long as the
      record list. */
  function HeaderChecked(selected: seq<string>, records: seq<PhoneNumber>): (b: bool)
    ensures |selected| < |records| ==> !b
    ensures records == [] ==> (b <==> selected == [])
  {
    |selected| == |records|
  }

  /** What the row checkboxes maintain: every selected id belongs to a
      record, and none is listed twice. */
  predicate SelectionWellFormed(selected: seq<string>, records: seq<PhoneNumber>) {
    && NoDuplicates(selected)
    && forall id | id in selected :: id in Ids(records)
  }

  /** A duplicate-free sequence has as many distinct elements as positions. */
  lemma {:induction false} DistinctCount(s: seq<string>)
    requires NoDuplicates(s)
    ensures |set x | x in s| == |s|
  {
    if s != [] {
      assert NoDuplicates(s[1..]);
      DistinctCount(s[1..]);
      assert (set x | x in s) == {s[0]} + (set x | x in s[1..]);
      assert s[0] !in (set x | x in s[1..]);
    }
  }

  /** A subset as large as its finite superset is the whole superset. */
  lemma SubsetOfSameSize(a: set<string>, b: set<string>)
    requires a <= b && |a| == |b|
    ensures a == b
  {
    assert |b - a| == |b| - |a|;
  }

  /** With distinct record ids and a well-formed selection, the length test
      of the header checkbox means exactly "every record is selected". */
  lemma HeaderCheckedIffAllSelected(selected: seq<string>, records: seq<PhoneNumber>)
    requires NoDuplicates(Ids(records))
    requires SelectionWellFormed(selected, records)
    ensures HeaderChecked(selected, records) <==> forall i | 0 <= i < |records| :: records[i].id in selected
  {
    var ids := Ids(records);
    var sel, all := set x | x in selected, set x | x in ids;
    DistinctCount(selected);
    DistinctCount(ids);
    assert sel <= all;
    if HeaderChecked(selected, records) {
      SubsetOfSameSize(sel, all);
      forall i | 0 <= i < |records| ensures records[i].id in selected {
        assert ids[i] in all;
      }
    }
    if forall i | 0 <= i < |records| :: records[i].id in selected {
      forall x | x in all ensures x in sel {
        var i :| 0 <= i < |ids| && ids[i] == x;
        assert records[i].id in selected;
      }
      assert sel == all;
    }
  }

  /** The shipped records have distinct ids. */
  lemma MockIdsDistinct()
    ensures NoDuplicates(Ids(MockPhoneNumbers))
  {
    var ids := Ids(MockPhoneNumbers);
    assert ids == ["1", "2", "3", "4", "5"];
  }

  // ---------------------------------------------------------------------------
  // The page's state

  /** The page's `useState` fields, updated synchronously, and the buy dialog
      it renders. `phoneNumbers` is never set after mounting. */
  class PhoneNumbersDashboard {
    const phoneNumbers: seq<PhoneNumber>
    var selectedNumbers: seq<string>
    var searchQuery: string
    var showBuyModal: bool
    const buyModal: BuyModal.BuyPhoneNumberModal

    ghost predicate Valid()
      reads this, buyModal
    {
      && NoDuplicates(Ids(phoneNumbers))
      && SelectionWellFormed(selectedNumbers, phoneNumbers)
      && buyModal.Valid()
    }

    /** The rows shown under the current search. */
    function Filtered(): (r: seq<PhoneNumber>)
      reads this
      ensures IsSubsequence(r, phoneNumbers)
      ensures forall p :: p in r <==> p in phoneNumbers && RecordMatches(p, searchQuery)
      ensures searchQuery == [] ==> r == phoneNumbers
    {
      FilteredNumbers(phoneNumbers, searchQuery)
    }

    constructor ()
      ensures Valid() && fresh(buyModal)
      ensures phoneNumbers == MockPhoneNumbers
      ensures selectedNumbers == [] && searchQuery == [] && !showBuyModal
      ensures buyModal.searchQuery == [] && buyModal.currentPage == 1 && buyModal.selectedNumbers == []
    {
      MockIdsDistinct();
      phoneNumbers := MockPhoneNumbers;
      selectedNumbers := [];
      searchQuery := [];
      showBuyModal := false;
      buyModal := new BuyModal.BuyPhoneNumberModal();
    }

    /** Typing in the search box. The selection is kept. */
    method SetSearchQuery(query: string)
      modifies this
      ensures old(Valid()) ==> Valid()
      ensures searchQuery == query
      ensures selectedNumbers == old(selectedNumbers) && showBuyModal == old(showBuyModal)
    {
      searchQuery := query;
    }

    /** The header checkbox. Ticking it selects every record, in order,
        whatever the search box holds; clearing it empties the selection. */
    method HandleSelectAll(checked: bool)
      requires NoDuplicates(Ids(phoneNumbers)) && buyModal.Valid()
      modifies this
      ensures Valid()
      ensures checked ==> selectedNumbers == Ids(phoneNumbers)
      ensures !checked ==> selectedNumbers == []
      ensures HeaderChecked(selectedNumbers, phoneNumbers) <==> checked || phoneNumbers == []
      ensures searchQuery == old(searchQuery) && showBuyModal == old(showBuyModal)
    {
      if checked {
        selectedNumbers := Ids(phoneNumbers);
      } else {
        selectedNumbers := [];
      }
    }

    /** A row checkbox. Ticking appends the id without looking for it first;
        clearing removes every occurrence and keeps the rest in order. The
        selection stays well formed when, as the table does, `checked` is the
        negation of the row's current state and `id` is a record's id. */
    method HandleSelectNumber(id: string, checked: bool)
      modifies this
      ensures checked ==> selectedNumbers == old(selectedNumbers) + [id]
      ensures !checked ==> selectedNumbers == RemoveAll(old(selectedNumbers), id)
      ensures old(Valid()) && (checked ==> id in Ids(phoneNumbers) && id !in old(selectedNumbers))
          ==> Valid()
      ensures searchQuery == old(searchQuery) && showBuyModal == old(showBuyModal)
    {
      if checked {
        selectedNumbers := selectedNumbers + [id];
      } else {
        selectedNumbers := RemoveAll(selectedNumbers, id);
      }
    }

    /** "Add Number". */
    method OpenBuyModal()
      modifies this
      ensures old(Valid()) ==> Valid()
      ensures showBuyModal
      ensures selectedNumbers == old(selectedNumbers) && searchQuery == old(searchQuery)
    {
      showBuyModal := true;
    }

    /** The dialog's `onOpenChange` callback is `setShowBuyModal`. */
    method SetShowBuyModal(open: bool)
      modifies this
      ensures old(Valid()) ==> Valid()
      ensures showBuyModal == open
      ensures selectedNumbers == old(selectedNumbers) && searchQuery == old(searchQuery)
    {
      showBuyModal := open;
    }

    /** "Save" in the dialog: with numbers selected the dialog's selection is
        cleared and the dialog closes; with none nothing changes. */
    method PurchaseInBuyModal()
      requires buyModal.Valid()
      modifies this, buyModal
      ensures buyModal.Valid()
      ensures old(Valid()) ==> Valid()
      ensures old(buyModal.selectedNumbers) == [] ==> showBuyModal == old(showBuyModal)
      ensures old(buyModal.selectedNumbers) != [] ==> !showBuyModal
      ensures buyModal.selectedNumbers == []
      ensures buyModal.searchQuery == old(buyModal.searchQuery)
      ensures buyModal.currentPage == old(buyModal.currentPage)
      ensures selectedNumbers == old(selectedNumbers) && searchQuery == old(searchQuery)
    {
      var openChange := buyModal.HandlePurchase();
      if openChange.Some? {
        SetShowBuyModal(openChange.value);
      }
    }
  }

  // ---------------------------------------------------------------------------
  // The shipped records

  /** Every shipped record offers calls and SMS. */
  lemma MockStatistics()
    ensures CapabilityCount(MockPhoneNumbers, SMS) == 5
    ensures CapabilityCount(MockPhoneNumbers, Call) == 5
  {
    var all: set<nat> := {0, 1, 2, 3, 4};
    assert (set i: nat | i < |MockPhoneNumbers| && SMS in MockPhoneNumbers[i].capabilities) == all;
    assert (set i: nat | i < |MockPhoneNumbers| && Call in MockPhoneNumbers[i].capabilities) == all;
  }
}
