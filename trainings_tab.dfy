/**
 * `TrainingsTabComponent`: the training catalog tab, with a case-insensitive substring
 * search and a details modal for one selected training.
 */
module TrainingsTab {
  import opened Wrappers
  import opened JsStrings
  import opened Trainings
  import opened Sublists

  /** The filter predicate of `onSearch`, for an already lower-cased search string: the
      lower-cased name or type contains it, or the decimal id does. */
  predicate Matches(t: Training, search: string) {
    Includes(ToLower(t.name), search) || Includes(ToLower(t.kind), search)
    || Includes(IntToString(t.id), search)
  }

  /** `trainings.filter(t => Matches(t, search))`. */
  function FilterMatching(ts: seq<Training>, search: string): (r: seq<Training>)
    ensures forall t :: t in r <==> t in ts && Matches(t, search)
    ensures forall t :: multiset(r)[t] == if Matches(t, search) then multiset(ts)[t] else 0
    ensures IsSublist(r, ts)
    ensures |r| <= |ts|
  {
    if ts == [] then []
    else
      var rest := FilterMatching(ts[1..], search);
      assert IsSublist(rest, ts) by {
        assert rest == [] || IsSublist(rest, ts[1..]);
      }
      var head := ts[0];
      assert multiset(ts) == multiset{head} + multiset(ts[1..]) by {
        assert ts == [head] + ts[1..];
      }
      if Matches(head, search) then
        assert ([head] + rest)[1..] == rest;
        assert multiset([head] + rest) == multiset{head} + multiset(rest);
        [head] + rest
      else
        assert forall t :: multiset(rest)[t] == if Matches(t, search) then multiset(ts)[t] else 0 by {
          forall t ensures multiset(rest)[t] == if Matches(t, search) then multiset(ts)[t] else 0 {
            if t == head {
              assert !Matches(t, search);
            } else {
              assert multiset(ts)[t] == multiset(ts[1..])[t];
            }
          }
        }
        rest
  }

  /** Filtering twice with the same search is filtering once. */
  lemma {:induction false} FilterIdempotent(ts: seq<Training>, search: string)
    ensures FilterMatching(FilterMatching(ts, search), search) == FilterMatching(ts, search)
    decreases |ts|
  {
    if ts != [] {
      FilterIdempotent(ts[1..], search);
      var rest := FilterMatching(ts[1..], search);
      if Matches(ts[0], search) {
        assert ([ts[0]] + rest)[1..] == rest;
      }
    }
  }

  /** When every entry matches, the filter keeps the whole list. */
  lemma {:induction false} FilterKeepsAllMatching(ts: seq<Training>, search: string)
    requires forall i :: 0 <= i < |ts| ==> Matches(ts[i], search)
    ensures FilterMatching(ts, search) == ts
    decreases |ts|
  {
    if ts != [] {
      FilterKeepsAllMatching(ts[1..], search);
      assert [ts[0]] + ts[1..] == ts;
    }
  }

  /** What `onSearch` shows for search text `searchText`: the whole catalog when the text is
      blank after trimming, otherwise the entries matching the lower-cased, untrimmed text. */
  function SearchResults(ts: seq<Training>, searchText: string): (r: seq<Training>)
    ensures IsBlank(searchText) ==> r == ts
    ensures !IsBlank(searchText) ==> forall t :: t in r <==> t in ts && Matches(t, ToLower(searchText))
    ensures !IsBlank(searchText) ==>
              forall t :: multiset(r)[t] == if Matches(t, ToLower(searchText)) then multiset(ts)[t] else 0
    ensures IsSublist(r, ts)
  {
    TrimEmptyIffBlank(searchText);
    if Trim(searchText) == [] then
      assert IsSublist(ts, ts) by { SublistRefl(ts); }
      ts
    else FilterMatching(ts, ToLower(searchText))
  }

  /** The two branches of `onSearch`, as the search result is defined. */
  lemma SearchResultsByTrim(ts: seq<Training>, searchText: string)
    ensures SearchResults(ts, searchText)
            == if Trim(searchText) == [] then ts else FilterMatching(ts, ToLower(searchText))
  {
  }

  /** `toLowerCase` maps white space to itself and other characters to non-space ones. */
  lemma LowerCharKeepsSpace(c: char)
    ensures IsSpace(LowerChar(c)) <==> IsSpace(c)
  {
  }

  /** The search ignores letter case: searching for the lower-cased text gives the same
      result as searching for the text. */
  lemma SearchIgnoresCase(ts: seq<Training>, searchText: string)
    ensures SearchResults(ts, ToLower(searchText)) == SearchResults(ts, searchText)
  {
    var lowered := ToLower(searchText);
    forall i | 0 <= i < |searchText| ensures IsSpace(lowered[i]) <==> IsSpace(searchText[i]) {
      LowerCharKeepsSpace(searchText[i]);
    }
    assert IsBlank(lowered) <==> IsBlank(searchText);
    TrimEmptyIffBlank(lowered);
    TrimEmptyIffBlank(searchText);
    ToLowerIdempotent(searchText);
  }

  /** A training is found by searching for its own decimal id. */
  lemma SearchFindsId(ts: seq<Training>, t: Training)
    requires t in ts
    ensures t in SearchResults(ts, IntToString(t.id))
  {
    var text := IntToString(t.id);
    assert text != [] by {
      if t.id < 0 {
        assert text == "-" + NatToString(-t.id);
      }
    }
    forall i | 0 <= i < |text| ensures !IsUpper(text[i]) {
      if t.id < 0 {
        assert text == "-" + NatToString(-t.id);
        if i > 0 {
          assert text[i] == NatToString(-t.id)[i - 1];
        }
      }
    }
    ToLowerUnchanged(text);
    assert !IsSpace(text[0]) by {
      if t.id < 0 {
        assert text == "-" + NatToString(-t.id);
      }
    }
    assert StartsWith(text, text);
    assert Matches(t, text);
  }

  class TrainingsTabComponent {
    var searchText: string
    var selectedTraining: Option<Training>
    var trainings: seq<Training>
    var filteredTrainings: seq<Training>

    /** Empty search, nothing selected, the three-entry catalog and an empty result list until
        `NgOnInit` runs. */
    constructor ()
      ensures searchText == ""
      ensures selectedTraining == None
      ensures trainings == InitialCatalog
      ensures filteredTrainings == []
    {
      searchText := "";
      selectedTraining := None;
      trainings := InitialCatalog;
      filteredTrainings := [];
    }

    /** `ngOnInit`: shows the whole catalog. */
    method NgOnInit()
      modifies this
      ensures filteredTrainings == trainings
      ensures searchText == old(searchText) && selectedTraining == old(selectedTraining)
      ensures trainings == old(trainings)
    {
      filteredTrainings := trainings;
    }

    /** `onSearch`: recomputes the result list from the search text; the catalog, the text and
        the selection are unchanged. */
    method OnSearch()
      modifies this
      ensures filteredTrainings == SearchResults(trainings, searchText)
      ensures IsSublist(filteredTrainings, trainings)
      ensures searchText == old(searchText) && selectedTraining == old(selectedTraining)
      ensures trainings == old(trainings)
    {
      SearchResultsByTrim(trainings, searchText);
      if Trim(searchText) == [] {
        filteredTrainings := trainings;
        return;
      }
      var search := ToLower(searchText);
      filteredTrainings := FilterMatching(trainings, search);
    }

    /** `viewTraining(id)`: selects the first entry with that id; an unknown id keeps the
        current selection. */
    method ViewTraining(id: int)
      modifies this
      ensures FindById(trainings, id).Some? ==> selectedTraining == FindById(trainings, id)
      ensures FindById(trainings, id).None? ==> selectedTraining == old(selectedTraining)
      ensures selectedTraining.Some? && selectedTraining != old(selectedTraining) ==>
                selectedTraining.value in trainings && selectedTraining.value.id == id
      ensures searchText == old(searchText) && filteredTrainings == old(filteredTrainings)
      ensures trainings == old(trainings)
    {
      var training := FindById(trainings, id);
      if training.Some? {
        selectedTraining := training;
      }
    }

    /** `closeModal`. */
    method CloseModal()
      modifies this
      ensures selectedTraining == None
      ensures searchText == old(searchText) && filteredTrainings == old(filteredTrainings)
      ensures trainings == old(trainings)
    {
      selectedTraining := None;
    }

    /** `startTraining`: logs the selection (not modelled) and closes the modal. */
    method StartTraining()
      modifies this
      ensures selectedTraining == None
      ensures searchText == old(searchText) && filteredTrainings == old(filteredTrainings)
      ensures trainings == old(trainings)
    {
      CloseModal();
    }

    /** `startTest`: logs the selection (not modelled) and closes the modal. */
    method StartTest()
      modifies this
      ensures selectedTraining == None
      ensures searchText == old(searchText) && filteredTrainings == old(filteredTrainings)
      ensures trainings == old(trainings)
    {
      CloseModal();
    }
  }
}
