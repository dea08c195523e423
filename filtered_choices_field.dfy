/**
 * The choice-filtering field component (FilteredChoicesFieldComponent): it
 * keeps the full list of choices, the sub-list currently shown, and the
 * current selection, and emits an event whenever the selection changes.
 */
module FilteredChoicesField {
  import opened JsString

  // ---------------------------------------------------------------------------
  // Array.prototype.filter, for any callback

  /** filter: the elements the callback keeps, visited in order and appended one by one. */
  function FilterBy(xs: seq<string>, keep: string -> bool): seq<string>
    decreases |xs|
  {
    if xs == [] then []
    else
      var last := xs[|xs| - 1];
      FilterBy(xs[..|xs| - 1], keep) + (if keep(last) then [last] else [])
  }

  /** The positions of the kept elements, in the order filter visits them. */
  ghost function KeptPositions(xs: seq<string>, keep: string -> bool): seq<int>
    decreases |xs|
  {
    if xs == [] then []
    else
      var n := |xs| - 1;
      KeptPositions(xs[..n], keep) + (if keep(xs[n]) then [n] else [])
  }

  /** `xs` is the list of `ys` at the strictly increasing positions `idx`. */
  ghost predicate SelectsInOrder(xs: seq<string>, ys: seq<string>, idx: seq<int>)
  {
    && |idx| == |xs|
    && (forall k :: 0 <= k < |idx| ==> 0 <= idx[k] < |ys| && xs[k] == ys[idx[k]])
    && (forall k, l :: 0 <= k < l < |idx| ==> idx[k] < idx[l])
  }

  /** `xs` is an order-preserving sub-list of `ys`. */
  ghost predicate IsSubsequence(xs: seq<string>, ys: seq<string>)
  {
    exists idx :: SelectsInOrder(xs, ys, idx)
  }

  /** Each recorded position is a valid index, and position k is recorded iff element k is kept. */
  lemma {:induction false} KeptPositionsExact(xs: seq<string>, keep: string -> bool)
    ensures forall k :: k in KeptPositions(xs, keep) ==> 0 <= k < |xs|
    ensures forall k :: 0 <= k < |xs| ==> (k in KeptPositions(xs, keep) <==> keep(xs[k]))
    decreases |xs|
  {
    if xs != [] {
      var n := |xs| - 1;
      var init := xs[..n];
      KeptPositionsExact(init, keep);
      var idx0 := KeptPositions(init, keep);
      var tail := if keep(xs[n]) then [n] else [];
      var idx := idx0 + tail;
      assert KeptPositions(xs, keep) == idx;
      assert n !in idx0;
      forall k | k in idx ensures 0 <= k < |xs| {
        if k !in idx0 { assert k in tail; }
      }
      forall k | 0 <= k < |xs| ensures k in idx <==> keep(xs[k]) {
        if k < n {
          assert xs[k] == init[k];
          assert k !in tail;
        }
      }
    }
  }

  /** The recorded positions are strictly increasing. */
  lemma {:induction false} KeptPositionsIncreasing(xs: seq<string>, keep: string -> bool)
    ensures forall k, l :: 0 <= k < l < |KeptPositions(xs, keep)| ==>
      KeptPositions(xs, keep)[k] < KeptPositions(xs, keep)[l]
    decreases |xs|
  {
    if xs != [] {
      var n := |xs| - 1;
      var init := xs[..n];
      KeptPositionsIncreasing(init, keep);
      KeptPositionsExact(init, keep);
      var idx0 := KeptPositions(init, keep);
      var idx := idx0 + (if keep(xs[n]) then [n] else []);
      assert KeptPositions(xs, keep) == idx;
      forall k, l | 0 <= k < l < |idx| ensures idx[k] < idx[l] {
        assert idx[k] == idx0[k] && idx0[k] in idx0;
        if l < |idx0| { assert idx[l] == idx0[l]; }
      }
    }
  }

  /** The filtered list is the input read at the recorded positions. */
  lemma {:induction false} FilterByAtPositions(xs: seq<string>, keep: string -> bool)
    ensures |KeptPositions(xs, keep)| == |FilterBy(xs, keep)|
    ensures forall k :: 0 <= k < |FilterBy(xs, keep)| ==>
      0 <= KeptPositions(xs, keep)[k] < |xs| &&
      FilterBy(xs, keep)[k] == xs[KeptPositions(xs, keep)[k]]
    decreases |xs|
  {
    if xs != [] {
      var n := |xs| - 1;
      var init := xs[..n];
      var kept := keep(xs[n]);
      FilterByAtPositions(init, keep);
      var ys0, idx0 := FilterBy(init, keep), KeptPositions(init, keep);
      var ys := ys0 + (if kept then [xs[n]] else []);
      var idx := idx0 + (if kept then [n] else []);
      assert FilterBy(xs, keep) == ys;
      assert KeptPositions(xs, keep) == idx;
      forall k | 0 <= k < |ys| ensures 0 <= idx[k] < |xs| && ys[k] == xs[idx[k]] {
        if k < |ys0| {
          assert idx[k] == idx0[k] && ys[k] == ys0[k];
          assert init[idx0[k]] == xs[idx0[k]];
        }
      }
    }
  }

  /** An element is in the filtered list iff it is in the input and the callback keeps it. */
  lemma {:induction false} FilterByMembership(xs: seq<string>, keep: string -> bool, x: string)
    ensures x in FilterBy(xs, keep) <==> x in xs && keep(x)
    decreases |xs|
  {
    if xs != [] {
      var n := |xs| - 1;
      FilterByMembership(xs[..n], keep, x);
      assert xs == xs[..n] + [xs[n]];
    }
  }

  /** Filtering a concatenation filters each part. */
  lemma {:induction false} FilterByAppend(xs: seq<string>, ys: seq<string>, keep: string -> bool)
    ensures FilterBy(xs + ys, keep) == FilterBy(xs, keep) + FilterBy(ys, keep)
    decreases |ys|
  {
    if ys == [] {
      assert xs + ys == xs;
    } else {
      var n := |ys| - 1;
      var both := xs + ys;
      var init := ys[..n];
      var tail := if keep(ys[n]) then [ys[n]] else [];
      FilterByAppend(xs, init, keep);
      assert both[..|both| - 1] == xs + init && both[|both| - 1] == ys[n];
      assert FilterBy(both, keep) == FilterBy(xs + init, keep) + tail;
      assert FilterBy(ys, keep) == FilterBy(init, keep) + tail;
    }
  }

  /** A callback that keeps every element leaves the list as it is. */
  lemma {:induction false} FilterByKeepingAll(xs: seq<string>, keep: string -> bool)
    requires forall k :: 0 <= k < |xs| ==> keep(xs[k])
    ensures FilterBy(xs, keep) == xs
    decreases |xs|
  {
    if xs != [] {
      var n := |xs| - 1;
      FilterByKeepingAll(xs[..n], keep);
      assert xs == xs[..n] + [xs[n]];
    }
  }

  /**
   * Filtering by a weaker callback and then by a stronger one is filtering by
   * the stronger one alone.
   */
  lemma {:induction false} FilterByNarrowing(xs: seq<string>, weaker: string -> bool, stronger: string -> bool)
    requires forall x :: stronger(x) ==> weaker(x)
    ensures FilterBy(FilterBy(xs, weaker), stronger) == FilterBy(xs, stronger)
    decreases |xs|
  {
    if xs != [] {
      var n := |xs| - 1;
      var last := xs[n];
      FilterByNarrowing(xs[..n], weaker, stronger);
      FilterByAppend(FilterBy(xs[..n], weaker), if weaker(last) then [last] else [], stronger);
    }
  }

  // ---------------------------------------------------------------------------
  // The filter of filterChoices

  /** The test filterChoices applies to each choice: the lowered term is found in the lowered choice. */
  predicate Matches(choice: string, searchTerm: string)
  {
    IndexOf(ToLowerCase(choice), ToLowerCase(searchTerm)) > -1
  }

  /** The callback filterChoices passes to filter. */
  function Matcher(searchTerm: string): string -> bool
  {
    choice => Matches(choice, searchTerm)
  }

  /** The choices filterChoices keeps for a search term. */
  function Filtered(choices: seq<string>, searchTerm: string): seq<string>
  {
    FilterBy(choices, Matcher(searchTerm))
  }

  /** Matches is case-insensitive substring search, as indexOf(...) > -1 promises. */
  lemma MatchesIffContains(choice: string, searchTerm: string)
    ensures Matches(choice, searchTerm) <==> Contains(ToLowerCase(choice), ToLowerCase(searchTerm))
  {
  }

  /**
   * The filter keeps exactly the choices at the matching positions, in their
   * original order: position k is kept iff choice k matches.
   */
  lemma FilteredPositions(choices: seq<string>, searchTerm: string)
    ensures SelectsInOrder(Filtered(choices, searchTerm), choices, KeptPositions(choices, Matcher(searchTerm)))
    ensures forall k :: 0 <= k < |choices| ==>
      (k in KeptPositions(choices, Matcher(searchTerm)) <==> Matches(choices[k], searchTerm))
  {
    var keep := Matcher(searchTerm);
    FilterByAtPositions(choices, keep);
    KeptPositionsIncreasing(choices, keep);
    KeptPositionsExact(choices, keep);
  }

  /** filterChoices yields an order-preserving sub-list of the choices. */
  lemma FilteredIsSubsequence(choices: seq<string>, searchTerm: string)
    ensures IsSubsequence(Filtered(choices, searchTerm), choices)
  {
    FilteredPositions(choices, searchTerm);
  }

  /** A choice is shown after filtering iff it is one of the choices and it matches. */
  lemma FilteredMembership(choices: seq<string>, searchTerm: string, c: string)
    ensures c in Filtered(choices, searchTerm) <==> c in choices && Matches(c, searchTerm)
  {
    FilterByMembership(choices, Matcher(searchTerm), c);
  }

  /** The empty search term keeps every choice: indexOf("") is 0, which is greater than -1. */
  lemma FilteredByEmptyTerm(choices: seq<string>)
    ensures Filtered(choices, "") == choices
  {
    assert ToLowerCase("") == "";
    forall k | 0 <= k < |choices| ensures Matcher("")(choices[k]) {
      IndexOfEmpty(ToLowerCase(choices[k]));
    }
    FilterByKeepingAll(choices, Matcher(""));
  }

  /**
   * Narrowing a search: when the lowered old term occurs in the lowered new
   * term, filtering the current result gives what filtering all choices gives.
   */
  lemma FilteredNarrowing(choices: seq<string>, term: string, longerTerm: string)
    requires Contains(ToLowerCase(longerTerm), ToLowerCase(term))
    ensures Filtered(Filtered(choices, term), longerTerm) == Filtered(choices, longerTerm)
  {
    forall c | Matcher(longerTerm)(c) ensures Matcher(term)(c) {
      ContainsTransitive(ToLowerCase(term), ToLowerCase(longerTerm), ToLowerCase(c));
    }
    FilterByNarrowing(choices, Matcher(term), Matcher(longerTerm));
  }

  /** Filtering twice with the same term changes nothing more. */
  lemma FilteredIdempotent(choices: seq<string>, searchTerm: string)
    ensures Filtered(Filtered(choices, searchTerm), searchTerm) == Filtered(choices, searchTerm)
  {
    var t := ToLowerCase(searchTerm);
    assert OccursAt(t, t, 0);
    FilteredNarrowing(choices, searchTerm, searchTerm);
  }

  // ---------------------------------------------------------------------------
  // The component

  class FilteredChoicesFieldComponent {
    var choices: seq<string>
    var selection: string
    var placeholder: string
    var searchLabel: string
    var isSearchable: bool
    var noEntriesFoundLabel: string
    /** The choices currently shown; undefined until ngOnInit, here the empty list. */
    var filteredChoices: seq<string>
    /** Every value emitted on selectionChange, oldest first. */
    ghost var selectionChanges: seq<string>
    /** The search term the shown choices were last filtered with ("" after ngOnInit). */
    ghost var lastSearchTerm: string

    /**
     * The shown choices are the choices filtered by the last search term.
     * It holds from NgOnInit on: before that, filteredChoices is undefined in
     * the component (the empty list here), so the constructor does not
     * establish it.
     */
    ghost predicate Valid()
      reads this
    {
      filteredChoices == Filtered(choices, lastSearchTerm)
    }

    /** Creation with the bound inputs; the other inputs take their declared defaults. */
    constructor (choices: seq<string>, selection: string, placeholder: string)
      ensures this.choices == choices && this.selection == selection && this.placeholder == placeholder
      ensures searchLabel == "search" && isSearchable && noEntriesFoundLabel == "No matches found"
      ensures filteredChoices == [] && selectionChanges == []
    {
      this.choices := choices;
      this.selection := selection;
      this.placeholder := placeholder;
      searchLabel := "search";
      isSearchable := true;
      noEntriesFoundLabel := "No matches found";
      filteredChoices := [];
      selectionChanges := [];
      lastSearchTerm := "";
    }

    /** ngOnInit: show every choice, as the empty search would. */
    method NgOnInit()
      modifies this`filteredChoices, this`lastSearchTerm
      ensures filteredChoices == choices
      ensures Valid() && lastSearchTerm == ""
    {
      filteredChoices := choices;
      lastSearchTerm := "";
      FilteredByEmptyTerm(choices);
    }

    /** filterChoices: show the choices whose lower-cased text contains the lower-cased term. */
    method FilterChoices(searchTerm: string)
      modifies this`filteredChoices, this`lastSearchTerm
      ensures filteredChoices == Filtered(choices, searchTerm)
      ensures Valid() && lastSearchTerm == searchTerm
      ensures IsSubsequence(filteredChoices, choices)
      ensures forall c :: c in filteredChoices <==> c in choices && Matches(c, searchTerm)
      ensures searchTerm == "" ==> filteredChoices == choices
    {
      filteredChoices := Filtered(choices, searchTerm);
      lastSearchTerm := searchTerm;
      FilteredIsSubsequence(choices, searchTerm);
      forall c ensures c in filteredChoices <==> c in choices && Matches(c, searchTerm) {
        FilteredMembership(choices, searchTerm, c);
      }
      if searchTerm == "" {
        FilteredByEmptyTerm(choices);
      }
    }

    /** updateSelection: record the new selection and emit it exactly once. */
    method UpdateSelection(selection: string)
      modifies this`selection, this`selectionChanges
      ensures this.selection == selection
      ensures selectionChanges == old(selectionChanges) + [selection]
      ensures old(Valid()) ==> Valid()
    {
      this.selection := selection;
      selectionChanges := selectionChanges + [selection];
    }
  }
}
