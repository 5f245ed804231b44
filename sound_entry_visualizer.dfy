/** The entry list of the editor (src/components/sound_entry_visualizer.jsx):
    the search filter, the grouping of dot-segmented entry names into
    suggestions once there are too many to list, and the state the list's
    handlers update. */
module SoundEntryVisualizer {
  import opened Wrappers
  import opened Strs
  import opened Arrays
  import opened Sorting

  /** `objects` keys kept by the filter: those starting with the filter,
      or, with an empty filter, the non-empty ones; in key order. */
  function Targets(keys: seq<string>, filter: string): (r: seq<string>)
    ensures |r| <= |keys|
    ensures forall k :: k in r <==> k in keys && (if filter != "" then StartsWith(k, filter) else k != "")
  {
    if keys == [] then []
    else
      var rest := Targets(keys[1..], filter);
      assert forall k :: k in keys <==> k == keys[0] || k in keys[1..];
      if (if filter != "" then StartsWith(keys[0], filter) else keys[0] != "") then [keys[0]] + rest else rest
  }

  /** `inputSeq`: the segment index the grouping looks at. */
  function InputSeq(filter: string): (n: nat)
    ensures n == Count(filter, '.')
  {
    SplitJoin(filter, '.');
    |Split(filter, '.')| - 1
  }

  /** `key.split('.')[inputSeq]` is truthy: the key has a non-empty
      segment at that index. */
  predicate Groupable(key: string, n: nat) {
    n < |Split(key, '.')| && Split(key, '.')[n] != ""
  }

  /** `key.split('.').slice(0, n + 1).join('.')` for a groupable key: its
      first n + 1 segments. */
  function Label(key: string, n: nat): (r: string)
    requires Groupable(key, n)
    ensures Split(r, '.') == Split(key, '.')[..n + 1]
  {
    var parts := Split(key, '.')[..n + 1];
    SplitJoin(key, '.');
    JoinSplit(parts, '.');
    Join(parts, '.')
  }

  /** The labels of the groupable targets, in target order. */
  function Labels(targets: seq<string>, n: nat): (r: seq<string>)
    ensures |r| <= |targets|
    ensures forall l :: l in r <==> exists k :: k in targets && Groupable(k, n) && l == Label(k, n)
  {
    if targets == [] then []
    else
      var rest := Labels(targets[1..], n);
      assert forall k :: k in targets <==> k == targets[0] || k in targets[1..];
      if Groupable(targets[0], n) then [Label(targets[0], n)] + rest else rest
  }

  /** What `objectRenderer` shows: group suggestions followed by the
      count of targets, or the targets themselves. A suggestion is the
      array `sortedUnique` put in its place (a string where it works as
      intended). */
  datatype View =
    | Collapsed(suggestions: seq<seq<string>>, found: nat)
    | Listed(entries: seq<string>)

  /** `limitCount ?? 20`. */
  function Limit(limitCount: Option<nat>): nat {
    limitCount.GetOr(20)
  }

  /** `objectRenderer()` as written: more targets than the limit collapse,
      and since `sortedUnique` gets the label array as its one argument the
      suggestions are that whole array, once (none with a limit of 0),
      followed by the count of targets; otherwise the targets are listed in
      key order. */
  function ObjectRenderer(keys: seq<string>, filter: string, limitCount: Option<nat>): (v: View)
    ensures var targets := Targets(keys, filter);
      && (v.Collapsed? <==> |targets| > Limit(limitCount))
      && (v.Listed? ==> v.entries == targets)
      && (v.Collapsed? ==>
            && v.found == |targets|
            && |v.suggestions| == (if Limit(limitCount) == 0 then 0 else 1)
            && forall s :: s in v.suggestions ==>
                 forall l :: l in s <==> exists k :: k in targets && Groupable(k, InputSeq(filter)) && l == Label(k, InputSeq(filter)))
  {
    var targets := Targets(keys, filter);
    var n := InputSeq(filter);
    var labels := Labels(targets, n);
    var limit := Limit(limitCount);
    if |targets| > limit then Collapsed(CollapsedAsWritten(labels, limit), |targets|)
    else Listed(targets)
  }

  /** The suggestions as evidently intended, `sortedUnique(...labels)`:
      the first `limit` distinct labels in upper-cased order. */
  function IntendedSuggestions(labels: seq<string>, limit: nat): seq<string> {
    var elements := SortedUnique(labels);
    if |elements| <= limit then elements else elements[..limit]
  }

  /** The intended suggestions are distinct labels in upper-cased order,
      as many as the limit allows, and every label left out sorts after
      every label shown. */
  lemma IntendedSuggestionsProperties(labels: seq<string>, limit: nat)
    ensures var r := IntendedSuggestions(labels, limit);
      && (forall l :: l in r ==> l in labels)
      && (forall i, j :: 0 <= i < j < |r| ==> r[i] != r[j])
      && (forall i :: 0 <= i < |r| - 1 ==> UpperCaseCompare(r[i], r[i + 1]) <= 0)
      && |r| == (if |Unique(labels)| <= limit then |Unique(labels)| else limit)
      && (forall l, x :: l in labels && l !in r && x in r ==> UpperCaseCompare(x, l) <= 0)
  {
    SortedUniqueProperties(labels);
    SortedUniqueLength(labels);
    var r := IntendedSuggestions(labels, limit);
    forall l, x | l in labels && l !in r && x in r ensures UpperCaseCompare(x, l) <= 0 {
      OmittedRanksAfter(labels, limit, l, x);
    }
  }

  /** A label the intended suggestions leave out sorts after each one they
      show. */
  lemma OmittedRanksAfter(labels: seq<string>, limit: nat, l: string, x: string)
    requires l in labels && l !in IntendedSuggestions(labels, limit)
    requires x in IntendedSuggestions(labels, limit)
    ensures UpperCaseCompare(x, l) <= 0
  {
    var elements := SortedUnique(labels);
    var r := IntendedSuggestions(labels, limit);
    SortedUniqueProperties(labels);
    var q :| 0 <= q < |elements| && elements[q] == l;
    var p :| 0 <= p < |r| && r[p] == x;
    assert forall k :: 0 <= k < |r| ==> r[k] == elements[k];
    assert |r| <= q;
    SortedUniqueRanks(labels, p, q);
  }

  /** `sortedUnique` keeps as many strings as `unique` does. */
  lemma SortedUniqueLength(labels: seq<string>)
    ensures |SortedUnique(labels)| == |Unique(labels)|
  {
    UpperCaseSorted(Unique(labels));
    assert |multiset(SortedUnique(labels))| == |multiset(Unique(labels))|;
  }

  /** Any string `sortedUnique` puts before another sorts no later. */
  lemma SortedUniqueRanks(labels: seq<string>, p: nat, q: nat)
    requires p <= q < |SortedUnique(labels)|
    ensures UpperCaseCompare(SortedUnique(labels)[p], SortedUnique(labels)[q]) <= 0
  {
    var elements := SortedUnique(labels);
    UpperCaseBeforeTotalOrder();
    UpperCaseSorted(Unique(labels));
    assert SortedBy(elements, UpperCaseBefore());
    SortedPair(elements, UpperCaseBefore(), p, q);
  }

  /** The filter a click on a suggestion asks for, as evidently intended
      with one string per suggestion: the suggestion itself when it is an
      entry, else the suggestion with a trailing `.`. */
  function SuggestionFilter(elem: string, targets: seq<string>): (r: string)
    ensures elem in targets ==> r == elem
    ensures elem !in targets ==> r == elem + "."
  {
    if elem in targets then elem else elem + "."
  }

  /** As evidently intended, clicking the suggestion taken from `key`
      either narrows the list to that entry, when the suggestion is itself
      a target, or opens the next level: the filter then groups one
      segment deeper, by the segments the suggestion took from its key. */
  lemma SuggestionDeepens(key: string, filter: string, targets: seq<string>)
    requires Groupable(key, InputSeq(filter))
    ensures var n := InputSeq(filter);
      var l := Label(key, n);
      var next := SuggestionFilter(l, targets);
      && (l in targets ==> next in targets && Split(next, '.') == Split(key, '.')[..n + 1])
      && (l !in targets ==> InputSeq(next) == n + 1 && Split(next, '.') == Split(key, '.')[..n + 1] + [""])
  {
    var n := InputSeq(filter);
    var l := Label(key, n);
    SplitWithTrailing(l);
  }

  /** A trailing separator adds an empty last piece. */
  lemma {:induction false} SplitWithTrailing(s: string)
    ensures Split(s + ".", '.') == Split(s, '.') + [""]
    decreases |s|
  {
    if s == [] {
      assert Split(".", '.') == [""] + Split("", '.');
    } else {
      assert (s + ".")[1..] == s[1..] + ".";
      SplitWithTrailing(s[1..]);
    }
  }

  /** The list's own state. `false` in `openedAccordion` is `None`. */
  class VisualizerState {
    var searchFilter: string
    var openedAccordion: Option<string>
    var isOpenedNewEntryDialog: bool
    var isNewEntryInvalid: bool

    constructor ()
      ensures searchFilter == "" && openedAccordion == None
      ensures !isOpenedNewEntryDialog && !isNewEntryInvalid
    {
      searchFilter := "";
      openedAccordion := None;
      isOpenedNewEntryDialog := false;
      isNewEntryInvalid := false;
    }

    /** The effect on a new `searchFilter` prop: a non-empty request
      becomes the filter and opens the entry of that name. */
    method RequestFilter(requested: string)
      modifies this
      ensures requested != "" ==> searchFilter == requested && openedAccordion == Some(requested)
      ensures requested == "" ==> searchFilter == old(searchFilter) && openedAccordion == old(openedAccordion)
      ensures isOpenedNewEntryDialog == old(isOpenedNewEntryDialog) && isNewEntryInvalid == old(isNewEntryInvalid)
    {
      if requested != "" {
        searchFilter := requested;
        openedAccordion := Some(requested);
      }
    }

    /** `handleSearchFilterSuggest(filter)`: suggesting the current filter
      again appends `.`; another filter replaces it. */
    method HandleSearchFilterSuggest(filter: string)
      modifies this
      ensures old(searchFilter) == filter ==> searchFilter == filter + "."
      ensures old(searchFilter) != filter ==> searchFilter == filter
      ensures openedAccordion == old(openedAccordion)
      ensures isOpenedNewEntryDialog == old(isOpenedNewEntryDialog) && isNewEntryInvalid == old(isNewEntryInvalid)
    {
      var f := filter;
      if searchFilter == f {
        f := f + ".";
      }
      searchFilter := f;
    }

    /** `handleAccordionClick(entryName)`: the open entry closes, any other
      opens. */
    method HandleAccordionClick(entryName: Option<string>)
      modifies this
      ensures old(openedAccordion) == entryName ==> openedAccordion == None
      ensures old(openedAccordion) != entryName ==> openedAccordion == entryName
      ensures searchFilter == old(searchFilter)
      ensures isOpenedNewEntryDialog == old(isOpenedNewEntryDialog) && isNewEntryInvalid == old(isNewEntryInvalid)
    {
      if openedAccordion == entryName {
        openedAccordion := None;
      } else {
        openedAccordion := entryName;
      }
    }

    /** `handleSearchEntry`: the typed text becomes the filter. */
    method HandleSearchEntry(value: string)
      modifies this
      ensures searchFilter == value && openedAccordion == old(openedAccordion)
      ensures isOpenedNewEntryDialog == old(isOpenedNewEntryDialog) && isNewEntryInvalid == old(isNewEntryInvalid)
    {
      searchFilter := value;
    }

    /** `handleDialogOpen`: the dialog opens only where entries can be
      added. */
    method HandleDialogOpen(canAdd: bool)
      modifies this
      ensures isOpenedNewEntryDialog == (old(isOpenedNewEntryDialog) || canAdd)
      ensures searchFilter == old(searchFilter) && openedAccordion == old(openedAccordion)
      ensures isNewEntryInvalid == old(isNewEntryInvalid)
    {
      if canAdd {
        isOpenedNewEntryDialog := true;
      }
    }

    /** `handleAddEntry(entryName)`: the dialog closes; a non-empty name is
      handed to `onEntryAdd` when it is set. */
    method HandleAddEntry(entryName: string, canAdd: bool) returns (added: Option<string>)
      modifies this
      ensures !isOpenedNewEntryDialog
      ensures added.Some? <==> entryName != "" && canAdd
      ensures added.Some? ==> added.value == entryName
      ensures searchFilter == old(searchFilter) && openedAccordion == old(openedAccordion)
      ensures isNewEntryInvalid == old(isNewEntryInvalid)
    {
      isOpenedNewEntryDialog := false;
      added := None;
      if entryName != "" && canAdd {
        added := Some(entryName);
      }
    }

    /** `handleNewEntryName`: a new name is invalid when it is empty or
      the table already has it. */
    method HandleNewEntryName(newValue: string, checkEntryExists: string -> bool)
      modifies this
      ensures isNewEntryInvalid <==> newValue == "" || checkEntryExists(newValue)
      ensures searchFilter == old(searchFilter) && openedAccordion == old(openedAccordion)
      ensures isOpenedNewEntryDialog == old(isOpenedNewEntryDialog)
    {
      isNewEntryInvalid := |newValue| == 0 || checkEntryExists(newValue);
    }
  }

  /** What the collapsed view holds as written: `sortedUnique(labels)`
      receives the label array as its one argument and returns
      `[labels]`, and `slice(0, limit)` keeps that one element unless the
      limit is 0. */
  function CollapsedAsWritten(labels: seq<string>, limit: nat): (r: seq<seq<string>>)
    ensures limit > 0 ==> r == [labels]
    ensures limit == 0 ==> r == []
  {
    var elements := SortedUniqueOfOneArray(labels);
    if limit < |elements| then elements[..limit] else elements
  }

  /** Two distinct labels give two suggestions in the corrected view and
      one in the view as written. */
  lemma CollapsedAsWrittenLosesGroups()
    ensures |CollapsedAsWritten(["a", "b"], 20)| == 1
    ensures |SortedUnique(["a", "b"])| == 2
  {
    SortedUniqueProperties(["a", "b"]);
    var r := SortedUnique(["a", "b"]);
    assert "a" in r && "b" in r;
    var i :| 0 <= i < |r| && r[i] == "a";
    var j :| 0 <= j < |r| && r[j] == "b";
    assert i != j;
  }
  /** The filter a click on the collapsed suggestion asks for as written.
      The suggestion is the label array, which `targets.includes` never
      finds among the string keys, so the filter is the array's string
      form, its labels joined by `,`, followed by `.`. */
  function SuggestionFilterAsWritten(suggestion: seq<string>): (r: string)
    ensures |suggestion| == 0 ==> r == "."
    ensures |suggestion| == 1 ==> r == suggestion[0] + "."
    ensures |suggestion| >= 2 ==> |suggestion[0]| < |r| && r[|suggestion[0]|] == ','
  {
    Join(suggestion, ',') + "."
  }

  /** As written, once two or more labels are collapsed into the one
      suggestion, clicking it lists nothing: the filter it asks for (with
      or without the `.` the handler appends when it equals the current
      filter) holds a `,`, and no entry name does. */
  lemma SuggestionClickEmptiesList(keys: seq<string>, filter: string, limitCount: Option<nat>)
    requires forall k :: k in keys ==> ',' !in k
    requires ObjectRenderer(keys, filter, limitCount).Collapsed? && Limit(limitCount) > 0
    requires |Labels(Targets(keys, filter), InputSeq(filter))| >= 2
    ensures var labels := Labels(Targets(keys, filter), InputSeq(filter));
      var next := SuggestionFilterAsWritten(labels);
      && ObjectRenderer(keys, filter, limitCount).suggestions == [labels]
      && Targets(keys, next) == []
      && Targets(keys, next + ".") == []
  {
    var labels := Labels(Targets(keys, filter), InputSeq(filter));
    var next := SuggestionFilterAsWritten(labels);
    var c := |labels[0]|;
    assert next[c] == ',';
    NoTargetsWithComma(keys, next, c);
    assert (next + ".")[c] == ',';
    NoTargetsWithComma(keys, next + ".", c);
  }

  /** A filter holding a `,` keeps no entry whose name lacks one. */
  lemma {:induction false} NoTargetsWithComma(keys: seq<string>, f: string, c: nat)
    requires forall k :: k in keys ==> ',' !in k
    requires c < |f| && f[c] == ','
    ensures Targets(keys, f) == []
    decreases |keys|
  {
    if keys != [] {
      assert StartsWith(keys[0], f) ==> keys[0][c] == ',';
      NoTargetsWithComma(keys[1..], f, c);
    }
  }
}
