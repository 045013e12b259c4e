/**
 * The configuration object: its option flags and their setters, the comment labels and their
 * clean-up on load, and the normalisation of the style lists (filtering, sorting, merging the
 * defaults back in, replacing a list wholesale).
 */
module Configuration {
  import opened Wrappers
  import opened Lists
  import opened FlagOps
  import opened ConfigFlags

  // ---------------------------------------------------------------------------------------
  // Comment labels

  /** The comment styles the default labels refer to. */
  datatype CommentStyleType =
    | Emphasis | Exclaimation | Question | Deletion | ToDo | Note | Hack
    | Heading1 | Heading2 | Heading3 | Heading4 | Heading5 | Heading6

  /** A comment label; a label read from a configuration file may have no text at all. */
  datatype CommentLabel = CommentLabel(
    text: Option<string>,
    styleId: CommentStyleType,
    ignoreCase: bool,
    allowPunctuationDelimiter: bool)

  /** `Char.IsWhiteSpace`: the Unicode space, line and paragraph separators and the controls U+0009-U+000D, U+0085. */
  predicate IsWhiteSpace(c: char) {
    ('\U{0009}' <= c <= '\U{000D}') || c == '\U{0020}' || c == '\U{0085}' || c == '\U{00A0}' || c == '\U{1680}'
    || ('\U{2000}' <= c <= '\U{200A}') || c == '\U{2028}' || c == '\U{2029}' || c == '\U{202F}'
    || c == '\U{205F}' || c == '\U{3000}'
  }

  /** `String.IsNullOrWhiteSpace`. */
  predicate IsNullOrWhiteSpace(s: Option<string>) {
    s.None? || forall i :: 0 <= i < |s.value| ==> IsWhiteSpace(s.value[i])
  }

  predicate HasText(l: CommentLabel) {
    !IsNullOrWhiteSpace(l.text)
  }

  function Label(text: string, style: CommentStyleType, ignoreCase: bool, allowPunctuation: bool): CommentLabel {
    CommentLabel(Some(text), style, ignoreCase, allowPunctuation)
  }

  /** The labels installed when a configuration has none. */
  function DefaultLabels(): (r: seq<CommentLabel>)
    ensures |r| == 17
  {
    [Label("!", Emphasis, false, false),
     Label("#", Emphasis, false, false),
     Label("?", Question, false, false),
     Label("!?", Exclaimation, false, false),
     Label("x", Deletion, true, false),
     Label("+++", Heading1, false, false),
     Label("!!", Heading1, false, false),
     Label("++", Heading2, false, false),
     Label("+", Heading3, false, false),
     Label("-", Heading4, false, false),
     Label("--", Heading5, false, false),
     Label("---", Heading6, false, false),
     Label("TODO", ToDo, true, true),
     Label("TO-DO", ToDo, true, true),
     Label("undone", ToDo, true, true),
     Label("NOTE", Note, true, true),
     Label("HACK", Hack, true, true)]
  }

  /** Every default label has text. */
  lemma DefaultLabelsHaveText()
    ensures forall i :: 0 <= i < |DefaultLabels()| ==> HasText(DefaultLabels()[i])
  {
    forall i | 0 <= i < |DefaultLabels()| ensures HasText(DefaultLabels()[i]) {
      var t := DefaultLabels()[i].text.value;
      assert !IsWhiteSpace(t[0]);
    }
  }

  /** The labels a loaded configuration ends up with. */
  function CleanLabels(labels: seq<CommentLabel>): seq<CommentLabel> {
    var kept := Filter(labels, HasText);
    if kept == [] then DefaultLabels() else kept
  }

  /**
   * After clean-up no label is blank; the labels with text are kept in order, and the
   * defaults are installed exactly when none had text.
   */
  lemma CleanLabelsResult(labels: seq<CommentLabel>)
    ensures var r := CleanLabels(labels);
      && (forall i :: 0 <= i < |r| ==> HasText(r[i]))
      && ((exists i :: 0 <= i < |labels| && HasText(labels[i])) ==>
           r == Filter(labels, HasText) && forall l :: l in r <==> l in labels && HasText(l))
      && ((forall i :: 0 <= i < |labels| ==> !HasText(labels[i])) ==> r == DefaultLabels())
  {
    var kept := Filter(labels, HasText);
    FilterMembers(labels, HasText);
    DefaultLabelsHaveText();
    if kept != [] {
      assert kept[0] in kept;
      forall i | 0 <= i < |kept| ensures HasText(kept[i]) {
        assert kept[i] in kept;
      }
    } else {
      forall i | 0 <= i < |labels| ensures !HasText(labels[i]) {
        assert labels[i] !in kept;
      }
    }
    if exists i :: 0 <= i < |labels| && HasText(labels[i]) {
      var i :| 0 <= i < |labels| && HasText(labels[i]);
      assert labels[i] in kept;
    }
  }

  // ---------------------------------------------------------------------------------------
  // Style lists

  /**
   * A style entry: its numeric style id (the value of its StyleID) and its font name; the other
   * formatting properties are not needed by the list operations.
   */
  datatype Style = Style(styleId: int, font: Option<string>)

  /** `new TStyle { StyleID = id }`. */
  function DefaultStyle(id: int): Style {
    Style(id, None)
  }

  /** A style list that the loading code filters, sorts and appends to in place. */
  class StyleList {
    var items: seq<Style>

    constructor (items: seq<Style>)
      ensures this.items == items
    {
      this.items := items;
    }
  }

  predicate SortedById(s: seq<Style>) {
    forall i, j :: 0 <= i < j < |s| ==> s[i].styleId <= s[j].styleId
  }

  function InsertById(x: Style, s: seq<Style>): (r: seq<Style>)
    ensures |r| == |s| + 1
  {
    if s == [] || x.styleId <= s[0].styleId then [x] + s else [s[0]] + InsertById(x, s[1..])
  }

  /** The order `List.Sort` with the comparison `x.Id - y.Id` leaves; equal ids keep their order here. */
  function SortById(s: seq<Style>): (r: seq<Style>)
    ensures |r| == |s|
  {
    if s == [] then [] else InsertById(s[0], SortById(s[1..]))
  }

  lemma {:induction false} InsertByIdPermutes(x: Style, s: seq<Style>)
    ensures multiset(InsertById(x, s)) == multiset(s) + multiset{x}
  {
    if s != [] && x.styleId > s[0].styleId {
      InsertByIdPermutes(x, s[1..]);
      assert s == [s[0]] + s[1..];
    }
  }

  lemma {:induction false} InsertByIdMembers(x: Style, s: seq<Style>)
    ensures forall y :: y in InsertById(x, s) <==> y == x || y in s
  {
    if s != [] && x.styleId > s[0].styleId {
      InsertByIdMembers(x, s[1..]);
      assert s == [s[0]] + s[1..];
    }
  }

  lemma {:induction false} InsertByIdSorted(x: Style, s: seq<Style>)
    requires SortedById(s)
    ensures SortedById(InsertById(x, s))
    ensures multiset(InsertById(x, s)) == multiset(s) + multiset{x}
  {
    InsertByIdPermutes(x, s);
    if s != [] && x.styleId > s[0].styleId {
      InsertByIdSorted(x, s[1..]);
      InsertByIdMembers(x, s[1..]);
      var t := InsertById(x, s[1..]);
      assert InsertById(x, s) == [s[0]] + t;
      forall k | 0 <= k < |t| ensures s[0].styleId <= t[k].styleId {
        assert t[k] in t;
        if t[k] != x {
          var j :| 0 <= j < |s[1..]| && s[1..][j] == t[k];
          assert s[j + 1] == t[k];
        }
      }
      ConsSorted(s[0], t);
    }
  }

  /** An entry whose id is at most every id of a sorted list can go in front of it. */
  lemma ConsSorted(x: Style, t: seq<Style>)
    requires SortedById(t)
    requires forall k :: 0 <= k < |t| ==> x.styleId <= t[k].styleId
    ensures SortedById([x] + t)
  {
    var r := [x] + t;
    forall i, j | 0 <= i < j < |r| ensures r[i].styleId <= r[j].styleId {
      if i > 0 {
        assert r[i] == t[i - 1] && r[j] == t[j - 1];
      } else {
        assert r[j] == t[j - 1];
      }
    }
  }

  /** Sorting keeps the entries: the result is a permutation of the input. */
  lemma {:induction false} SortByIdPermutes(s: seq<Style>)
    ensures multiset(SortById(s)) == multiset(s)
  {
    if s != [] {
      SortByIdPermutes(s[1..]);
      InsertByIdPermutes(s[0], SortById(s[1..]));
      assert s == [s[0]] + s[1..];
    }
  }

  /** The sorted list is in ascending id order and holds the same entries as before. */
  lemma {:induction false} SortByIdSorted(s: seq<Style>)
    ensures SortedById(SortById(s))
    ensures multiset(SortById(s)) == multiset(s)
  {
    SortByIdPermutes(s);
    if s != [] {
      SortByIdSorted(s[1..]);
      InsertByIdSorted(s[0], SortById(s[1..]));
    }
  }

  /** Sorting neither adds nor loses an entry. */
  lemma {:induction false} SortByIdMembers(s: seq<Style>)
    ensures forall y :: y in SortById(s) <==> y in s
  {
    if s != [] {
      SortByIdMembers(s[1..]);
      InsertByIdMembers(s[0], SortById(s[1..]));
      assert s == [s[0]] + s[1..];
    }
  }

  /** Keeping only some entries keeps them sorted. */
  lemma {:induction false} FilterSortedById(s: seq<Style>, p: Style -> bool)
    requires SortedById(s)
    ensures SortedById(Filter(s, p))
  {
    if s != [] {
      FilterSortedById(s[1..], p);
      FilterMembers(s[1..], p);
      var t := Filter(s[1..], p);
      forall k | 0 <= k < |t| ensures s[0].styleId <= t[k].styleId {
        assert t[k] in s[1..];
      }
    }
  }

  /** `ForEach(i => i.Font = null)`: every entry keeps its id and loses its font. */
  function ClearFonts(s: seq<Style>): (r: seq<Style>)
    ensures |r| == |s|
    ensures forall k :: 0 <= k < |r| ==> r[k].styleId == s[k].styleId && r[k].font.None?
  {
    seq(|s|, k requires 0 <= k < |s| => s[k].(font := None))
  }

  /** `EnumHelper.IsDefined`: the style enumerations number their members 0, 1, ..., count - 1. */
  predicate IsDefinedId(id: int, count: nat) {
    0 <= id < count
  }

  predicate PositiveId(st: Style) {
    st.styleId >= 1
  }

  /** The first index of an entry with the given id, or -1. */
  function FindIndexOfId(s: seq<Style>, id: int): (r: int)
    ensures -1 <= r < |s|
    ensures r == -1 <==> forall k :: 0 <= k < |s| ==> s[k].styleId != id
    ensures r >= 0 ==> s[r].styleId == id && forall k :: 0 <= k < r ==> s[k].styleId != id
  {
    if s == [] then -1
    else if s[0].styleId == id then 0
    else var j := FindIndexOfId(s[1..], id); if j == -1 then -1 else j + 1
  }

  predicate HasId(s: seq<Style>, id: int) {
    exists k :: 0 <= k < |s| && s[k].styleId == id
  }

  /** The list after the defaults with ids 0 .. n - 1 have been considered for merging. */
  function MergeUpTo(s: seq<Style>, n: nat): (r: seq<Style>)
    ensures |s| <= |r|
  {
    if n == 0 then s
    else
      var m := MergeUpTo(s, n - 1);
      if n - 1 > 0 && !HasId(m, n - 1) then m + [DefaultStyle(n - 1)] else m
  }

  /**
   * Merging keeps the existing entries in place, appends fresh default entries only for ids
   * 1 .. n - 1 that were absent, in ascending id order (so no id is added twice), and leaves
   * every id 1 .. n - 1 present.
   */
  lemma {:induction false} MergeUpToFacts(s: seq<Style>, n: nat)
    ensures var r := MergeUpTo(s, n);
      && r[..|s|] == s
      && (forall k :: |s| <= k < |r| ==>
            r[k] == DefaultStyle(r[k].styleId) && 1 <= r[k].styleId < n && !HasId(s, r[k].styleId))
      && (forall k, k' :: |s| <= k < k' < |r| ==> r[k].styleId < r[k'].styleId)
      && (forall id :: 1 <= id < n ==> HasId(r, id))
  {
    if n > 0 {
      MergeUpToFacts(s, n - 1);
      var m := MergeUpTo(s, n - 1);
      var r := MergeUpTo(s, n);
      if n - 1 > 0 && !HasId(m, n - 1) {
        assert r == m + [DefaultStyle(n - 1)];
        assert r[..|s|] == m[..|s|];
        assert !HasId(s, n - 1);
        forall id | 1 <= id < n ensures HasId(r, id) {
          if id < n - 1 {
            assert HasId(m, id);
            var k :| 0 <= k < |m| && m[k].styleId == id;
            assert r[k] == m[k];
          } else {
            assert r[|m|].styleId == id;
          }
        }
      } else {
        forall id | 1 <= id < n ensures HasId(r, id) {
          if id < n - 1 {
            assert HasId(m, id);
          }
        }
      }
    }
  }

  /** Merging into a list that already holds every id 1 .. n - 1 changes nothing. */
  lemma {:induction false} MergeUpToComplete(s: seq<Style>, n: nat)
    requires forall id :: 1 <= id < n ==> HasId(s, id)
    ensures MergeUpTo(s, n) == s
  {
    if n > 0 {
      MergeUpToComplete(s, n - 1);
    }
  }

  /** `GetDefaultCodeStyles`: one fresh style per member of the enumeration, entry i with id i. */
  method GetDefaultCodeStyles(count: nat) returns (r: array<Style>)
    ensures fresh(r)
    ensures r.Length == count
    ensures forall i :: 0 <= i < count ==> r[i] == DefaultStyle(i)
  {
    r := new Style[count](i => DefaultStyle(0));
    var i := 0;
    while i < count
      invariant 0 <= i <= count
      invariant forall k :: 0 <= k < i ==> r[k] == DefaultStyle(k)
    {
      r[i] := DefaultStyle(i);
      i := i + 1;
    }
  }

  /** `MergeDefaultCodeStyles`: appends the default of every positive id that the list lacks. */
  method MergeDefaultCodeStyles(styles: StyleList, count: nat)
    modifies styles
    ensures styles.items == MergeUpTo(old(styles.items), count)
  {
    var defaults := GetDefaultCodeStyles(count);
    var i := 0;
    while i < defaults.Length
      invariant 0 <= i <= count == defaults.Length
      invariant forall k :: 0 <= k < count ==> defaults[k] == DefaultStyle(k)
      invariant styles.items == MergeUpTo(old(styles.items), i)
    {
      var s := defaults[i];
      assert s == DefaultStyle(i);
      assert FindIndexOfId(styles.items, i) == -1 <==> !HasId(styles.items, i);
      if s.styleId > 0 && FindIndexOfId(styles.items, s.styleId) == -1 {
        styles.items := styles.items + [s];
      }
      i := i + 1;
    }
  }

  /** `ResetCodeStyle`: the list is cleared and refilled with the target entries. */
  method ResetCodeStyle(source: StyleList, target: seq<Style>)
    modifies source
    ensures source.items == target
  {
    source.items := [];
    source.items := source.items + target;
  }

  /** What loading leaves before the defaults are merged back in. */
  function LoadedEntries(s: seq<Style>, removeFontNames: bool, count: nat): seq<Style> {
    var sorted := SortById(Filter(s, PositiveId));
    Filter(if removeFontNames then ClearFonts(sorted) else sorted, (st: Style) => IsDefinedId(st.styleId, count))
  }

  /** The whole of `LoadStyleEntries`. */
  function LoadedStyles(s: seq<Style>, removeFontNames: bool, count: nat): seq<Style> {
    MergeUpTo(LoadedEntries(s, removeFontNames, count), count)
  }

  /**
   * Before merging, the loaded entries are sorted by ascending id, every id is positive and
   * defined, and every font is cleared when loading from a theme.
   */
  lemma LoadedEntriesSorted(s: seq<Style>, removeFontNames: bool, count: nat)
    ensures var r := LoadedEntries(s, removeFontNames, count);
      && SortedById(r)
      && (forall k :: 0 <= k < |r| ==> 1 <= r[k].styleId < count)
      && (forall k :: 0 <= k < |r| ==> removeFontNames ==> r[k].font.None?)
  {
    var positive := Filter(s, PositiveId);
    var sorted := SortById(positive);
    var cleared := if removeFontNames then ClearFonts(sorted) else sorted;
    var defined := (st: Style) => IsDefinedId(st.styleId, count);
    var r := Filter(cleared, defined);
    FilterMembers(s, PositiveId);
    SortByIdSorted(positive);
    SortByIdMembers(positive);
    ClearedSorted(sorted, removeFontNames);
    FilterMembers(cleared, defined);
    FilterSortedById(cleared, defined);
    forall k | 0 <= k < |r| ensures 1 <= r[k].styleId < count && (removeFontNames ==> r[k].font.None?) {
      assert r[k] in r;
    }
  }

  /** Clearing the fonts of a sorted list of positive ids keeps it sorted and its ids positive. */
  lemma ClearedSorted(sorted: seq<Style>, removeFontNames: bool)
    requires SortedById(sorted) && forall y :: y in sorted ==> PositiveId(y)
    ensures var cleared := if removeFontNames then ClearFonts(sorted) else sorted;
      && SortedById(cleared)
      && forall y :: y in cleared ==> PositiveId(y) && (removeFontNames ==> y.font.None?)
  {
    var cleared := if removeFontNames then ClearFonts(sorted) else sorted;
    forall y | y in cleared ensures PositiveId(y) && (removeFontNames ==> y.font.None?) {
      var j :| 0 <= j < |cleared| && cleared[j] == y;
      assert sorted[j] in sorted;
    }
    forall i, j | 0 <= i < j < |cleared| ensures cleared[i].styleId <= cleared[j].styleId {
      assert cleared[i].styleId == sorted[i].styleId && cleared[j].styleId == sorted[j].styleId;
    }
  }

  /**
   * An entry of the input whose id is positive and defined survives loading, with its font
   * cleared when loading from a theme.
   */
  lemma LoadedEntriesKeep(s: seq<Style>, removeFontNames: bool, count: nat, x: Style)
    requires x in s && 1 <= x.styleId < count
    ensures (if removeFontNames then x.(font := None) else x) in LoadedEntries(s, removeFontNames, count)
  {
    var positive := Filter(s, PositiveId);
    var sorted := SortById(positive);
    var cleared := if removeFontNames then ClearFonts(sorted) else sorted;
    var defined := (st: Style) => IsDefinedId(st.styleId, count);
    FilterMembers(s, PositiveId);
    assert x in positive;
    SortByIdPermutes(positive);
    assert x in multiset(sorted);
    var j :| 0 <= j < |sorted| && sorted[j] == x;
    var y := cleared[j];
    assert y == (if removeFontNames then x.(font := None) else x);
    assert y in cleared && defined(y);
    FilterMembers(cleared, defined);
  }

  /**
   * `LoadStyleEntries`: drop entries with an id below 1, sort by id, clear the fonts when
   * loading from a theme, drop entries whose id is not a member of the enumeration, then merge
   * the defaults back in.
   */
  method LoadStyleEntries(styles: StyleList, removeFontNames: bool, count: nat)
    modifies styles
    ensures styles.items == LoadedStyles(old(styles.items), removeFontNames, count)
  {
    styles.items := Filter(styles.items, PositiveId);
    styles.items := SortById(styles.items);
    if removeFontNames {
      ghost var sorted := styles.items;
      var j := 0;
      while j < |styles.items|
        invariant 0 <= j <= |styles.items| == |sorted|
        invariant forall k :: 0 <= k < j ==> styles.items[k] == sorted[k].(font := None)
        invariant forall k :: j <= k < |styles.items| ==> styles.items[k] == sorted[k]
      {
        styles.items := styles.items[j := styles.items[j].(font := None)];
        j := j + 1;
      }
      assert styles.items == ClearFonts(sorted);
    }
    styles.items := RemoveFailing(styles.items, (st: Style) => IsDefinedId(st.styleId, count));
    MergeDefaultCodeStyles(styles, count);
  }

  /** After loading, every id 1 .. count - 1 is present exactly as merging promises. */
  lemma LoadedStylesComplete(s: seq<Style>, removeFontNames: bool, count: nat)
    ensures forall id :: 1 <= id < count ==> HasId(LoadedStyles(s, removeFontNames, count), id)
  {
    MergeUpToFacts(LoadedEntries(s, removeFontNames, count), count);
  }

  // ---------------------------------------------------------------------------------------
  // The configuration object

  class Config {
    var features: bv32
    var specialHighlightOptions: bv32
    var markerOptions: bv32
    var quickInfoOptions: bv32
    var smartBarOptions: bv32
    var labels: seq<CommentLabel>
    /** The Features values announced through the Updated event, oldest first. */
    var updates: seq<bv32>

    /** A new configuration: the property initialisers, no labels, nothing announced. */
    constructor ()
      ensures features == FeaturesNone && specialHighlightOptions == HighlightNone
      ensures markerOptions == MarkerDefault && quickInfoOptions == QuickInfoDefault
      ensures smartBarOptions == SmartBarDefault
      ensures labels == [] && updates == []
    {
      features := FeaturesNone;
      specialHighlightOptions := HighlightNone;
      markerOptions := MarkerDefault;
      quickInfoOptions := QuickInfoDefault;
      smartBarOptions := SmartBarDefault;
      labels := [];
      updates := [];
    }

    method FireConfigChangedEvent(updatedFeature: bv32)
      modifies this`updates
      ensures updates == old(updates) + [updatedFeature]
    {
      updates := updates + [updatedFeature];
    }

    method SetFeatures(options: bv32, enable: bool)
      modifies this`features
      ensures features == SetFlags(old(features), options, enable)
    {
      features := SetFlags(features, options, enable);
    }

    method SetQuickInfoOptions(options: bv32, enable: bool)
      modifies this`quickInfoOptions
      ensures quickInfoOptions == SetFlags(old(quickInfoOptions), options, enable)
    {
      quickInfoOptions := SetFlags(quickInfoOptions, options, enable);
    }

    method SetMarkerOptions(options: bv32, enable: bool)
      modifies this`markerOptions, this`updates
      ensures markerOptions == SetFlags(old(markerOptions), options, enable)
      ensures updates == old(updates) + [FeaturesScrollbarMarkers]
    {
      markerOptions := SetFlags(markerOptions, options, enable);
      FireConfigChangedEvent(FeaturesScrollbarMarkers);
    }

    method SetSpecialHighlightOptions(options: bv32, enable: bool)
      modifies this`specialHighlightOptions, this`updates
      ensures specialHighlightOptions == SetFlags(old(specialHighlightOptions), options, enable)
      ensures updates == old(updates) + [FeaturesSyntaxHighlight]
    {
      specialHighlightOptions := SetFlags(specialHighlightOptions, options, enable);
      FireConfigChangedEvent(FeaturesSyntaxHighlight);
    }

    /** The label clean-up of a freshly loaded configuration. */
    method LoadLabels()
      modifies this`labels
      ensures labels == CleanLabels(old(labels))
    {
      labels := RemoveFailing(labels, HasText);
      if |labels| == 0 {
        labels := labels + DefaultLabels();
      }
    }
  }
}
