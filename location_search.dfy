/** The location search box: the filter over the location list and the
    highlighting of matches in the displayed text.

    `toLowerCase` is an ASCII fold, and so is the case-insensitive regular
    expression match of `highlightText`. The query is escaped before it is
    turned into a pattern, so the pattern matches the query literally. */
module LocationSearch {
  import opened Js
  import opened Seqs
  import opened LocationData

  // ---------------------------------------------------------------------
  // Filtering.

  /** Some feature contains `q` once lower-cased. */
  predicate FeatureMatch(features: seq<string>, q: string) {
    exists i :: 0 <= i < |features| && Contains(ToLower(features[i]), q)
  }

  /** The filter's test for one location and the normalised query. A
      missing owner name is `undefined`, which is falsy. */
  predicate Matches(loc: Location, q: string) {
    || Contains(ToLower(loc.name), q)
    || Contains(ToLower(loc.address), q)
    || FeatureMatch(loc.features, q)
    || (loc.ownerName.Some? && Contains(ToLower(loc.ownerName.value), q))
  }

  function MatchesQuery(q: string): Location -> bool {
    (loc: Location) => Matches(loc, q)
  }

  /** `searchQuery.toLowerCase().trim()` */
  function NormalisedQuery(searchQuery: string): string {
    Trim(ToLower(searchQuery))
  }

  /** `filteredLocations` */
  function FilterLocations(locations: seq<Location>, searchQuery: string): (r: seq<Location>)
    ensures Trim(searchQuery) == "" ==> r == locations
    ensures |r| <= |locations|
    ensures Trim(searchQuery) != "" ==>
      forall i :: 0 <= i < |r| ==> r[i] in locations && Matches(r[i], NormalisedQuery(searchQuery))
  {
    if Trim(searchQuery) == "" then locations
    else Filter(locations, MatchesQuery(NormalisedQuery(searchQuery)))
  }

  /** A blank query shows every location, in order. */
  lemma BlankQueryKeepsAll(locations: seq<Location>, searchQuery: string)
    requires Trim(searchQuery) == ""
    ensures FilterLocations(locations, searchQuery) == locations
  {
  }

  /** The result is the input with some locations dropped, in order. */
  lemma FilterKeepsOrder(locations: seq<Location>, searchQuery: string)
    ensures IsSubsequence(FilterLocations(locations, searchQuery), locations)
  {
    if Trim(searchQuery) == "" {
      SubsequenceRefl(locations);
    } else {
      FilterIsSubsequence(locations, MatchesQuery(NormalisedQuery(searchQuery)));
    }
  }

  /** For a non-blank query a location is shown exactly when the query
      occurs in its lower-cased name, address, a feature or owner name. */
  lemma FilterMembership(locations: seq<Location>, searchQuery: string, loc: Location)
    requires Trim(searchQuery) != ""
    ensures loc in FilterLocations(locations, searchQuery)
        <==> loc in locations && Matches(loc, NormalisedQuery(searchQuery))
  {
    var p := MatchesQuery(NormalisedQuery(searchQuery));
    var f := Filter(locations, p);
    if loc in locations && p(loc) {
      var i :| 0 <= i < |locations| && locations[i] == loc;
      assert locations[i] in f;
    }
    if loc in f {
      var i :| 0 <= i < |f| && f[i] == loc;
      assert p(f[i]);
    }
  }

  /** Without an owner name, only the name, the address and the features
      can match; and `Contains` finds the query exactly where it occurs. */
  lemma MissingOwnerNeverMatches(loc: Location, q: string)
    requires loc.ownerName.None?
    ensures Matches(loc, q) <==>
      (exists k: nat :: OccursAt(ToLower(loc.name), q, k))
      || (exists k: nat :: OccursAt(ToLower(loc.address), q, k))
      || FeatureMatch(loc.features, q)
  {
    ContainsIff(ToLower(loc.name), q);
    ContainsIff(ToLower(loc.address), q);
  }

  // ---------------------------------------------------------------------
  // Highlighting.

  /** The pattern matches `text` at `k`: the next `|q|` characters equal
      the query up to ASCII case. */
  predicate MatchAt(text: string, q: string, k: nat) {
    k + |q| <= |text| && ToLower(text[k..k + |q|]) == ToLower(q)
  }

  /** The first position at or after `from` where the pattern matches. */
  function FirstMatch(text: string, q: string, from: nat): (r: Option<nat>)
    requires |q| > 0
    ensures r.Some? ==> from <= r.value && r.value + |q| <= |text| && MatchAt(text, q, r.value)
    ensures r.Some? ==> forall j :: from <= j < r.value ==> !MatchAt(text, q, j)
    ensures r.None? ==> forall j :: from <= j ==> !MatchAt(text, q, j)
    decreases |text| - from
  {
    if from + |q| > |text| then None
    else if MatchAt(text, q, from) then Some(from)
    else FirstMatch(text, q, from + 1)
  }

  /** `text.split(/(q)/gi)`: the pieces between matches, each followed by
      the matched piece itself (the capture group), from left to right
      without overlap. The pieces between matches are at even positions. */
  function SplitKeep(text: string, q: string): (parts: seq<string>)
    requires |q| > 0
    ensures |parts| % 2 == 1
    decreases |text|
  {
    var m := FirstMatch(text, q, 0);
    if m.None? then [text]
    else [text[..m.value], text[m.value..m.value + |q|]] + SplitKeep(text[m.value + |q|..], q)
  }

  datatype Piece = Plain(text: string) | Marked(text: string)

  function PieceText(p: Piece): string {
    p.text
  }

  /** One part as `highlightText` renders it: marked when it equals the
      query up to case. */
  function Render(part: string, query: string): Piece {
    if ToLower(part) == ToLower(query) then Marked(part) else Plain(part)
  }

  /** `highlightText(text, query)`. A blank query gives the text itself,
      here one plain piece. */
  function HighlightText(text: string, query: string): (r: seq<Piece>)
    ensures Trim(query) == "" ==> r == [Plain(text)]
    ensures |r| % 2 == 1
    ensures forall i :: 0 <= i < |r| && r[i].Marked? ==> ToLower(r[i].text) == ToLower(query)
  {
    if Trim(query) == "" then [Plain(text)]
    else Map(SplitKeep(text, query), (part: string) => Render(part, query))
  }

  /** The split loses nothing: its parts put back together are the text. */
  lemma {:induction false} SplitKeepConcat(text: string, q: string)
    requires |q| > 0
    ensures Concat(SplitKeep(text, q)) == text
    decreases |text|
  {
    var m := FirstMatch(text, q, 0);
    if m.Some? {
      var k := m.value;
      var rest := SplitKeep(text[k + |q|..], q);
      SplitKeepConcat(text[k + |q|..], q);
      assert SplitKeep(text, q) == [text[..k], text[k..k + |q|]] + rest;
      ConcatAppend([text[..k], text[k..k + |q|]], rest);
      assert Concat([text[..k], text[k..k + |q|]]) == text[..k] + (text[k..k + |q|] + Concat([]));
      assert text[..k] + text[k..k + |q|] + text[k + |q|..] == text;
    }
  }

  /** The piece before the first match at or after 0 is not itself a
      match: it is either of another length or the text at 0, which does
      not match. */
  lemma FirstPieceDiffers(text: string, q: string, k: nat)
    requires |q| > 0 && k <= |text|
    requires forall j :: 0 <= j < k ==> !MatchAt(text, q, j)
    ensures ToLower(text[..k]) != ToLower(q)
  {
    if k == |q| {
      assert !MatchAt(text, q, 0);
      assert text[..k] == text[0..0 + |q|];
    }
  }

  /** No part between matches equals the query up to case, and every
      captured part does: a part is highlighted exactly when it is a match. */
  lemma {:induction false} SplitKeepParity(text: string, q: string)
    requires |q| > 0
    ensures forall i :: 0 <= i < |SplitKeep(text, q)| ==>
      (ToLower(SplitKeep(text, q)[i]) == ToLower(q) <==> i % 2 == 1)
    decreases |text|
  {
    var m := FirstMatch(text, q, 0);
    if m.None? {
      assert SplitKeep(text, q) == [text];
      assert text[..|text|] == text;
      FirstPieceDiffers(text, q, |text|);
    } else {
      var k := m.value;
      var rest := SplitKeep(text[k + |q|..], q);
      SplitKeepParity(text[k + |q|..], q);
      var parts := SplitKeep(text, q);
      assert parts == [text[..k], text[k..k + |q|]] + rest;
      FirstPieceDiffers(text, q, k);
      assert MatchAt(text, q, k);
      forall i | 0 <= i < |parts|
        ensures ToLower(parts[i]) == ToLower(q) <==> i % 2 == 1
      {
        if i >= 2 {
          assert parts[i] == rest[i - 2];
        }
      }
    }
  }

  /** A match inside the piece before the first match would be an earlier
      match of the whole text. */
  lemma PrefixHasNoMatch(text: string, q: string, m: nat)
    requires |q| > 0 && m <= |text|
    requires forall j :: 0 <= j < m ==> !MatchAt(text, q, j)
    ensures forall k :: 0 <= k <= m - |q| ==> !MatchAt(text[..m], q, k)
  {
    forall k | 0 <= k <= m - |q|
      ensures !MatchAt(text[..m], q, k)
    {
      assert text[..m][k..k + |q|] == text[k..k + |q|];
      assert !MatchAt(text, q, k);
    }
  }

  /** The split separates every match: no piece between matches contains
      one, so each occurrence of the query, in any case, is captured. */
  lemma {:induction false} SplitKeepPlainHasNoMatch(text: string, q: string)
    requires |q| > 0
    ensures forall i, k :: 0 <= i < |SplitKeep(text, q)| && i % 2 == 0 && 0 <= k <= |SplitKeep(text, q)[i]| - |q| ==>
      !MatchAt(SplitKeep(text, q)[i], q, k)
    decreases |text|
  {
    var m := FirstMatch(text, q, 0);
    var parts := SplitKeep(text, q);
    if m.None? {
      assert parts == [text];
      assert text[..|text|] == text;
      PrefixHasNoMatch(text, q, |text|);
    } else {
      var k0 := m.value;
      var rest := SplitKeep(text[k0 + |q|..], q);
      SplitKeepPlainHasNoMatch(text[k0 + |q|..], q);
      assert parts == [text[..k0], text[k0..k0 + |q|]] + rest;
      PrefixHasNoMatch(text, q, k0);
      forall i, k | 0 <= i < |parts| && i % 2 == 0 && 0 <= k <= |parts[i]| - |q|
        ensures !MatchAt(parts[i], q, k)
      {
        if i >= 2 {
          assert parts[i] == rest[i - 2];
        }
      }
    }
  }

  /** The rendered pieces read back as the text, a piece is marked exactly
      when it is a match of the query, and an unmarked piece contains no
      match. */
  lemma HighlightRoundTrip(text: string, query: string)
    ensures Concat(Map(HighlightText(text, query), PieceText)) == text
    ensures Trim(query) != "" ==>
      forall i :: 0 <= i < |HighlightText(text, query)| ==>
        (HighlightText(text, query)[i].Marked? <==> i % 2 == 1)
    ensures Trim(query) != "" ==>
      forall i, k :: 0 <= i < |HighlightText(text, query)| && HighlightText(text, query)[i].Plain?
                     && 0 <= k <= |HighlightText(text, query)[i].text| - |query| ==>
        !MatchAt(HighlightText(text, query)[i].text, query, k)
  {
    var h := HighlightText(text, query);
    if Trim(query) == "" {
      assert Map(h, PieceText) == [text];
      assert Concat([text]) == text + Concat([]);
    } else {
      assert |query| > 0;
      var parts := SplitKeep(text, query);
      SplitKeepConcat(text, query);
      SplitKeepParity(text, query);
      SplitKeepPlainHasNoMatch(text, query);
      assert Map(h, PieceText) == parts;
    }
  }
}
