/** Splitting a runbook into chunks at its second-level headings. */
module Chunking {
  const TEXT_LIMIT: nat := 50000
  const CHUNK_LIMIT: nat := 4500
  const HEADING: string := "## "

  function Concat(parts: seq<string>): string {
    if parts == [] then "" else parts[0] + Concat(parts[1..])
  }

  /** The longest beginning of at most 50000 characters. */
  function Truncated(text: string): (r: string)
    ensures r <= text && |r| <= 50000 && (|r| < 50000 ==> r == text)
  {
    if |text| > TEXT_LIMIT then text[..TEXT_LIMIT] else text
  }

  /** A heading starts here: at the start of a line. */
  predicate StartsSection(text: string, i: nat)
    requires i < |text|
  {
    HEADING <= text[i..] && (i == 0 || text[i - 1] == '\n')
  }

  /** The pieces of text[start..], cut before every heading at or after i. */
  function SectionsFrom(text: string, start: nat, i: nat): (r: seq<string>)
    requires start <= i <= |text|
    ensures r != []
    decreases |text| - i
  {
    if i == |text| then [text[start..]]
    else if StartsSection(text, i) then [text[start..i]] + SectionsFrom(text, i, i + 1)
    else SectionsFrom(text, start, i + 1)
  }

  function Sections(text: string): seq<string> {
    SectionsFrom(text, 0, 0)
  }

  /** Cutting loses nothing, and every piece after the first starts with a heading. */
  lemma {:induction false} SectionsLossless(text: string, start: nat, i: nat)
    requires start <= i <= |text|
    ensures Concat(SectionsFrom(text, start, i)) == text[start..]
    ensures forall k :: 1 <= k < |SectionsFrom(text, start, i)| ==> HEADING <= SectionsFrom(text, start, i)[k]
    decreases |text| - i
  {
    if i < |text| {
      SectionsLossless(text, if StartsSection(text, i) then i else start, i + 1);
      if StartsSection(text, i) {
        assert text[start..i] + text[i..] == text[start..];
        FirstSectionIsPrefix(text, i, i + 1);
      }
    }
  }

  lemma {:induction false} FirstSectionIsPrefix(text: string, start: nat, i: nat)
    requires start < i <= |text| && StartsSection(text, start)
    ensures HEADING <= SectionsFrom(text, start, i)[0]
    decreases |text| - i
  {
    if i < |text| {
      if StartsSection(text, i) {
        // two headings cannot overlap: the characters of a heading are no line breaks
        assert text[i - 1] == '\n' && forall k :: 0 <= k < 3 ==> text[start..][k] == HEADING[k];
        assert text[start] == HEADING[0] && text[start + 1] == HEADING[1] && text[start + 2] == HEADING[2];
        assert i - 1 != start && i - 1 != start + 1 && i - 1 != start + 2;
        assert text[start..i] == text[start..][..i - start];
      } else {
        FirstSectionIsPrefix(text, start, i + 1);
      }
    }
  }

  /** A line inside the piece, not at its very beginning, is a heading. */
  predicate HasHeadingInside(piece: string, j: int) {
    1 <= j < |piece| && piece[j - 1] == '\n' && HEADING <= piece[j..]
  }

  /** Every heading starts a piece: no line inside a piece is one. */
  lemma {:induction false} HeadingsStartSections(text: string, start: nat, i: nat, k: nat, j: nat)
    requires start <= i <= |text| && forall p :: start < p < i ==> !StartsSection(text, p)
    requires k < |SectionsFrom(text, start, i)|
    ensures !HasHeadingInside(SectionsFrom(text, start, i)[k], j)
    decreases |text| - i
  {
    if i == |text| {
      HeadingInText(text, start, i, j);
    } else if StartsSection(text, i) {
      if k == 0 { HeadingInText(text, start, i, j); } else { HeadingsStartSections(text, i, i + 1, k - 1, j); }
    } else {
      HeadingsStartSections(text, start, i + 1, k, j);
    }
  }

  lemma HeadingInText(text: string, start: nat, end: nat, j: nat)
    requires start <= end <= |text| && forall p :: start < p < end ==> !StartsSection(text, p)
    ensures !HasHeadingInside(text[start..end], j)
  {
    var piece := text[start..end];
    if HasHeadingInside(piece, j) {
      assert HEADING == piece[j..][..|HEADING|] == text[start + j..][..|HEADING|];
      assert StartsSection(text, start + j);
    }
  }

  predicate EndsLine(piece: string) {
    piece != "" && piece[|piece| - 1] == '\n'
  }

  /** No line is cut: every piece but the last ends its line, or is the empty text before a first heading. */
  lemma {:induction false} LinesAreWhole(text: string, start: nat, i: nat, k: nat)
    requires start < i <= |text| || start == i == 0
    requires k + 1 < |SectionsFrom(text, start, i)|
    ensures EndsLine(SectionsFrom(text, start, i)[k]) || (k == start == i == 0 && SectionsFrom(text, start, i)[0] == "")
    decreases |text| - i
  {
    if StartsSection(text, i) {
      if k > 0 { LinesAreWhole(text, i, i + 1, k - 1); }
      else if i > start { assert text[start..i][i - start - 1] == text[i - 1]; }
    } else {
      LinesAreWhole(text, start, i + 1, k);
    }
  }

  /** Piece `k` begins with a heading, at the start of a line. */
  predicate StartsAtHeading(pieces: seq<string>, k: nat)
    requires 1 <= k < |pieces|
  {
    HEADING <= pieces[k] && (EndsLine(pieces[k - 1]) || (k == 1 && pieces[0] == ""))
  }

  /** The sections of a runbook: nothing is lost, each later one begins with a heading at the start of a
      line, and no heading is left inside one. */
  lemma SectionsAreAtHeadings(text: string)
    ensures var pieces := Sections(text);
      && Concat(pieces) == text
      && (forall k :: 1 <= k < |pieces| ==> StartsAtHeading(pieces, k))
      && (forall k, j :: 0 <= k < |pieces| ==> !HasHeadingInside(pieces[k], j))
  {
    var pieces := Sections(text);
    SectionsLossless(text, 0, 0);
    forall k | 1 <= k < |pieces| ensures StartsAtHeading(pieces, k) { LinesAreWhole(text, 0, 0, k - 1); }
    forall k, j | 0 <= k < |pieces| ensures !HasHeadingInside(pieces[k], j) {
      if j >= 0 { HeadingsStartSections(text, 0, 0, k, j); }
    }
  }

  // --- The greedy loop ---

  /** Whether the section no longer fits beside what is collected. */
  predicate Overflows(current: nat, section: nat) {
    current + section > CHUNK_LIMIT && current > 0
  }

  function Chunks(current: string, sections: seq<string>): seq<string>
    decreases |sections|
  {
    if sections == [] then (if current == "" then [] else [current])
    else if Overflows(|current|, |sections[0]|) then [current] + Chunks(sections[0], sections[1..])
    else Chunks(current + sections[0], sections[1..])
  }

  method IngestRunbook(text: string) returns (chunks: seq<string>)
    ensures chunks == Chunks("", Sections(Truncated(text)))
  {
    var sections := Sections(if |text| > TEXT_LIMIT then text[..TEXT_LIMIT] else text);
    chunks := [];
    var current := "";
    var i := 0;
    while i < |sections|
      invariant 0 <= i <= |sections|
      invariant chunks + Chunks(current, sections[i..]) == Chunks("", sections)
    {
      var section := sections[i];
      assert sections[i..][0] == section && sections[i..][1..] == sections[i + 1..];
      if |current| + |section| > CHUNK_LIMIT && current != "" {
        assert chunks + ([current] + Chunks(section, sections[i + 1..])) == chunks + [current]
          + Chunks(section, sections[i + 1..]);
        chunks := chunks + [current];
        current := "";
      }
      assert "" + section == section;
      current := current + section;
      i := i + 1;
    }
    if current != "" {
      chunks := chunks + [current];
    }
  }

  lemma {:induction false} ChunksLossless(current: string, sections: seq<string>)
    ensures Concat(Chunks(current, sections)) == current + Concat(sections)
    decreases |sections|
  {
    if sections != [] {
      if Overflows(|current|, |sections[0]|) {
        ChunksLossless(sections[0], sections[1..]);
      } else {
        ChunksLossless(current + sections[0], sections[1..]);
        assert (current + sections[0]) + Concat(sections[1..]) == current + Concat(sections);
      }
    }
  }

  /** A chunk may be stored: it is short enough, or it is one section by itself. */
  predicate Allowed(chunk: string, sections: seq<string>) {
    chunk != "" && (|chunk| <= 4500 || chunk in sections)
  }

  lemma {:induction false} ChunksAllowed(current: string, sections: seq<string>, all: seq<string>)
    requires current == "" || Allowed(current, all)
    requires forall s :: s in sections ==> s in all
    ensures forall c :: c in Chunks(current, sections) ==> Allowed(c, all)
    decreases |sections|
  {
    if sections != [] {
      var section := sections[0];
      assert section in all;
      if Overflows(|current|, |section|) {
        ChunksAllowed(section, sections[1..], all);
      } else {
        assert current == "" ==> current + section == section;
        ChunksAllowed(current + section, sections[1..], all);
      }
    }
  }

  // --- No grouping uses fewer chunks ---

  /** How many chunks are still to come; only lengths matter. */
  function Pieces(current: nat, sections: seq<string>): nat
    decreases |sections|
  {
    if sections == [] then (if current == 0 then 0 else 1)
    else if Overflows(current, |sections[0]|) then 1 + Pieces(|sections[0]|, sections[1..])
    else Pieces(current + |sections[0]|, sections[1..])
  }

  lemma {:induction false} ChunksCounted(current: string, sections: seq<string>)
    ensures |Chunks(current, sections)| == Pieces(|current|, sections)
    decreases |sections|
  {
    if sections != [] {
      ChunksCounted(if Overflows(|current|, |sections[0]|) then sections[0] else current + sections[0], sections[1..]);
    }
  }

  /** Having collected more never helps, and costs at most one chunk. */
  lemma {:induction false} CollectedMore(n: nat, m: nat, sections: seq<string>)
    requires n <= m
    ensures Pieces(n, sections) <= Pieces(m, sections) <= 1 + Pieces(n, sections)
    decreases |sections|
  {
    if sections != [] {
      var x := |sections[0]|;
      CollectedMore(n + x, m + x, sections[1..]);
      CollectedMore(x, n + x, sections[1..]);
    }
  }

  /** A group of consecutive sections that may become one chunk: short enough, or one section that
      is not empty, beside empty ones. */
  predicate Groupable(group: seq<string>) {
    |Concat(group)| <= 4500 || exists i | 0 <= i < |group| :: Alone(group, i)
  }

  predicate Alone(group: seq<string>, i: int) {
    forall j | 0 <= j < |group| && j != i :: group[j] == ""
  }

  function Flatten(groups: seq<seq<string>>): seq<string> {
    if groups == [] then [] else groups[0] + Flatten(groups[1..])
  }

  /** Collecting a short group opens no chunk by itself. */
  lemma {:induction false} ShortGroup(current: nat, group: seq<string>, rest: seq<string>)
    requires current + |Concat(group)| <= CHUNK_LIMIT
    ensures Pieces(current, group + rest) == Pieces(current + |Concat(group)|, rest)
    decreases |group|
  {
    if group == [] {
      assert group + rest == rest;
    } else {
      assert (group + rest)[1..] == group[1..] + rest && (group + rest)[0] == group[0];
      ShortGroup(current + |group[0]|, group[1..], rest);
    }
  }

  /** Empty sections open no chunk by themselves, or close the one that is full. */
  lemma {:induction false} EmptySections(current: nat, group: seq<string>, rest: seq<string>)
    requires forall j :: 0 <= j < |group| ==> group[j] == ""
    ensures Pieces(current, group + rest) <= 1 + Pieces(0, rest)
    ensures Pieces(0, group + rest) == Pieces(0, rest)
    decreases |group|
  {
    if group == [] {
      assert group + rest == rest;
      CollectedMore(0, current, rest);
    } else {
      assert (group + rest)[1..] == group[1..] + rest && (group + rest)[0] == group[0];
      EmptySections(current, group[1..], rest);
    }
  }

  lemma {:induction false} SingleSection(group: seq<string>, rest: seq<string>, i: nat)
    requires i < |group| && forall j :: 0 <= j < |group| && j != i ==> group[j] == ""
    ensures Pieces(0, group + rest) <= 1 + Pieces(0, rest)
    decreases |group|
  {
    assert (group + rest)[1..] == group[1..] + rest && (group + rest)[0] == group[0];
    if i == 0 {
      EmptySections(|group[0]|, group[1..], rest);
    } else {
      SingleSection(group[1..], rest, i - 1);
    }
  }

  lemma {:induction false} GroupingsNeedAsMany(groups: seq<seq<string>>)
    requires forall g :: g in groups ==> Groupable(g)
    ensures Pieces(0, Flatten(groups)) <= |groups|
  {
    if groups != [] {
      var g, rest := groups[0], Flatten(groups[1..]);
      GroupingsNeedAsMany(groups[1..]);
      assert Groupable(g);
      if |Concat(g)| <= CHUNK_LIMIT {
        ShortGroup(0, g, rest);
        CollectedMore(0, |Concat(g)|, rest);
      } else {
        var i :| 0 <= i < |g| && Alone(g, i);
        SingleSection(g, rest, i);
      }
    }
  }

  /** The stored chunks of a runbook are its (truncated) text, each is short enough or one section,
      and no way of grouping its sections in order by the same rule needs fewer. */
  lemma ChunkingIsOptimal(text: string, groups: seq<seq<string>>)
    requires Flatten(groups) == Sections(Truncated(text)) && forall g :: g in groups ==> Groupable(g)
    ensures var chunks := Chunks("", Sections(Truncated(text)));
      && Concat(chunks) == Truncated(text)
      && (forall c :: c in chunks ==> Allowed(c, Sections(Truncated(text))))
      && |chunks| <= |groups|
  {
    var sections := Sections(Truncated(text));
    SectionsLossless(Truncated(text), 0, 0);
    ChunksLossless("", sections);
    ChunksAllowed("", sections, sections);
    ChunksCounted("", sections);
    GroupingsNeedAsMany(groups);
    assert Truncated(text)[0..] == Truncated(text);
  }
}
