/**
 * Everything the chunker takes from regular expressions, as functions the proofs quantify
 * over: they decide where spans, headers and boundaries are, never whether the invariants hold.
 */
module Lexicons {
  import opened Text
  import opened Lines
  import HeaderTrackers

  /** A half-open range of offsets. */
  datatype Span = Span(start: int, end: int)

  /** What the header tracker reports after an update. */
  datatype HeaderView = HeaderView(ended: bool, headers: string)

  datatype Lexicon = Lexicon(
    /** All matches of all protected patterns, as byte spans, in pattern order. */
    matches: string -> seq<Span>,
    /** What the table-header tracker reads off units and headers. */
    tables: HeaderTrackers.TablePatterns,
    /** findHeuristicBoundaries for a text and language hints, as rune offsets. */
    heuristicBounds: (string, seq<string>) -> seq<int>,
    /** The trimmed text group of the heading pattern, for a line it matches. */
    headingText: string -> string,
    /** SelectStrategy's test for other markers than headings on the document profile. */
    structuralMarkers: string -> bool,
    /** CharsForTokenLimit for a token limit and language hints. */
    charBudget: (int, seq<string>) -> int)
  {
    /** A regular expression only ever matches whole runes of its subject, and a part of a line within the line. */
    ghost predicate Valid() {
      && (forall t: string, s: Span :: s in matches(t) ==> OnBoundary(t, s.start) && OnBoundary(t, s.end))
      && (forall t: string, langs: seq<string> :: BoundsOk(t, heuristicBounds(t, langs)))
      && (forall line: string :: NoNewline(line) ==> NoNewline(headingText(line)))
      && tables.Valid()
    }

    /** The tracker's report after the texts of the units seen so far. */
    function Header(seen: seq<string>): HeaderView {
      var s := HeaderTrackers.TrackerAfter(tables, seen);
      HeaderView(s.endedThisUnit, HeaderTrackers.HeadersIn(s))
    }
  }

  /** Strictly ascending offsets within the text: the sort and dedupe that end the boundary scan. */
  predicate BoundsOk(t: string, bs: seq<int>) {
    && (forall i :: 0 <= i < |bs| ==> 0 <= bs[i] <= |t|)
    && (forall i, j :: 0 <= i < j < |bs| ==> bs[i] < bs[j])
  }
}
