/**
 * The six characters the docket reader inserts into extracted text as
 * structure (the class attributes of `DocketReader`). They must never be
 * produced by decoding a glyph.
 */
module Markers {

  /** Ends every serialised segment. */
  const Terminator: char := '\n'
  /** Meaningful horizontal space between two pieces of one line. */
  const Tab: char := '_'
  /** The following text logically precedes the text before it. */
  const ComesBefore: char := '|'
  /** Opens the bracketed coordinates and font class of a segment. */
  const PropsOpen: char := '['
  /** Closes the bracketed coordinates and font class of a segment. */
  const PropsClose: char := ']'
  /** A line wrap inside one text box. */
  const BoxWrap: char := '^'

  /** `DocketReader.get_special_characters`: the reserved characters, all distinct. */
  function SpecialCharacters(): (r: seq<char>)
    ensures |r| == 6
    ensures forall i, j :: 0 <= i < j < |r| ==> r[i] != r[j]
    ensures Terminator in r && Tab in r && ComesBefore in r
    ensures PropsOpen in r && PropsClose in r && BoxWrap in r
  {
    [Tab, Terminator, PropsOpen, PropsClose, ComesBefore, BoxWrap]
  }

  predicate IsSpecial(c: char) {
    c in SpecialCharacters()
  }
}
