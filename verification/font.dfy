/**
 * Glyph decoding for one font resource (`PdfFontWrapper`): a byte string is
 * turned into text through the font's ToUnicode map and into a total glyph
 * width through its width table.
 */
module Font {

  newtype byte = x: int | 0 <= x < 256

  /**
   * The entries of a PDF font dictionary that the wrapper reads: `/BaseFont`,
   * `/FirstChar`, `/LastChar`, `/Widths`, and the `/ToUnicode` map already
   * decoded into character codes and the text each one stands for.
   */
  datatype FontDict = FontDict(
    baseFont: string,
    firstChar: int,
    lastChar: int,
    widthsArray: seq<int>,
    toUnicode: map<int, string>)

  /** A wrapped font: character code to text, and character code to glyph width. */
  datatype FontWrapper = FontWrapper(unicodeMap: map<int, string>, widths: map<int, int>)

  /** Every byte has both a text and a width; otherwise the source raises `KeyError`. */
  predicate Decodable(f: FontWrapper, bs: seq<byte>) {
    forall i :: 0 <= i < |bs| ==> bs[i] as int in f.unicodeMap && bs[i] as int in f.widths
  }

  /** The texts of the bytes of `bs`, in order. */
  function DecodedText(f: FontWrapper, bs: seq<byte>): string
    requires Decodable(f, bs)
  {
    if bs == [] then "" else DecodedText(f, bs[..|bs| - 1]) + f.unicodeMap[bs[|bs| - 1] as int]
  }

  /** The sum of the widths of the bytes of `bs`. */
  function TotalWidth(f: FontWrapper, bs: seq<byte>): int
    requires Decodable(f, bs)
  {
    if bs == [] then 0 else TotalWidth(f, bs[..|bs| - 1]) + f.widths[bs[|bs| - 1] as int]
  }

  /**
   * `get_content_and_width`: the concatenated texts and the summed widths of
   * the bytes of `bs`; the empty byte string gives `("", 0)`.
   */
  method GetContentAndWidth(f: FontWrapper, bs: seq<byte>) returns (content: string, width: int)
    requires Decodable(f, bs)
    ensures content == DecodedText(f, bs)
    ensures width == TotalWidth(f, bs)
    ensures bs == [] ==> content == "" && width == 0
  {
    content, width := "", 0;
    for i := 0 to |bs|
      invariant content == DecodedText(f, bs[..i])
      invariant width == TotalWidth(f, bs[..i])
    {
      assert bs[..i + 1][..i] == bs[..i];
      content := content + f.unicodeMap[bs[i] as int];
      width := width + f.widths[bs[i] as int];
    }
    assert bs[..|bs|] == bs;
  }

  /** Decoding distributes over concatenation of byte strings. */
  lemma {:induction false} DecodeConcat(f: FontWrapper, a: seq<byte>, b: seq<byte>)
    requires Decodable(f, a) && Decodable(f, b)
    ensures Decodable(f, a + b)
    ensures DecodedText(f, a + b) == DecodedText(f, a) + DecodedText(f, b)
    ensures TotalWidth(f, a + b) == TotalWidth(f, a) + TotalWidth(f, b)
  {
    if b == [] {
      assert a + b == a;
    } else {
      var b' := b[..|b| - 1];
      assert Decodable(f, b');
      DecodeConcat(f, a, b');
      assert (a + b)[..|a + b| - 1] == a + b';
      assert (a + b)[|a + b| - 1] == b[|b| - 1];
    }
  }

  /** No character of `s` is in `bad`. */
  predicate Avoids(s: string, bad: set<char>) {
    forall k :: 0 <= k < |s| ==> s[k] !in bad
  }

  /** No text of the font's unicode map holds a character of `bad`. */
  predicate MapAvoids(f: FontWrapper, bad: set<char>) {
    forall code :: code in f.unicodeMap ==> Avoids(f.unicodeMap[code], bad)
  }

  /** A font none of whose texts holds a character of `bad` decodes no such character. */
  lemma {:induction false} DecodedAvoids(f: FontWrapper, bs: seq<byte>, bad: set<char>)
    requires Decodable(f, bs) && MapAvoids(f, bad)
    ensures Avoids(DecodedText(f, bs), bad)
  {
    if bs != [] {
      DecodedAvoids(f, bs[..|bs| - 1], bad);
      assert Avoids(f.unicodeMap[bs[|bs| - 1] as int], bad);
    }
  }

  /**
   * `get_widths_dict`: exactly the codes `FirstChar..LastChar`, code `i`
   * taking entry `i - FirstChar` of `/Widths` (an empty table when
   * `LastChar < FirstChar`). A `/Widths` array too short for the range
   * makes the source raise `IndexError`.
   */
  method GetWidthsDict(d: FontDict) returns (widths: map<int, int>)
    requires d.lastChar - d.firstChar < |d.widthsArray|
    ensures forall i :: i in widths <==> d.firstChar <= i <= d.lastChar
    ensures forall i :: i in widths ==> widths[i] == d.widthsArray[i - d.firstChar]
  {
    widths := map[];
    var i := d.firstChar;
    while i <= d.lastChar
      invariant d.firstChar <= i
      invariant i <= d.lastChar + 1 || i == d.firstChar
      invariant forall j :: j in widths <==> d.firstChar <= j < i && j <= d.lastChar
      invariant forall j :: j in widths ==> widths[j] == d.widthsArray[j - d.firstChar]
      decreases d.lastChar - i
    {
      widths := widths[i := d.widthsArray[i - d.firstChar]];
      i := i + 1;
    }
  }

  /** The wrapper built for a font dictionary: its unicode map and its width table. */
  method Wrap(d: FontDict) returns (f: FontWrapper)
    requires d.lastChar - d.firstChar < |d.widthsArray|
    ensures f.unicodeMap == d.toUnicode
    ensures forall i :: i in f.widths <==> d.firstChar <= i <= d.lastChar
    ensures forall i :: i in f.widths ==> f.widths[i] == d.widthsArray[i - d.firstChar]
  {
    var widths := GetWidthsDict(d);
    f := FontWrapper(d.toUnicode, widths);
  }
}
