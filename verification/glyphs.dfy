/** Seven-segment-like OCR glyphs and the fixed table that decodes them.

A glyph is three rows of three characters drawn from space, underscore and
pipe. The decoder joins the rows into one nine-character key and looks the
key up in a fixed ten-entry table; anything not in the table decodes to the
illegibility marker '?'.
 */
module Glyphs {

  /** The character a glyph that is not in the table decodes to. */
  const Illegible: char := '?'

  predicate IsDigit(c: char) {
    '0' <= c <= '9'
  }

  predicate AllDigits(s: string) {
    forall i :: 0 <= i < |s| ==> IsDigit(s[i])
  }

  /** The three symbols glyph rows are drawn with. */
  predicate IsSymbol(c: char) {
    c == ' ' || c == '_' || c == '|'
  }

  /** Joins rows with the empty separator, left to right. */
  function Flatten(rows: seq<string>): string {
    if rows == [] then "" else rows[0] + Flatten(rows[1..])
  }

  /** The table the decoder consults, keyed by the row-major flattened glyph. */
  const DigitDictionary: map<string, char> := map[
    " _ | ||_|" := '0',
    "    |  | " := '1',
    " _  _||_ " := '2',
    " _  _| _|" := '3',
    "   |_|  |" := '4',
    " _ |_  _|" := '5',
    " _ |_ |_|" := '6',
    " _   |  |" := '7',
    " _ |_||_|" := '8',
    " _ |_| _|" := '9'
  ]

  /** The glyph of a digit as three printed rows. This is the table read the
      other way round, written out row by row so that it can serve as an
      independent reference for the table. */
  function GlyphRows(d: char): (rows: seq<string>)
    requires IsDigit(d)
    ensures |rows| == 3
    ensures forall r :: 0 <= r < 3 ==> |rows[r]| == 3
    ensures forall r, i :: 0 <= r < 3 && 0 <= i < 3 ==> IsSymbol(rows[r][i])
  {
    if d == '0' then [" _ ", "| |", "|_|"]
    else if d == '1' then ["   ", " | ", " | "]
    else if d == '2' then [" _ ", " _|", "|_ "]
    else if d == '3' then [" _ ", " _|", " _|"]
    else if d == '4' then ["   ", "|_|", "  |"]
    else if d == '5' then [" _ ", "|_ ", " _|"]
    else if d == '6' then [" _ ", "|_ ", "|_|"]
    else if d == '7' then [" _ ", "  |", "  |"]
    else if d == '8' then [" _ ", "|_|", "|_|"]
    else [" _ ", "|_|", " _|"]
  }

  /** Flattening three rows is their concatenation. */
  lemma FlattenThree(a: string, b: string, c: string)
    ensures Flatten([a, b, c]) == a + b + c
  {
    assert [a, b, c][1..] == [b, c];
    assert [b, c][1..] == [c];
    assert [c][1..] == [];
    assert Flatten([c]) == c;
  }

  /** The flattened glyph of a digit is its three rows concatenated. */
  lemma FlattenGlyph(d: char)
    requires IsDigit(d)
    ensures Flatten(GlyphRows(d)) == GlyphRows(d)[0] + GlyphRows(d)[1] + GlyphRows(d)[2]
  {
    var rows := GlyphRows(d);
    assert rows == [rows[0], rows[1], rows[2]];
    FlattenThree(rows[0], rows[1], rows[2]);
  }

  /** Every digit's glyph is in the table and maps back to that digit. */
  lemma EveryDigitHasGlyph(d: char)
    requires IsDigit(d)
    ensures Flatten(GlyphRows(d)) in DigitDictionary
    ensures DigitDictionary[Flatten(GlyphRows(d))] == d
  {
    FlattenGlyph(d);
    var key := Flatten(GlyphRows(d));
    if d == '0' { assert key == " _ | ||_|"; }
    else if d == '1' { assert key == "    |  | "; }
    else if d == '2' { assert key == " _  _||_ "; }
    else if d == '3' { assert key == " _  _| _|"; }
    else if d == '4' { assert key == "   |_|  |"; }
    else if d == '5' { assert key == " _ |_  _|"; }
    else if d == '6' { assert key == " _ |_ |_|"; }
    else if d == '7' { assert key == " _   |  |"; }
    else if d == '8' { assert key == " _ |_||_|"; }
    else { assert key == " _ |_| _|"; }
  }

  /** Every key of the table is nine characters long and is the flattened
      glyph of the digit it maps to; so the table is one-to-one. */
  lemma DictionaryIsGlyphTable()
    ensures forall key :: key in DigitDictionary ==>
              |key| == 9 && IsDigit(DigitDictionary[key]) && Flatten(GlyphRows(DigitDictionary[key])) == key
  {
    forall key | key in DigitDictionary
      ensures |key| == 9 && IsDigit(DigitDictionary[key]) && Flatten(GlyphRows(DigitDictionary[key])) == key
    {
      var d := DigitDictionary[key];
      assert IsDigit(d);
      EveryDigitHasGlyph(d);
    }
  }

  /** The table has exactly ten keys, one per digit. */
  lemma DictionarySize()
    ensures |DigitDictionary.Keys| == 10
    ensures forall d :: IsDigit(d) <==> d in DigitDictionary.Values
  {
    forall d | IsDigit(d)
      ensures d in DigitDictionary.Values
    {
      EveryDigitHasGlyph(d);
    }
  }

  /** Decodes one glyph given as its rows (searchDigitDictionary). */
  function SearchDigitDictionary(ocr: seq<string>): (digit: char)
    ensures digit == Illegible <==> Flatten(ocr) !in DigitDictionary
    ensures digit != Illegible ==> IsDigit(digit) && Flatten(GlyphRows(digit)) == Flatten(ocr)
    ensures |Flatten(ocr)| != 9 ==> digit == Illegible
  {
    DictionaryIsGlyphTable();
    var flat := Flatten(ocr);
    if flat in DigitDictionary then DigitDictionary[flat] else Illegible
  }

  /** Decoding the printed glyph of a digit gives back that digit. */
  lemma DecodeGlyph(d: char)
    requires IsDigit(d)
    ensures SearchDigitDictionary(GlyphRows(d)) == d
  {
    EveryDigitHasGlyph(d);
  }
}
