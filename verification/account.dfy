/** Decoding one account band: three text lines cut into nine glyph windows
    of three columns each (parseOcrAccount).
 */
module Account {
  import opened Glyphs

  /** Number of columns of a band that hold glyphs: nine glyphs of three columns. */
  const MaxCharacters: nat := 27
  /** Number of rows of a band; the loop over windows also steps by it. */
  const MaxLines: nat := 3
  /** Number of characters of an account. */
  const AccountLength: nat := 9

  /** What a line holds at a column: a character, or nothing past its end. */
  datatype Column = Absent | Present(symbol: char)

  function ColumnAt(s: string, c: nat): Column {
    if c < |s| then Present(s[c]) else Absent
  }

  /** `String.prototype.substring` for non-negative arguments: both bounds are
      clamped to the string's length, and swapped when the start lies past the
      end, so it never fails. Column i of the result is column lo + i of the
      string, lo being the smaller bound, for every i below the distance
      between the bounds. */
  function Substring(s: string, start: nat, end: nat): (sub: string)
    ensures start <= end && end <= |s| ==> sub == s[start..end]
    ensures start <= end && start <= |s| <= end ==> sub == s[start..]
    ensures start <= end && |s| <= start ==> sub == ""
    ensures start <= end ==> |sub| <= end - start
    ensures end < start ==> |sub| <= start - end
    ensures start <= end ==> forall i :: 0 <= i < end - start ==> ColumnAt(sub, i) == ColumnAt(s, start + i)
    ensures end < start ==> forall i :: 0 <= i < start - end ==> ColumnAt(sub, i) == ColumnAt(s, end + i)
  {
    var lo := if start <= end then start else end;
    var hi := if start <= end then end else start;
    var a := if lo <= |s| then lo else |s|;
    var b := if hi <= |s| then hi else |s|;
    s[a..b]
  }

  /** The glyph whose left column is `index`, as the three-row matrix the
      decoder receives: each row holds at most three characters, and its
      column i is column index + i of the corresponding line, absent past
      that line's end. */
  function Cell(lines: seq<string>, index: nat): (ocr: seq<string>)
    requires |lines| >= MaxLines
    ensures |ocr| == 3
    ensures forall r :: 0 <= r < 3 ==> |ocr[r]| <= 3
    ensures forall r, i :: 0 <= r < 3 && 0 <= i < 3 ==> ColumnAt(ocr[r], i) == ColumnAt(lines[r], index + i)
  {
    [Substring(lines[0], index, index + 3),
     Substring(lines[1], index, index + 3),
     Substring(lines[2], index, index + 3)]
  }

  /** Number of windows the loop of parseOcrAccount still visits from column
      `index` on. */
  function WindowsFrom(index: nat): nat {
    if index < MaxCharacters then (MaxCharacters - index + MaxLines - 1) / MaxLines else 0
  }

  /** The `for` loop of parseOcrAccount from window `index` on, with the
      characters decoded so far in `account`: it keeps what it has and adds
      one character per window still to visit. */
  function AccountLoop(lines: seq<string>, index: nat, account: string): (result: string)
    requires |lines| >= MaxLines
    ensures |result| == |account| + WindowsFrom(index)
    ensures result[..|account|] == account
    decreases MaxCharacters - index
  {
    if index < MaxCharacters then
      AccountLoop(lines, index + MaxLines, account + [SearchDigitDictionary(Cell(lines, index))])
    else
      account
  }

  /** Decodes the nine glyphs of a band (parseOcrAccount). Lines past the
      third are ignored; short lines never fail, their missing windows decode
      to the illegibility marker. Character k is decoded from the window at
      columns 3k..3k+2; AccountLoopComputesParse shows that the loop of
      parseOcrAccount builds exactly this string. */
  function ParseOcrAccount(lines: seq<string>): (account: string)
    requires |lines| >= MaxLines
    ensures |account| == AccountLength
    ensures forall k :: 0 <= k < AccountLength ==> account[k] == Illegible || IsDigit(account[k])
  {
    seq(AccountLength, k requires 0 <= k < AccountLength => SearchDigitDictionary(Cell(lines, MaxLines * k)))
  }

  /** One turn of the loop at window w appends character w of the account. */
  lemma AccountLoopStep(lines: seq<string>, w: nat, account: string)
    requires |lines| >= MaxLines && w < AccountLength
    ensures AccountLoop(lines, MaxLines * w, account)
         == AccountLoop(lines, MaxLines * (w + 1), account + [ParseOcrAccount(lines)[w]])
  {
    assert MaxLines * w + MaxLines == MaxLines * (w + 1);
  }

  /** Moving element w of s onto the end of a leaves the concatenation with
      the rest of s unchanged. */
  lemma AppendNext(a: string, s: string, w: nat)
    requires w < |s|
    ensures (a + [s[w]]) + s[w + 1..] == a + s[w..]
  {
    assert s[w..] == [s[w]] + s[w + 1..];
  }

  /** From window w on (column 3w), the loop appends the decodings of the
      remaining windows to what it has so far. */
  lemma {:induction false} AccountLoopAppends(lines: seq<string>, w: nat, account: string)
    requires |lines| >= MaxLines && w <= AccountLength
    ensures AccountLoop(lines, MaxLines * w, account) == account + ParseOcrAccount(lines)[w..]
    decreases AccountLength - w
  {
    var decoded := ParseOcrAccount(lines);
    if w < AccountLength {
      var next := account + [decoded[w]];
      AccountLoopStep(lines, w, account);
      AccountLoopAppends(lines, w + 1, next);
      AppendNext(account, decoded, w);
    } else {
      assert decoded[w..] == "";
    }
  }

  /** The loop of parseOcrAccount, run from window 0 with an empty account,
      builds the nine decoded windows in order. */
  lemma AccountLoopComputesParse(lines: seq<string>)
    requires |lines| >= MaxLines
    ensures AccountLoop(lines, 0, "") == ParseOcrAccount(lines)
  {
    AccountLoopAppends(lines, 0, "");
  }

  /** Character k of the account is the decoding of the window at columns
      3k..3k+2. */
  lemma DecodedWindow(lines: seq<string>, k: nat)
    requires |lines| >= MaxLines && k < AccountLength
    ensures ParseOcrAccount(lines)[k] == SearchDigitDictionary(Cell(lines, 3 * k))
  {
  }

  /** A window is fixed by the columns it covers. */
  lemma WindowFromColumns(s: string, t: string, index: nat)
    requires forall c :: index <= c < index + 3 ==> ColumnAt(s, c) == ColumnAt(t, c)
    ensures Substring(s, index, index + 3) == Substring(t, index, index + 3)
  {
    var a := Substring(s, index, index + 3);
    var b := Substring(t, index, index + 3);
    assert ColumnAt(s, index) == ColumnAt(t, index);
    assert ColumnAt(s, index + 1) == ColumnAt(t, index + 1);
    assert ColumnAt(s, index + 2) == ColumnAt(t, index + 2);
    assert |a| == |b|;
    forall i | 0 <= i < |a| ensures a[i] == b[i] {
      assert ColumnAt(s, index + i) == ColumnAt(t, index + i);
    }
  }

  /** Character k of the account depends only on columns 3k..3k+2 of the
      first three lines. */
  lemma Locality(lines: seq<string>, lines': seq<string>, k: nat)
    requires |lines| >= MaxLines && |lines'| >= MaxLines && k < AccountLength
    requires forall r, c :: 0 <= r < 3 && 3 * k <= c < 3 * k + 3 ==> ColumnAt(lines[r], c) == ColumnAt(lines'[r], c)
    ensures ParseOcrAccount(lines)[k] == ParseOcrAccount(lines')[k]
  {
    forall r | 0 <= r < 3
      ensures Substring(lines[r], 3 * k, 3 * k + 3) == Substring(lines'[r], 3 * k, 3 * k + 3)
    {
      WindowFromColumns(lines[r], lines'[r], 3 * k);
    }
    assert Cell(lines, 3 * k) == Cell(lines', 3 * k);
    DecodedWindow(lines, k);
    DecodedWindow(lines', k);
  }

  /** Lines are never read from column 27 on, and only the first three lines
      are read at all. */
  lemma IgnoresColumnsFrom27(lines: seq<string>, lines': seq<string>)
    requires |lines| >= MaxLines && |lines'| >= MaxLines
    requires forall r, c :: 0 <= r < 3 && 0 <= c < MaxCharacters ==> ColumnAt(lines[r], c) == ColumnAt(lines'[r], c)
    ensures ParseOcrAccount(lines) == ParseOcrAccount(lines')
  {
    forall k | 0 <= k < AccountLength
      ensures ParseOcrAccount(lines)[k] == ParseOcrAccount(lines')[k]
    {
      Locality(lines, lines', k);
    }
  }

  /** A line too short to reach the end of window k makes character k illegible. */
  lemma ShortLineIsIllegible(lines: seq<string>, k: nat, r: nat)
    requires |lines| >= MaxLines && k < AccountLength && r < 3
    requires |lines[r]| < 3 * k + 3
    ensures ParseOcrAccount(lines)[k] == Illegible
  {
    var ocr := Cell(lines, 3 * k);
    assert ocr == [ocr[0], ocr[1], ocr[2]];
    FlattenThree(ocr[0], ocr[1], ocr[2]);
    assert |ocr[r]| < 3;
    DecodedWindow(lines, k);
  }

  /** Character k is the digit d exactly when the three windows at columns
      3k..3k+2 are present in full and spell the glyph of d. */
  lemma DigitIffGlyph(lines: seq<string>, k: nat, d: char)
    requires |lines| >= MaxLines && k < AccountLength && IsDigit(d)
    ensures ParseOcrAccount(lines)[k] == d <==>
              forall r :: 0 <= r < 3 ==> 3 * k + 3 <= |lines[r]| && lines[r][3 * k..3 * k + 3] == GlyphRows(d)[r]
  {
    var ocr := Cell(lines, 3 * k);
    var g := GlyphRows(d);
    assert ocr == [ocr[0], ocr[1], ocr[2]];
    FlattenThree(ocr[0], ocr[1], ocr[2]);
    FlattenGlyph(d);
    DecodedWindow(lines, k);
    if ParseOcrAccount(lines)[k] == d {
      assert ocr[0] + ocr[1] + ocr[2] == g[0] + g[1] + g[2];
      assert |ocr[0]| == 3 && |ocr[1]| == 3 && |ocr[2]| == 3;
      ThreeWayEqual(ocr[0], ocr[1], ocr[2], g[0], g[1], g[2]);
      forall r | 0 <= r < 3
        ensures 3 * k + 3 <= |lines[r]| && lines[r][3 * k..3 * k + 3] == g[r]
      {
        assert |ocr[r]| == 3;
      }
    }
    if forall r :: 0 <= r < 3 ==> 3 * k + 3 <= |lines[r]| && lines[r][3 * k..3 * k + 3] == g[r] {
      assert ocr == g;
      DecodeGlyph(d);
    }
  }

  /** Equal concatenations of three three-character strings are equal part by part. */
  lemma ThreeWayEqual(a: string, b: string, c: string, x: string, y: string, z: string)
    requires |a| == |b| == |c| == |x| == |y| == |z| == 3
    requires a + b + c == x + y + z
    ensures a == x && b == y && c == z
  {
    assert a == (a + b + c)[..3];
    assert x == (x + y + z)[..3];
    assert b == (a + b + c)[3..6];
    assert y == (x + y + z)[3..6];
    assert c == (a + b + c)[6..];
    assert z == (x + y + z)[6..];
  }

  /** One printed row of an all-digit account: row r of each digit's glyph,
      side by side. */
  function RenderRow(account: string, r: nat): (row: string)
    requires AllDigits(account) && r < 3
    ensures |row| == 3 * |account|
    ensures forall k :: 0 <= k < |account| ==> row[3 * k..3 * k + 3] == GlyphRows(account[k])[r]
    ensures forall c :: 0 <= c < |row| ==> IsSymbol(row[c])
  {
    if account == [] then ""
    else
      var rest := RenderRow(account[1..], r);
      var row := GlyphRows(account[0])[r] + rest;
      assert forall k :: 1 <= k < |account| ==> row[3 * k..3 * k + 3] == rest[3 * (k - 1)..3 * (k - 1) + 3];
      row
  }

  /** The three lines that print an all-digit account: the inverse of
      ParseOcrAccount. */
  function Render(account: string): (lines: seq<string>)
    requires AllDigits(account)
    ensures |lines| == 3
    ensures forall r :: 0 <= r < 3 ==> |lines[r]| == 3 * |account|
  {
    [RenderRow(account, 0), RenderRow(account, 1), RenderRow(account, 2)]
  }

  /** Printing a nine-digit account and decoding the print gives the account back. */
  lemma RenderRoundTrip(account: string)
    requires |account| == AccountLength && AllDigits(account)
    ensures ParseOcrAccount(Render(account)) == account
  {
    var lines := Render(account);
    forall k | 0 <= k < AccountLength
      ensures ParseOcrAccount(lines)[k] == account[k]
    {
      DigitIffGlyph(lines, k, account[k]);
    }
  }
}
