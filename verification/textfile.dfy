/** Cutting a whole OCR text into account bands (parseOcrTextFile).

The text is split on line feeds; the lines are taken in strides of four, the
first three of each stride forming a band and the fourth being a separator
that is skipped. A trailing stride with fewer than three lines is dropped.
 */
module TextFile {
  import opened Glyphs
  import opened Account

  const LineBreak: char := '\n'

  /** Number of line feeds in a text. */
  function CountBreaks(s: string): nat {
    if s == "" then 0 else (if s[0] == LineBreak then 1 else 0) + CountBreaks(s[1..])
  }

  /** `String.prototype.split('\n')`: the pieces between line feeds, so one
      more piece than there are line feeds, none of them holding a line feed.
      A carriage return is an ordinary character. */
  function Split(s: string): (lines: seq<string>)
    ensures |lines| == CountBreaks(s) + 1
    ensures forall i :: 0 <= i < |lines| ==> LineBreak !in lines[i]
  {
    if s == "" then [""]
    else
      var rest := Split(s[1..]);
      if s[0] == LineBreak then [""] + rest
      else [[s[0]] + rest[0]] + rest[1..]
  }

  /** `Array.prototype.join('\n')`: the lines with a line feed between each two. */
  function Join(lines: seq<string>): string {
    if |lines| == 0 then ""
    else if |lines| == 1 then lines[0]
    else lines[0] + [LineBreak] + Join(lines[1..])
  }

  /** Joining the pieces of a split restores the text. */
  lemma {:induction false} JoinSplit(s: string)
    ensures Join(Split(s)) == s
  {
    if s != "" {
      var rest := Split(s[1..]);
      JoinSplit(s[1..]);
      if s[0] == LineBreak {
        assert ([""] + rest)[1..] == rest;
      } else if |rest| > 1 {
        var first := [s[0]] + rest[0];
        assert ([first] + rest[1..])[1..] == rest[1..];
        assert Join(rest) == rest[0] + [LineBreak] + Join(rest[1..]);
        assert s == [s[0]] + s[1..];
      } else {
        assert s == [s[0]] + s[1..];
      }
    }
  }

  /** A text without line feeds is a single piece. */
  lemma {:induction false} SplitSingle(x: string)
    requires LineBreak !in x
    ensures Split(x) == [x]
  {
    if x != "" {
      assert LineBreak !in x[1..];
      SplitSingle(x[1..]);
      assert x == [x[0]] + x[1..];
    }
  }

  /** A line feed after a piece without line feeds ends that piece. */
  lemma {:induction false} SplitCons(x: string, t: string)
    requires LineBreak !in x
    ensures Split(x + [LineBreak] + t) == [x] + Split(t)
  {
    if x == "" {
      assert x + [LineBreak] + t == [LineBreak] + t;
      assert ([LineBreak] + t)[1..] == t;
    } else {
      var s := x + [LineBreak] + t;
      assert s[1..] == x[1..] + [LineBreak] + t;
      assert LineBreak !in x[1..];
      SplitCons(x[1..], t);
      assert x == [x[0]] + x[1..];
    }
  }

  /** Splitting the join of pieces without line feeds gives the pieces back. */
  lemma {:induction false} SplitJoin(lines: seq<string>)
    requires |lines| >= 1
    requires forall i :: 0 <= i < |lines| ==> LineBreak !in lines[i]
    ensures Split(Join(lines)) == lines
  {
    if |lines| == 1 {
      SplitSingle(lines[0]);
    } else {
      SplitJoin(lines[1..]);
      SplitCons(lines[0], Join(lines[1..]));
      assert lines == [lines[0]] + lines[1..];
    }
  }

  /** `Array.prototype.slice` for non-negative arguments: both bounds are
      clamped to the length, and an empty result when the start is not
      before the end. */
  function Slice<T>(s: seq<T>, start: nat, end: nat): (sub: seq<T>)
    ensures start <= end <= |s| ==> sub == s[start..end]
    ensures start <= |s| <= end ==> sub == s[start..]
    ensures |s| <= start ==> sub == []
    ensures |sub| <= |s|
    ensures end <= start ==> sub == []
  {
    var a := if start <= |s| then start else |s|;
    var b := if end <= |s| then end else |s|;
    if a < b then s[a..b] else []
  }

  /** The `for` loop of parseOcrTextFile from line `index` on, as the list of
      bands it hands to parseOcrAccount: the slice of three lines at index,
      index + 4, index + 8, ..., kept only when it really has three lines. */
  function BandsFrom(lines: seq<string>, index: nat): (bands: seq<seq<string>>)
    ensures forall j :: 0 <= j < |bands| ==> |bands[j]| == 3
    decreases |lines| - index
  {
    if index < |lines| then
      var band := Slice(lines, index, index + 3);
      var rest := BandsFrom(lines, index + 4);
      if |band| == 3 then [band] + rest else rest
    else
      []
  }

  /** Number of complete bands among n lines when strides start at `index`. */
  function BandCount(n: nat, index: nat): nat {
    if index + 3 <= n then (n - index + 1) / 4 else 0
  }

  /** The loop finds one band per complete stride. */
  lemma {:induction false} BandsFromCount(lines: seq<string>, index: nat)
    ensures |BandsFrom(lines, index)| == BandCount(|lines|, index)
    decreases |lines| - index
  {
    if index < |lines| {
      BandsFromCount(lines, index + 4);
    }
  }

  /** Band j of the loop started at `index` is lines index + 4j .. index + 4j + 2. */
  lemma {:induction false} BandsFromAt(lines: seq<string>, index: nat, j: nat)
    requires j < |BandsFrom(lines, index)|
    ensures index + 4 * j + 3 <= |lines|
    ensures BandsFrom(lines, index)[j] == lines[index + 4 * j..index + 4 * j + 3]
    decreases j
  {
    BandsFromCount(lines, index);
    assert index + 3 <= |lines|;
    assert Slice(lines, index, index + 3) == lines[index..index + 3];
    if j > 0 {
      BandsFromAt(lines, index + 4, j - 1);
      assert index + 4 * j == (index + 4) + 4 * (j - 1);
    }
  }

  /** Decodes every account band of a text, in order (parseOcrTextFile). With
      n lines after splitting, there are (n + 1) / 4 accounts, account j being
      decoded from lines 4j, 4j + 1 and 4j + 2. */
  function ParseOcrTextFile(text: string): (accounts: seq<string>)
    ensures |accounts| == (|Split(text)| + 1) / 4
    ensures forall j :: 0 <= j < |accounts| ==>
              4 * j + 3 <= |Split(text)| && accounts[j] == ParseOcrAccount(Split(text)[4 * j..4 * j + 3])
  {
    var lines := Split(text);
    var bands := BandsFrom(lines, 0);
    BandsFromCount(lines, 0);
    forall j | 0 <= j < |bands|
      ensures 4 * j + 3 <= |lines| && bands[j] == lines[4 * j..4 * j + 3]
    {
      BandsFromAt(lines, 0, j);
    }
    seq(|bands|, j requires 0 <= j < |bands| => ParseOcrAccount(bands[j]))
  }

  /** Counted in line feeds: a text with b line feeds holds (b + 2) / 4
      accounts, so a trailing stride of one or two lines yields none. */
  lemma AccountCount(text: string)
    ensures |ParseOcrTextFile(text)| == (CountBreaks(text) + 2) / 4
  {
  }

  /** The three lines at a stride start are not separators, so lists that
      agree on them give the same slice. */
  lemma SliceOfAgreeingLines(lines: seq<string>, lines': seq<string>, index: nat)
    requires |lines| == |lines'|
    requires forall i :: index <= i < index + 3 && i < |lines| ==> lines[i] == lines'[i]
    ensures Slice(lines, index, index + 3) == Slice(lines', index, index + 3)
  {
    var band, band' := Slice(lines, index, index + 3), Slice(lines', index, index + 3);
    assert |band| == |band'|;
    forall t | 0 <= t < |band|
      ensures band[t] == band'[t]
    {
      assert band[t] == lines[index + t];
    }
  }

  /** The loop never looks at a separator line: line lists that agree except
      on every fourth line yield the same bands. */
  lemma {:induction false} BandsIgnoreSeparators(lines: seq<string>, lines': seq<string>, index: nat)
    requires |lines| == |lines'| && index % 4 == 0
    requires forall i :: index <= i < |lines| && i % 4 != 3 ==> lines[i] == lines'[i]
    ensures BandsFrom(lines, index) == BandsFrom(lines', index)
    decreases |lines| - index
  {
    if index < |lines| {
      BandsIgnoreSeparators(lines, lines', index + 4);
      forall i | index <= i < index + 3 && i < |lines|
        ensures lines[i] == lines'[i]
      {
        assert i % 4 == i - index;
      }
      SliceOfAgreeingLines(lines, lines', index);
    }
  }

  /** The separator lines (every fourth line) are never inspected: texts whose
      lines agree except on separators decode to the same accounts. */
  lemma SeparatorsNeverRead(text: string, text': string)
    requires |Split(text)| == |Split(text')|
    requires forall i :: 0 <= i < |Split(text)| && i % 4 != 3 ==> Split(text)[i] == Split(text')[i]
    ensures ParseOcrTextFile(text) == ParseOcrTextFile(text')
  {
    BandsIgnoreSeparators(Split(text), Split(text'), 0);
  }

  /** The lines that print a list of all-digit accounts: each account's three
      glyph rows followed by an empty separator line. */
  function FormatLines(accounts: seq<string>): (lines: seq<string>)
    requires forall j :: 0 <= j < |accounts| ==> AllDigits(accounts[j])
    ensures |lines| == 4 * |accounts|
  {
    seq(4 * |accounts|, i requires 0 <= i < 4 * |accounts| =>
      if i % 4 == 3 then "" else Render(accounts[i / 4])[i % 4])
  }

  /** The text that prints a list of all-digit accounts. */
  function Format(accounts: seq<string>): string
    requires forall j :: 0 <= j < |accounts| ==> AllDigits(accounts[j])
  {
    Join(FormatLines(accounts))
  }

  /** Printed lines never hold a line feed. */
  lemma FormatLinesHaveNoBreaks(accounts: seq<string>)
    requires forall j :: 0 <= j < |accounts| ==> AllDigits(accounts[j])
    ensures forall i :: 0 <= i < |FormatLines(accounts)| ==> LineBreak !in FormatLines(accounts)[i]
  {
    var lines := FormatLines(accounts);
    forall i | 0 <= i < |lines|
      ensures LineBreak !in lines[i]
    {
      if i % 4 < 3 {
        var row := Render(accounts[i / 4])[i % 4];
        assert lines[i] == row;
        assert forall c :: 0 <= c < |row| ==> IsSymbol(row[c]);
      }
    }
  }

  /** The band of account j in the printed lines is the account's print. */
  lemma FormatLinesBand(accounts: seq<string>, j: nat)
    requires forall j :: 0 <= j < |accounts| ==> AllDigits(accounts[j])
    requires j < |accounts|
    ensures FormatLines(accounts)[4 * j..4 * j + 3] == Render(accounts[j])
  {
    var lines := FormatLines(accounts);
    var band := lines[4 * j..4 * j + 3];
    forall t | 0 <= t < 3
      ensures band[t] == Render(accounts[j])[t]
    {
      assert (4 * j + t) / 4 == j && (4 * j + t) % 4 == t;
      assert band[t] == lines[4 * j + t];
    }
  }

  /** Printing nine-digit accounts and decoding the text gives the same
      accounts back, in the same order. */
  lemma FormatRoundTrip(accounts: seq<string>)
    requires forall j :: 0 <= j < |accounts| ==> |accounts[j]| == AccountLength && AllDigits(accounts[j])
    ensures ParseOcrTextFile(Format(accounts)) == accounts
  {
    var lines := FormatLines(accounts);
    if accounts == [] {
      assert Split(Format(accounts)) == [""];
    } else {
      FormatLinesHaveNoBreaks(accounts);
      SplitJoin(lines);
      var a := ParseOcrTextFile(Format(accounts));
      forall j | 0 <= j < |accounts|
        ensures a[j] == accounts[j]
      {
        FormatLinesBand(accounts, j);
        RenderRoundTrip(accounts[j]);
      }
    }
  }
}
