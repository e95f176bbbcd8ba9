/** Labelling accounts (validateState) and the whole pure pipeline from OCR
    text to result lines.
 */
module State {
  import opened Glyphs
  import opened Account
  import opened TextFile
  import opened Checksum

  /** The three outcomes: checksum holds, checksum fails, some glyph illegible. */
  datatype Status = OK | ERR | ILL

  /** A value that may be missing. */
  datatype Option<T> = None | Some(value: T)

  /** The label written after an account. */
  function Code(status: Status): string {
    match status
    case OK => "OK"
    case ERR => "ERR"
    case ILL => "ILL"
  }

  /** The status an account deserves, in order of precedence: any illegible
      character makes it ILL; otherwise it is OK when it is all digits and
      its weighted sum is a multiple of 11, and ERR when not. */
  function Classify(account: string): Status {
    if Illegible in account then ILL
    else if AllDigits(account) && WeightedSum(account) % Modulus == 0 then OK
    else ERR
  }

  /** Labels an account (validateState): the account, one space, and the code
      of its status. */
  function ValidateState(account: string): (state: string)
    ensures state == account + " " + Code(Classify(account))
  {
    if Illegible in account then
      account + " ILL"
    else if ValidateCheckSum(account) then
      account + " OK"
    else
      account + " ERR"
  }

  /** Reading a labelled line back, given the length of the account it
      starts with: a space must follow the account, and the rest must be one
      of the three codes. */
  function StatusOfLine(line: string, accountLength: nat): (status: Option<Status>)
  {
    if |line| <= accountLength || line[accountLength] != ' ' then None
    else
      var code := line[accountLength + 1..];
      if code == "OK" then Some(OK)
      else if code == "ERR" then Some(ERR)
      else if code == "ILL" then Some(ILL)
      else None
  }

  /** The line validateState writes starts with the unchanged account and a
      single space, and the rest names exactly the account's status. */
  lemma ValidateStateReadsBack(account: string)
    ensures ValidateState(account)[..|account|] == account
    ensures StatusOfLine(ValidateState(account), |account|) == Some(Classify(account))
  {
    var line := ValidateState(account);
    assert line[|account| + 1..] == Code(Classify(account));
  }

  /** Illegibility takes precedence: an account with a '?' anywhere is ILL,
      whatever its digits are. */
  lemma IllegibleFirst(account: string, i: nat)
    requires i < |account| && account[i] == Illegible
    ensures ValidateState(account) == account + " ILL"
  {
  }

  /** The pure part of the program: decode every account of the text and
      label each, in order. */
  function ProcessAll(text: string): (lines: seq<string>)
    ensures |lines| == |ParseOcrTextFile(text)|
    ensures forall j :: 0 <= j < |lines| ==>
              lines[j] == ParseOcrTextFile(text)[j] + " " + Code(Classify(ParseOcrTextFile(text)[j]))
  {
    var accounts := ParseOcrTextFile(text);
    seq(|accounts|, j requires 0 <= j < |accounts| => ValidateState(accounts[j]))
  }

  /** Every result line is nine account characters, a space and the code:
      12 characters for OK, 13 for ERR and ILL. */
  lemma ResultLineLength(text: string, j: nat)
    requires j < |ProcessAll(text)|
    ensures |ProcessAll(text)[j]| == (if Classify(ParseOcrTextFile(text)[j]) == OK then 12 else 13)
  {
    var a := ParseOcrTextFile(text)[j];
    assert |a| == AccountLength;
    match Classify(a)
    case OK =>
    case ERR =>
    case ILL =>
  }

  /** A text printed from nine-digit accounts comes back as one labelled
      line per account, in order. */
  lemma ProcessFormatted(accounts: seq<string>)
    requires forall j :: 0 <= j < |accounts| ==> |accounts[j]| == AccountLength && AllDigits(accounts[j])
    ensures |ProcessAll(Format(accounts))| == |accounts|
    ensures forall j :: 0 <= j < |accounts| ==>
              ProcessAll(Format(accounts))[j] == accounts[j] + " " + Code(Classify(accounts[j]))
  {
    FormatRoundTrip(accounts);
  }

  /** The all-zero account is labelled OK (its weighted sum is 0). */
  lemma AllZerosLine(a: string)
    requires a == "000000000"
    ensures ValidateState(a) == "000000000 OK"
  {
    assert forall i :: 0 <= i < 9 ==> a[i] == '0';
    WeightedSumOfNine(a);
  }

  /** An account with illegible glyphs is labelled ILL without a checksum. */
  lemma IllegibleLine(a: string)
    requires a == "86110??36"
    ensures ValidateState(a) == "86110??36 ILL"
  {
    assert a[5] == Illegible;
  }
}
