/** OCC option symbols over ASCII text: a root of one to six characters, a yymmdd expiry, C or P,
    and the strike in thousandths on eight digits; padded to 21 characters or compact. */
module OccSymbols {
  import opened Options

  datatype Date = Date(year: int, month: int, day: int)

  datatype Kind = Equity | Contract | Future

  type Day = d: Date | ValidDate(d) witness Date(2000, 1, 1)

  /** `Contract` is an option. */
  datatype Instrument = Instrument(
    id: string, kind: Kind, underlying: Option<string>, expiry: Option<Day>, strike: Option<real>, right: Option<char>)

  // ----- characters -----

  predicate Space(c: char) {
    c == ' ' || '\t' <= c <= '\r' || '\U{1c}' <= c <= '\U{1f}'
  }

  predicate Digit(c: char) {
    '0' <= c <= '9'
  }

  predicate RootChar(c: char) {
    'A' <= c <= 'Z' || Digit(c) || c == '.'
  }

  function UpperChar(c: char): char {
    if 'a' <= c <= 'z' then (c as int - 32) as char else c
  }

  function Upper(s: string): (r: string)
    ensures |r| == |s| && forall i | 0 <= i < |s| :: r[i] == UpperChar(s[i])
  {
    seq(|s|, i requires 0 <= i < |s| => UpperChar(s[i]))
  }

  function RStrip(s: string): (r: string)
    ensures r <= s && (r != [] ==> !Space(r[|r| - 1]))
    ensures s != [] && !Space(s[|s| - 1]) ==> r == s
  {
    if s != [] && Space(s[|s| - 1]) then RStrip(s[..|s| - 1]) else s
  }

  function LStrip(s: string): (r: string)
    ensures |r| <= |s| && r == s[|s| - |r|..] && (r != [] ==> !Space(r[0]))
    ensures s != [] && !Space(s[0]) ==> r == s
  {
    if s != [] && Space(s[0]) then LStrip(s[1..]) else s
  }

  function Strip(s: string): (r: string) {
    RStrip(LStrip(s))
  }

  /** Nothing to strip. */
  predicate Trim(s: string) {
    s == [] || (!Space(s[0]) && !Space(s[|s| - 1]))
  }

  lemma StripTrims(s: string)
    ensures Trim(Strip(s)) && (Trim(s) ==> Strip(s) == s)
  {
    var left := LStrip(s);
    var r := RStrip(left);
    assert r != [] ==> r[0] == left[0];
  }

  // ----- numbers -----

  function DigitOf(n: nat): char
    requires n < 10
  {
    ('0' as int + n) as char
  }

  function ValueOf(c: char): nat
    requires Digit(c)
  {
    c as int - '0' as int
  }

  function Power(width: nat): nat {
    if width == 0 then 1 else 10 * Power(width - 1)
  }

  predicate Digits(s: string) {
    forall i | 0 <= i < |s| :: Digit(s[i])
  }

  /** A number on exactly `width` digits. */
  function Print(n: nat, width: nat): (s: string)
    ensures |s| == width && Digits(s)
  {
    if width == 0 then "" else Print(n / 10, width - 1) + [DigitOf(n % 10)]
  }

  function Read(s: string): nat
    requires Digits(s)
  {
    if s == [] then 0 else 10 * Read(s[..|s| - 1]) + ValueOf(s[|s| - 1])
  }

  lemma {:induction false} ReadPrint(n: nat, width: nat)
    requires n < Power(width)
    ensures Read(Print(n, width)) == n
  {
    if width > 0 {
      ReadPrint(n / 10, width - 1);
      var s := Print(n, width);
      assert s[..|s| - 1] == Print(n / 10, width - 1);
    }
  }

  lemma {:induction false} PrintRead(s: string)
    requires Digits(s)
    ensures Read(s) < Power(|s|) && Print(Read(s), |s|) == s
  {
    if s != [] {
      PrintRead(s[..|s| - 1]);
      assert s == s[..|s| - 1] + [s[|s| - 1]];
    }
  }

  // ----- dates -----

  predicate Leap(year: int) {
    year % 4 == 0 && (year % 100 != 0 || year % 400 == 0)
  }

  function DaysIn(year: int, month: int): int {
    if month == 2 then (if Leap(year) then 29 else 28)
    else if month == 4 || month == 6 || month == 9 || month == 11 then 30 else 31
  }

  predicate ValidDate(d: Date) {
    1 <= d.year <= 9999 && 1 <= d.month <= 12 && 1 <= d.day <= DaysIn(d.year, d.month)
  }

  /** The year two digits stand for. */
  function Century(yy: int): int {
    if yy >= 69 then 1900 + yy else 2000 + yy
  }

  predicate InWindow(d: Date) {
    1969 <= d.year <= 2068
  }

  function PrintDate(d: Date): (s: string)
    requires ValidDate(d)
    ensures |s| == 6 && Digits(s)
  {
    Print(d.year % 100, 2) + Print(d.month, 2) + Print(d.day, 2)
  }

  function ReadDate(s: string): Result<Date>
    requires |s| == 6 && Digits(s)
  {
    var d := Date(Century(Read(s[..2])), Read(s[2..4]), Read(s[4..]));
    if ValidDate(d) then Ok(d) else Err
  }

  lemma WindowLeap(year: int)
    requires 1 <= year
    ensures Leap(year) ==> Leap(Century(year % 100))
    ensures 1969 <= year <= 2068 <==> Century(year % 100) == year
  {
  }

  /** A printed date reads back with its month and day, in the two-digit window. */
  lemma ReadPrintDate(d: Date)
    requires ValidDate(d)
    ensures ReadDate(PrintDate(d)) == Ok(d.(year := Century(d.year % 100)))
    ensures Century(d.year % 100) == d.year <==> InWindow(d)
  {
    var s := PrintDate(d);
    assert Power(2) == 100;
    ReadPrint(d.year % 100, 2);
    ReadPrint(d.month, 2);
    ReadPrint(d.day, 2);
    assert s[..2] == Print(d.year % 100, 2) && s[2..4] == Print(d.month, 2) && s[4..] == Print(d.day, 2);
    WindowLeap(d.year);
  }

  lemma PrintReadDate(s: string)
    requires |s| == 6 && Digits(s) && ReadDate(s).Ok?
    ensures PrintDate(ReadDate(s).value) == s && InWindow(ReadDate(s).value)
  {
    hide Print, Read;
    TwoDigits(s[..2]);
    TwoDigits(s[2..4]);
    TwoDigits(s[4..]);
    CenturyWindow(Read(s[..2]));
    assert s == s[..2] + s[2..4] + s[4..];
  }

  lemma TwoDigits(s: string)
    requires |s| == 2 && Digits(s)
    ensures Read(s) < 100 && Print(Read(s), 2) == s
  {
    PrintRead(s);
    assert Power(2) == 100;
  }

  lemma CenturyWindow(yy: nat)
    requires yy < 100
    ensures Century(yy) % 100 == yy && 1969 <= Century(yy) <= 2068
  {
  }

  // ----- symbols -----

  /** The compact form: root, expiry, right, strike. */
  predicate Occ(s: string) {
    && 16 <= |s| <= 21
    && (forall i | 0 <= i < |s| - 15 :: RootChar(s[i]))
    && Digits(s[|s| - 15..|s| - 9]) && (s[|s| - 9] == 'C' || s[|s| - 9] == 'P') && Digits(s[|s| - 8..])
  }

  /** Drop the padding of a 21-character form. */
  function Compact(s: string): string {
    if |s| == 21 then RStrip(s[..6]) + s[6..] else s
  }

  function Normalise(id: string): Result<string> {
    if id == "" then Err else
    var candidate := Strip(id);
    var compact := Upper(Compact(candidate));
    Ok(if Occ(compact) then compact else candidate)
  }

  function Thousandths(s: string): real
    requires Digits(s)
  {
    Read(s) as real / 1000.0
  }

  function ParseOcc(symbol: string): Result<Instrument> {
    var id := Normalise(symbol);
    if id.Err? then Err else Fields(id.value)
  }

  /** The fields of a compact symbol. */
  function Fields(s: string): Result<Instrument> {
    if !Occ(s) then Err else
    var expiry := ReadDate(s[|s| - 15..|s| - 9]);
    if expiry.Err? then Err else
    Ok(Instrument(s, Contract, Some(s[..|s| - 15]), Some(expiry.value), Some(Thousandths(s[|s| - 8..])), Some(s[|s| - 9])))
  }

  function Spaces(n: nat): (s: string)
    ensures |s| == n && forall i | 0 <= i < n :: s[i] == ' '
  {
    seq(n, i => ' ')
  }

  predicate Root(s: string) {
    1 <= |s| <= 6 && forall i | 0 <= i < |s| :: RootChar(s[i])
  }

  function Pad(root: string): string
    requires |root| <= 6
  {
    root + Spaces(6 - |root|)
  }

  /** A strike the eight digits can hold. */
  predicate Printable(strike: real) {
    var scaled := strike * 1000.0;
    scaled.Floor as real == scaled && 0 <= scaled.Floor <= 99_999_999
  }

  predicate Complete(i: Instrument) {
    && i.kind.Contract? && i.underlying.Some? && i.expiry.Some? && i.strike.Some?
    && (i.right == Some('C') || i.right == Some('P'))
  }

  function Suffix(expiry: Day, right: char, strike: real): (s: string)
    requires Printable(strike)
    ensures |s| == 15
  {
    PrintDate(expiry) + [right] + Print((strike * 1000.0).Floor, 8)
  }

  function FormatOcc(i: Instrument): Result<string> {
    if !Complete(i) then Err else
    var root := Upper(i.underlying.value);
    if !Root(root) || !Printable(i.strike.value) then Err else
    Ok(Pad(root) + Suffix(i.expiry.value, i.right.value, i.strike.value))
  }

  // ----- facts about compact symbols -----

  lemma UpperOcc(s: string)
    requires Occ(s)
    ensures Upper(s) == s
  {
    forall i | 0 <= i < |s|
      ensures UpperChar(s[i]) == s[i]
    {
      OccChar(s, i);
    }
  }

  lemma OccChar(s: string, i: nat)
    requires Occ(s) && i < |s|
    ensures RootChar(s[i])
  {
    var n := |s|;
    if n - 15 <= i < n - 9 {
      assert s[n - 15..n - 9][i - (n - 15)] == s[i];
    } else if i >= n - 8 {
      assert s[n - 8..][i - (n - 8)] == s[i];
    }
  }

  /** A compact symbol and its padded form both normalise to the compact one. */
  lemma NormaliseCompact(s: string)
    requires Occ(s)
    ensures Normalise(s) == Ok(s)
  {
    hide Occ, Strip, Compact, Upper;
    OccTrim(s);
    StripTrims(s);
    UpperOcc(s);
    CompactOcc(s);
  }

  lemma CompactOcc(s: string)
    requires Occ(s)
    ensures Compact(s) == s && s != ""
  {
    OccTrim(s);
    if |s| == 21 {
      assert s[..6][5] == s[5];
      assert s[..6] + s[6..] == s;
    }
  }

  lemma OccTrim(s: string)
    requires Occ(s)
    ensures Trim(s) && (forall i | 0 <= i < |s| :: !Space(s[i]))
  {
    forall i | 0 <= i < |s|
      ensures !Space(s[i])
    {
      OccChar(s, i);
    }
  }

  function Padded(s: string): (r: string)
    requires Occ(s)
    ensures |r| == 21
  {
    Pad(s[..|s| - 15]) + s[|s| - 15..]
  }

  lemma {:induction false} RStripSpaces(s: string, n: nat)
    requires s != [] && !Space(s[|s| - 1])
    ensures RStrip(s + Spaces(n)) == s
  {
    if n == 0 {
      assert s + Spaces(0) == s;
    } else {
      var t := s + Spaces(n);
      assert t[|t| - 1] == ' ';
      assert t[..|t| - 1] == s + Spaces(n - 1);
      RStripSpaces(s, n - 1);
    }
  }

  lemma NormalisePadded(s: string)
    requires Occ(s)
    ensures Normalise(Padded(s)) == Ok(s)
  {
    hide Occ, Strip, Compact, Padded, Upper;
    PaddedStrips(s);
    PaddedCompacts(s);
    UpperOcc(s);
  }

  lemma PaddedStrips(s: string)
    requires Occ(s)
    ensures Strip(Padded(s)) == Padded(s) && Padded(s) != ""
  {
    hide Strip;
    OccTrim(s);
    var p := Padded(s);
    assert p[0] == s[0] && p[20] == s[|s| - 1];
    StripTrims(p);
  }

  lemma PaddedCompacts(s: string)
    requires Occ(s)
    ensures Compact(Padded(s)) == s
  {
    hide RStrip, Occ, Digits;
    OccTrim(s);
    OccLength(s);
    var p, root, rest := Padded(s), s[..|s| - 15], s[|s| - 15..];
    assert p[..6] == Pad(root) && p[6..] == rest;
    assert root[|root| - 1] == s[|s| - 16];
    RStripSpaces(root, 6 - |root|);
    assert root + rest == s;
  }

  lemma OccLength(s: string)
    requires Occ(s)
    ensures 16 <= |s| <= 21
  {
  }

  /** Normalising is idempotent exactly when something is left after stripping: blank text
      normalises to the empty string, which is then refused. */
  lemma NormaliseIdempotentIff(id: string)
    requires Normalise(id).Ok?
    ensures Normalise(Normalise(id).value) == Normalise(id) <==> Strip(id) != ""
  {
    hide Occ, Strip, Compact, Upper;
    var candidate := Strip(id);
    StripTrims(id);
    StripTrims(candidate);
    var compact := Upper(Compact(candidate));
    if Occ(compact) {
      NormaliseCompact(compact);
      BlankIsNotOcc(candidate);
    }
  }

  lemma BlankIsNotOcc(candidate: string)
    ensures Occ(Upper(Compact(candidate))) ==> candidate != ""
  {
  }

  lemma BlankIsNotIdempotent()
    ensures Normalise(" ") == Ok("") && Normalise("").Err?
  {
    assert LStrip(" ") == LStrip("");
    assert Strip(" ") == "";
  }

  // ----- round trips -----

  lemma ThousandthsPrintable(s: string)
    requires Digits(s) && |s| == 8
    ensures Printable(Thousandths(s)) && (Thousandths(s) * 1000.0).Floor == Read(s)
  {
    hide Print, Read, Power;
    PrintRead(s);
    EightDigits();
    WholeThousandths(Read(s));
  }

  lemma EightDigits()
    ensures Power(8) == 100_000_000
  {
  }

  lemma WholeThousandths(n: nat)
    requires n <= 99_999_999
    ensures Printable(n as real / 1000.0) && (n as real / 1000.0 * 1000.0).Floor == n
  {
    var scaled := n as real / 1000.0 * 1000.0;
    assert scaled == n as real;
    assert scaled.Floor == n;
  }

  /** Every valid symbol, padded or compact: formatting what it parses to gives its padded form,
      and both forms parse to the same instrument. */
  lemma ParseThenFormat(symbol: string)
    requires ParseOcc(symbol).Ok?
    ensures var i := ParseOcc(symbol).value;
      && Occ(i.id) && FormatOcc(i) == Ok(Padded(i.id))
      && ParseOcc(Padded(i.id)) == Ok(i) && ParseOcc(i.id) == Ok(i)
  {
    hide Normalise, FormatOcc, Fields, Padded;
    var s := Normalise(symbol).value;
    FieldsAre(s);
    NormaliseCompact(s);
    NormalisePadded(s);
  }

  lemma FieldsAre(s: string)
    requires Fields(s).Ok?
    ensures Occ(s) && Fields(s).value.id == s && FormatOcc(Fields(s).value) == Ok(Padded(s))
  {
    hide FormatOcc, Padded, Occ;
    FieldsOcc(s);
    ParsedFormats(s);
  }

  lemma FieldsOcc(s: string)
    requires Fields(s).Ok?
    ensures Occ(s) && |s| >= 16 && Digits(s[|s| - 15..|s| - 9]) && ReadDate(s[|s| - 15..|s| - 9]).Ok?
  {
  }

  lemma {:induction false} ParsedFormats(s: string)
    requires Occ(s) && ReadDate(s[|s| - 15..|s| - 9]).Ok?
    ensures var root, day, strike := s[..|s| - 15], s[|s| - 15..|s| - 9], s[|s| - 8..];
      FormatOcc(Instrument(s, Contract, Some(root), Some(ReadDate(day).value), Some(Thousandths(strike)), Some(s[|s| - 9]))) == Ok(Padded(s))
  {
    var root, day, strike := s[..|s| - 15], s[|s| - 15..|s| - 9], s[|s| - 8..];
    hide Print, Read, PrintDate, ReadDate, Thousandths, Upper, Printable;
    PrintReadDate(day);
    PrintRead(strike);
    ThousandthsPrintable(strike);
    UpperRoot(root);
    assert s[|s| - 15..] == day + [s[|s| - 9]] + strike;
  }

  lemma UpperRoot(root: string)
    requires forall i | 0 <= i < |root| :: RootChar(root[i])
    ensures Upper(root) == root
  {
  }

  /** What a formatted instrument reads back as. */
  function Reading(i: Instrument): Instrument
    requires FormatOcc(i).Ok?
  {
    var root := Upper(i.underlying.value);
    var d := i.expiry.value;
    WindowDay(d);
    Instrument(root + Suffix(d, i.right.value, i.strike.value), Contract, Some(root),
               Some(d.(year := Century(d.year % 100))), i.strike, i.right)
  }

  lemma WindowDay(d: Day)
    ensures ValidDate(d.(year := Century(d.year % 100)))
  {
    WindowLeap(d.year);
  }

  /** Every instrument that formats reads back with its root, month, day, strike and right; the
      whole expiry survives exactly when its year lies in the two-digit window. */
  lemma FormatThenParse(i: Instrument)
    requires FormatOcc(i).Ok?
    ensures |FormatOcc(i).value| == 21 && ParseOcc(FormatOcc(i).value) == Ok(Reading(i))
    ensures Reading(i).expiry == i.expiry <==> InWindow(i.expiry.value)
  {
    var root, d, right, strike := Upper(i.underlying.value), i.expiry.value, i.right.value, i.strike.value;
    var s := root + Suffix(d, right, strike);
    SuffixParts(root, d, right, strike);
    PaddedParts(root, Suffix(d, right, strike));
    NormalisePadded(s);
    FieldsOfSuffix(root, d, right, strike);
    ReadPrintDate(d);
  }

  lemma PaddedParts(root: string, suffix: string)
    requires Root(root) && |suffix| == 15 && Occ(root + suffix)
    ensures Padded(root + suffix) == Pad(root) + suffix
  {
    var s := root + suffix;
    assert s[..|s| - 15] == root && s[|s| - 15..] == suffix;
  }

  lemma FieldsOfSuffix(root: string, d: Day, right: char, strike: real)
    requires Root(root) && Printable(strike) && (right == 'C' || right == 'P')
    ensures ValidDate(d.(year := Century(d.year % 100)))
    ensures var s := root + Suffix(d, right, strike);
      Fields(s) == Ok(Instrument(s, Contract, Some(root), Some(d.(year := Century(d.year % 100))), Some(strike), Some(right)))
  {
    hide Occ, PrintDate, ReadDate;
    SuffixParts(root, d, right, strike);
    ReadPrintDate(d);
    ReadStrike(strike);
    WindowDay(d);
  }

  lemma SuffixParts(root: string, d: Day, right: char, strike: real)
    requires Root(root) && Printable(strike) && (right == 'C' || right == 'P')
    ensures var s := root + Suffix(d, right, strike);
      && Occ(s) && s[..|s| - 15] == root && s[|s| - 15..|s| - 9] == PrintDate(d) && s[|s| - 9] == right
      && s[|s| - 8..] == Print((strike * 1000.0).Floor, 8)
  {
    var s := root + Suffix(d, right, strike);
    assert s[|s| - 15..|s| - 9] == PrintDate(d);
    assert s[|s| - 8..] == Print((strike * 1000.0).Floor, 8);
    assert s[..|s| - 15] == root;
    assert forall k | 0 <= k < |root| :: s[k] == root[k];
  }

  lemma ReadStrike(strike: real)
    requires Printable(strike)
    ensures Thousandths(Print((strike * 1000.0).Floor, 8)) == strike
  {
    EightDigits();
    ReadPrint((strike * 1000.0).Floor, 8);
  }

  /** The strike is `n` thousandths, on at most eight digits. */
  predicate InThousandths(strike: real, n: nat) {
    n <= 99_999_999 && strike * 1000.0 == n as real
  }

  /** Exactly the options with a root of one to six letters, digits and dots, an expiry, a right and
      a strike of whole thousandths on at most eight digits format. */
  lemma FormatsIff(i: Instrument)
    ensures FormatOcc(i).Ok? <==>
      && i.kind.Contract? && i.expiry.Some? && (i.right == Some('C') || i.right == Some('P'))
      && i.underlying.Some? && 1 <= |i.underlying.value| <= 6
      && (forall k | 0 <= k < |i.underlying.value| ::
            var c := i.underlying.value[k]; 'A' <= c <= 'Z' || 'a' <= c <= 'z' || '0' <= c <= '9' || c == '.')
      && i.strike.Some? && exists n: nat :: InThousandths(i.strike.value, n)
  {
    if i.underlying.Some? {
      UpperRootIff(i.underlying.value);
    }
    if i.strike.Some? {
      PrintableIff(i.strike.value);
    }
    hide Upper, Printable, Suffix, Pad, Root;
  }

  lemma UpperRootIff(name: string)
    ensures Root(Upper(name)) <==> 1 <= |name| <= 6 && forall k | 0 <= k < |name| ::
      var c := name[k]; 'A' <= c <= 'Z' || 'a' <= c <= 'z' || '0' <= c <= '9' || c == '.'
  {
    var r := Upper(name);
    hide Upper;
    forall k | 0 <= k < |name|
      ensures RootChar(r[k]) <==> var c := name[k]; 'A' <= c <= 'Z' || 'a' <= c <= 'z' || '0' <= c <= '9' || c == '.'
    {
      UpperCharIff(name[k]);
    }
  }

  lemma UpperCharIff(c: char)
    ensures RootChar(UpperChar(c)) <==> 'A' <= c <= 'Z' || 'a' <= c <= 'z' || '0' <= c <= '9' || c == '.'
  {
  }

  lemma PrintableIff(strike: real)
    ensures Printable(strike) <==> exists n: nat :: InThousandths(strike, n)
  {
    var scaled := strike * 1000.0;
    if Printable(strike) {
      var n: nat := scaled.Floor;
      assert InThousandths(strike, n);
    }
  }

  /** A text parses if and only if it normalises to the compact form of an instrument that formats
      and whose year is in the window; it then parses to an instrument that is its own reading. */
  lemma ParsesIff(symbol: string)
    ensures ParseOcc(symbol).Ok? <==>
      exists i: Instrument :: FormatOcc(i).Ok? && InWindow(i.expiry.value) && Normalise(symbol) == Ok(Reading(i).id)
    ensures ParseOcc(symbol).Ok? ==>
      var i := ParseOcc(symbol).value; FormatOcc(i).Ok? && Reading(i) == i && Normalise(symbol) == Ok(i.id)
  {
    hide Normalise, FormatOcc, Fields, Padded, Reading, InWindow;
    if ParseOcc(symbol).Ok? {
      var i := ParseOcc(symbol).value;
      ParseThenFormat(symbol);
      FormatThenParse(i);
      FieldsAre(Normalise(symbol).value);
    }
    forall i: Instrument | FormatOcc(i).Ok? && Normalise(symbol) == Ok(Reading(i).id)
      ensures ParseOcc(symbol).Ok?
    {
      ReadingParses(i);
    }
  }

  lemma ReadingParses(i: Instrument)
    requires FormatOcc(i).Ok?
    ensures Fields(Reading(i).id) == Ok(Reading(i))
  {
    var root, d, right, strike := Upper(i.underlying.value), i.expiry.value, i.right.value, i.strike.value;
    FieldsOfSuffix(root, d, right, strike);
  }
}
