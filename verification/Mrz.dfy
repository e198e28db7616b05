/**
 The machine-readable zone a person types in: check digits, and the payload that
 carries the three padded fields.
 */
module Mrz {
  import opened Wrappers

  predicate IsDigit(c: char) { '0' <= c <= '9' }
  predicate IsUpper(c: char) { 'A' <= c <= 'Z' }
  predicate IsLower(c: char) { 'a' <= c <= 'z' }

  function UpperChar(c: char): char {
    if IsLower(c) then 'A' + (c - 'a') else c
  }

  function Upper(s: string): (u: string)
    ensures |u| == |s| && forall i :: 0 <= i < |s| ==> u[i] == UpperChar(s[i])
  {
    seq(|s|, i requires 0 <= i < |s| => UpperChar(s[i]))
  }

  predicate InMrz(c: char) {
    IsDigit(c) || c == '<' || IsUpper(c) || IsLower(c)
  }

  predicate AllInMrz(s: string) {
    forall i :: 0 <= i < |s| ==> InMrz(s[i])
  }

  // charValue of a character of the MRZ alphabet.
  function ValueOf(c: char): nat
    requires InMrz(c)
  {
    if IsDigit(c) then (c - '0') as nat
    else if c == '<' then 0
    else (UpperChar(c) - 'A') as nat + 10
  }

  // A value at position i: the weights are 7, 3, 1, and again.
  function Weighted(v: int, i: nat): int {
    if i % 3 == 0 then 7 * v else if i % 3 == 1 then 3 * v else v
  }

  function Sum(s: string): nat
    requires AllInMrz(s)
  {
    if s == [] then 0 else Sum(s[..|s| - 1]) + Weighted(ValueOf(s[|s| - 1]), |s| - 1)
  }

  lemma SumOneMore(s: string, c: char)
    requires AllInMrz(s) && InMrz(c)
    ensures AllInMrz(s + [c]) && Sum(s + [c]) == Sum(s) + Weighted(ValueOf(c), |s|)
  {
    assert (s + [c])[..|s|] == s;
  }

  function DigitChar(n: nat): char
    requires n < 10
  {
    '0' + n as char
  }

  function CheckDigit(s: string): Option<char> {
    if AllInMrz(s) then Some(DigitChar(Sum(s) % 10)) else None
  }

  // ICAO 9303's table: a digit is its number, the filler nothing, A to Z are 10
  // to 35, and so are a to z.
  predicate Worth(c: char, v: nat) {
    || ('0' <= c <= '9' && v == (c - '0') as nat)
    || (c == '<' && v == 0)
    || ('A' <= c <= 'Z' && v == 10 + (c - 'A') as nat)
    || ('a' <= c <= 'z' && v == 10 + (c - 'a') as nat)
  }

  // The products of a field's characters with 7, 3, 1, and again.
  predicate Weighed(s: string, products: seq<nat>) {
    |products| == |s| &&
    forall i :: 0 <= i < |s| ==> IsProduct(s[i], i, products[i])
  }

  predicate IsProduct(c: char, i: nat, product: nat) {
    match i % 3
    case 0 => product % 7 == 0 && Worth(c, product / 7)
    case 1 => product % 3 == 0 && Worth(c, product / 3)
    case _ => Worth(c, product)
  }

  function Total(numbers: seq<nat>): nat {
    if numbers == [] then 0 else Total(numbers[..|numbers| - 1]) + numbers[|numbers| - 1]
  }

  lemma {:induction false} WeighedIsSum(s: string, products: seq<nat>)
    requires Weighed(s, products)
    ensures AllInMrz(s) && Sum(s) == Total(products)
  {
    if s != [] {
      var n := |s| - 1;
      assert IsProduct(s[n], n, products[n]);
      WeighedIsSum(s[..n], products[..n]);
      assert s == s[..n] + [s[n]];
      SumOneMore(s[..n], s[n]);
    }
  }

  // Only i is not a filler.
  predicate LoneAt(s: string, i: nat) {
    i < |s| && forall j :: 0 <= j < |s| && j != i ==> s[j] == '<'
  }

  lemma LoneSum(s: string, i: nat, v: nat)
    requires LoneAt(s, i) && Worth(s[i], v)
    ensures AllInMrz(s) && Sum(s) == Weighted(v, i)
  {
    SubstitutionMovesTheSum(s, i, '<');
    FillAddsNothing([], |s|);
    assert s[i := '<'] == [] + Fill(|s|);
  }

  lemma CheckDigitFacts(s: string)
    ensures forall products: seq<nat> | Weighed(s, products) ::
              CheckDigit(s) == Some('0' + (Total(products) % 10) as char)
    ensures forall i: nat, v: nat | LoneAt(s, i) && Worth(s[i], v) ::
              CheckDigit(s) ==
              Some('0' + ((if i % 3 == 0 then 7 * v else if i % 3 == 1 then 3 * v else v) % 10) as char)
  {
    forall products: seq<nat> | Weighed(s, products)
      ensures CheckDigit(s) == Some('0' + (Total(products) % 10) as char)
    {
      WeighedIsSum(s, products);
    }
    forall i: nat, v: nat | LoneAt(s, i) && Worth(s[i], v)
      ensures CheckDigit(s) ==
              Some('0' + ((if i % 3 == 0 then 7 * v else if i % 3 == 1 then 3 * v else v) % 10) as char)
    {
      LoneSum(s, i, v);
    }
  }

  // computeCheckDigit
  method ComputeCheckDigit(s: string) returns (digit: Option<char>)
    ensures digit == CheckDigit(s)
    ensures digit == None <==> !(forall i | 0 <= i < |s| ::
              '0' <= s[i] <= '9' || s[i] == '<' || 'A' <= s[i] <= 'Z' || 'a' <= s[i] <= 'z')
    ensures forall products: seq<nat> | Weighed(s, products) :: digit == Some('0' + (Total(products) % 10) as char)
    ensures forall i: nat, v: nat | LoneAt(s, i) && Worth(s[i], v) ::
              digit == Some('0' + ((if i % 3 == 0 then 7 * v else if i % 3 == 1 then 3 * v else v) % 10) as char)
  {
    CheckDigitFacts(s);
    var weights := [7, 3, 1];
    var sum := 0;
    for i := 0 to |s|
      invariant AllInMrz(s[..i]) && sum == Sum(s[..i])
    {
      if !InMrz(s[i]) {
        return None;
      }
      assert s[..i + 1] == s[..i] + [s[i]];
      SumOneMore(s[..i], s[i]);
      sum := sum + weights[i % 3] * ValueOf(s[i]);
    }
    assert s[..|s|] == s;
    digit := Some(DigitChar(sum % 10));
  }

  // checkDigitOk
  predicate CheckDigitOk(s: string, c: char) {
    IsDigit(c) && CheckDigit(s) == Some(c)
  }

  function Fill(n: nat): (s: string)
    ensures |s| == n && forall i :: 0 <= i < n ==> s[i] == '<'
  {
    seq(n, i => '<')
  }

  // -- What the check digit promises --

  lemma {:induction false} FillAddsNothing(s: string, n: nat)
    requires AllInMrz(s)
    ensures AllInMrz(s + Fill(n)) && Sum(s + Fill(n)) == Sum(s)
  {
    if n == 0 {
      assert s + Fill(0) == s;
    } else {
      FillAddsNothing(s, n - 1);
      assert s + Fill(n) == s + Fill(n - 1) + ['<'];
      SumOneMore(s + Fill(n - 1), '<');
    }
  }

  /** A field verifies against the digit computed for it and no other ... */
  lemma ComputedDigitVerifies(s: string, c: char)
    requires AllInMrz(s)
    ensures CheckDigitOk(s, c) <==> c == DigitChar(Sum(s) % 10)
  {
    assert IsDigit(DigitChar(Sum(s) % 10));
  }

  /** ... and padding it changes nothing. */
  lemma PaddingKeepsTheDigit(s: string, n: nat, c: char)
    ensures CheckDigitOk(s + Fill(n), c) <==> CheckDigitOk(s, c)
  {
    if AllInMrz(s) {
      FillAddsNothing(s, n);
    } else {
      var i :| 0 <= i < |s| && !InMrz(s[i]);
      assert (s + Fill(n))[i] == s[i];
    }
  }

  // One character changed moves the sum by its change of value, weighted.
  lemma {:induction false} SubstitutionMovesTheSum(s: string, i: nat, c: char)
    requires i < |s| && AllInMrz(s) && InMrz(c)
    ensures AllInMrz(s[i := c])
    ensures Sum(s[i := c]) - Sum(s) == Weighted(ValueOf(c) - ValueOf(s[i]), i)
  {
    var most, last := s[..|s| - 1], s[|s| - 1];
    assert s == most + [last];
    SumOneMore(most, last);
    if i == |most| {
      assert s[i := c] == most + [c];
      SumOneMore(most, c);
    } else {
      SubstitutionMovesTheSum(most, i, c);
      assert s[i := c] == most[i := c] + [last];
      SumOneMore(most[i := c], last);
    }
  }

  /** A character's share of the digit, whatever the others are: its worth in the
      table, times 7, 3 or 1 by its place; a field of fillers has the digit 0.
      This determines every digit. */
  lemma EveryCharacterCounts(s: string, i: nat, v: nat)
    requires i < |s| && AllInMrz(s) && Worth(s[i], v)
    ensures var w := [7, 3, 1][i % 3];
      CheckDigit(s[i := '<']).Some? && '0' <= CheckDigit(s[i := '<']).value <= '9'
      && CheckDigit(s) == Some('0' + (((CheckDigit(s[i := '<']).value - '0') as nat + w * v) % 10) as char)
    ensures CheckDigit(Fill(|s|)) == Some('0')
  {
    SubstitutionMovesTheSum(s, i, '<');
    FillAddsNothing([], |s|);
    assert [] + Fill(|s|) == Fill(|s|);
    var rest := Sum(s[i := '<']);
    SumOfShares(rest, Weighted(v, i));
    DigitCharReads(rest % 10);
  }

  lemma SumOfShares(rest: nat, share: nat)
    ensures (rest + share) % 10 == (rest % 10 + share) % 10
  {
    assert rest + share == 10 * (rest / 10) + (rest % 10 + share);
  }

  lemma DigitCharReads(n: nat)
    requires n < 10
    ensures '0' <= DigitChar(n) <= '9' && (DigitChar(n) - '0') as nat == n
  {
  }

  // The weights have no factor in common with 10.
  lemma WeightsHideNothing(d: int, i: nat)
    ensures Weighted(d, i) % 10 == 0 <==> d % 10 == 0
  {
  }

  /** Any single substitution is noticed, if and only if the two characters'
      values differ by other than a multiple of 10. */
  lemma SubstitutionIsNoticed(s: string, i: nat, c: char)
    requires i < |s| && AllInMrz(s) && InMrz(c)
    ensures CheckDigit(s[i := c]) != CheckDigit(s) <==> (ValueOf(c) - ValueOf(s[i])) % 10 != 0
  {
    SubstitutionMovesTheSum(s, i, c);
    WeightsHideNothing(ValueOf(c) - ValueOf(s[i]), i);
    DigitsDiffer(Sum(s), Sum(s[i := c]));
  }

  lemma DigitsDiffer(a: nat, b: nat)
    ensures DigitChar(a % 10) == DigitChar(b % 10) <==> (b - a) % 10 == 0
  {
    assert a == 10 * (a / 10) + a % 10 && b == 10 * (b / 10) + b % 10;
    assert b - a == 10 * (b / 10 - a / 10) + (b % 10 - a % 10);
  }

  // -- The payload --

  const DocumentNumberWidth: nat := 9

  datatype Date = Date(year: nat, month: nat, day: nat)

  // QDate(1900, 1, 1): never entered.
  const SentinelDate := Date(1900, 1, 1)

  predicate IsDate(d: Date) {
    1 <= d.month <= 12 && 1 <= d.day <= 31
  }

  function TwoDigits(n: nat): (s: string)
    ensures |s| == 2 && IsDigit(s[0]) && IsDigit(s[1])
  {
    [DigitChar(n / 10 % 10), DigitChar(n % 10)]
  }

  // toString("yyMMdd")
  function MrzDate(d: Date): (s: string)
    ensures |s| == 6 && AllInMrz(s)
  {
    TwoDigits(d.year % 100) + TwoDigits(d.month) + TwoDigits(d.day)
  }

  // Two digits each of the year in its century, the month and the day.
  predicate ReadsAsDate(s: string, d: Date) {
    && |s| == 6
    && s[0] == '0' + (d.year / 10 % 10) as char && s[1] == '0' + (d.year % 10) as char
    && s[2] == '0' + (d.month / 10 % 10) as char && s[3] == '0' + (d.month % 10) as char
    && s[4] == '0' + (d.day / 10 % 10) as char && s[5] == '0' + (d.day % 10) as char
  }

  lemma DateReads(d: Date)
    ensures ReadsAsDate(MrzDate(d), d)
  {
    var s := MrzDate(d);
    YearInCentury(d.year);
    assert s[0] == TwoDigits(d.year % 100)[0] && s[1] == TwoDigits(d.year % 100)[1];
    assert s[2] == TwoDigits(d.month)[0] && s[3] == TwoDigits(d.month)[1];
    assert s[4] == TwoDigits(d.day)[0] && s[5] == TwoDigits(d.day)[1];
  }

  lemma YearInCentury(y: nat)
    ensures y % 100 / 10 % 10 == y / 10 % 10 && y % 100 % 10 == y % 10
  {
    var century, decade, year := y / 100, y % 100 / 10, y % 100 % 10;
    assert y == 10 * (10 * century + decade) + year;
    assert y / 10 == 10 * century + decade;
  }

  // What the field's validator and length limit let in.
  predicate DocumentNumber(s: string) {
    |s| <= DocumentNumberWidth && forall i :: 0 <= i < |s| ==> IsDigit(s[i]) || IsUpper(s[i]) || IsLower(s[i])
  }

  function Padded(doc: string): (s: string)
    requires DocumentNumber(doc)
    ensures |s| == DocumentNumberWidth && AllInMrz(s)
  {
    Upper(doc) + Fill(DocumentNumberWidth - |doc|)
  }

  function WithDigit(field: string): string
    requires AllInMrz(field)
  {
    field + [DigitChar(Sum(field) % 10)]
  }

  function Payload(doc: string, birth: Date, expiry: Date): string
    requires DocumentNumber(doc)
  {
    WithDigit(Padded(doc)) + "\n" + WithDigit(MrzDate(birth)) + "\n" + WithDigit(MrzDate(expiry))
  }

  // The three fields as a reader of the payload finds them, with their digits.
  datatype Fields = Fields(doc: string, docDigit: char, birth: string, birthDigit: char, expiry: string,
          expiryDigit: char)

  // Lines of ten, seven and seven characters.
  function Parse(payload: string): Option<Fields> {
    if |payload| != 26 || payload[10] != '\n' || payload[18] != '\n' then None
    else Some(Fields(payload[..9], payload[9], payload[11..17], payload[17], payload[19..25], payload[25]))
  }

  // The document number without its padding.
  function Unpadded(s: string): string {
    if s != [] && s[|s| - 1] == '<' then Unpadded(s[..|s| - 1]) else s
  }

  lemma {:induction false} UnpaddedDropsTheFill(s: string, n: nat)
    requires s == [] || s[|s| - 1] != '<'
    ensures Unpadded(s + Fill(n)) == s
  {
    if n == 0 {
      assert s + Fill(0) == s;
    } else {
      UnpaddedDropsTheFill(s, n - 1);
      assert (s + Fill(n))[..|s| + n - 1] == s + Fill(n - 1);
    }
  }

  lemma PayloadParses(doc: string, birth: Date, expiry: Date)
    requires DocumentNumber(doc)
    ensures Parse(Payload(doc, birth, expiry)) ==
            Some(Fields(Padded(doc), DigitChar(Sum(Padded(doc)) % 10),
                        MrzDate(birth), DigitChar(Sum(MrzDate(birth)) % 10),
                        MrzDate(expiry), DigitChar(Sum(MrzDate(expiry)) % 10)))
  {
    var a, b, c := WithDigit(Padded(doc)), WithDigit(MrzDate(birth)), WithDigit(MrzDate(expiry));
    var p := Payload(doc, birth, expiry);
    assert |a| == 10 && |b| == 7 && |c| == 7;
    assert p[..10] == a && p[10] == '\n' && p[11..18] == b && p[18] == '\n' && p[19..26] == c;
    assert p[..9] == a[..9] && p[9] == a[9];
    assert p[11..17] == b[..6] && p[17] == b[6];
    assert p[19..25] == c[..6] && p[25] == c[6];
  }

  // The number in upper case, filled up to nine characters.
  predicate ReadsAsNumber(s: string, doc: string) {
    && |doc| <= |s| == 9
    && (forall i :: 0 <= i < |doc| ==> s[i] == if 'a' <= doc[i] <= 'z' then 'A' + (doc[i] - 'a') else doc[i])
    && (forall i :: |doc| <= i < 9 ==> s[i] == '<')
  }

  /** Every payload carries its three fields whole: the upper-cased number, the
      two dates, and a digit of each that verifies. */
  lemma PayloadCarriesItsFields(doc: string, birth: Date, expiry: Date)
    requires DocumentNumber(doc)
    ensures var f := Parse(Payload(doc, birth, expiry));
      && f.Some?
      && Unpadded(f.value.doc) == Upper(doc) && f.value.birth == MrzDate(birth) && f.value.expiry == MrzDate(expiry)
      && ReadsAsNumber(f.value.doc, doc)
      && ReadsAsDate(f.value.birth, birth) && ReadsAsDate(f.value.expiry, expiry)
      && CheckDigitOk(f.value.doc, f.value.docDigit) && CheckDigitOk(Upper(doc), f.value.docDigit)
      && CheckDigitOk(f.value.birth, f.value.birthDigit) && CheckDigitOk(f.value.expiry, f.value.expiryDigit)
  {
    PayloadParses(doc, birth, expiry);
    DateReads(birth);
    DateReads(expiry);
    UnpaddedDropsTheFill(Upper(doc), DocumentNumberWidth - |doc|);
    var f := Parse(Payload(doc, birth, expiry)).value;
    PaddingKeepsTheDigit(Upper(doc), DocumentNumberWidth - |doc|, f.docDigit);
    ComputedDigitVerifies(Padded(doc), f.docDigit);
    ComputedDigitVerifies(MrzDate(birth), f.birthDigit);
    ComputedDigitVerifies(MrzDate(expiry), f.expiryDigit);
  }

  /** Two entries give the same payload if and only if they are the same number,
      up to case, and the same dates, up to the century. */
  lemma PayloadsAreTheSameOnlyForTheSameEntry(doc: string, birth: Date, expiry: Date,
                                              doc': string, birth': Date, expiry': Date)
    requires DocumentNumber(doc) && DocumentNumber(doc')
    requires IsDate(birth) && IsDate(expiry) && IsDate(birth') && IsDate(expiry')
    ensures Payload(doc, birth, expiry) == Payload(doc', birth', expiry') <==>
            Upper(doc) == Upper(doc') && SameInMrz(birth, birth') && SameInMrz(expiry, expiry')
  {
    PayloadCarriesItsFields(doc, birth, expiry);
    PayloadCarriesItsFields(doc', birth', expiry');
    DatesReadBack(birth, birth');
    DatesReadBack(expiry, expiry');
  }

  predicate SameInMrz(a: Date, b: Date) {
    a.year % 100 == b.year % 100 && a.month == b.month && a.day == b.day
  }

  lemma TwoDigitsReadBack(n: nat, m: nat)
    requires n < 100 && m < 100 && TwoDigits(n) == TwoDigits(m)
    ensures n == m
  {
    assert TwoDigits(n)[0] == TwoDigits(m)[0] && TwoDigits(n)[1] == TwoDigits(m)[1];
    assert n == 10 * (n / 10 % 10) + n % 10 && m == 10 * (m / 10 % 10) + m % 10;
  }

  lemma DatesReadBack(a: Date, b: Date)
    requires IsDate(a) && IsDate(b)
    ensures MrzDate(a) == MrzDate(b) <==> SameInMrz(a, b)
  {
    var s, t := MrzDate(a), MrzDate(b);
    assert s[..2] == TwoDigits(a.year % 100) && s[2..4] == TwoDigits(a.month) && s[4..6] == TwoDigits(a.day);
    assert t[..2] == TwoDigits(b.year % 100) && t[2..4] == TwoDigits(b.month) && t[4..6] == TwoDigits(b.day);
    if s == t {
      TwoDigitsReadBack(a.year % 100, b.year % 100);
      TwoDigitsReadBack(a.month, b.month);
      TwoDigitsReadBack(a.day, b.day);
    }
  }

  class MrzInputWidget {
    var documentNumber: string
    var dateOfBirth: Date
    var dateOfExpiry: Date

    ghost predicate Valid()
      reads this
    {
      DocumentNumber(documentNumber)
    }

    constructor ()
      ensures Valid()
    {
      documentNumber, dateOfBirth, dateOfExpiry := "", SentinelDate, SentinelDate;
    }

    // The payload captureSecretFd seals; the three inputs are cleared.
    method CapturePayload() returns (joined: string)
      requires Valid()
      modifies this
      ensures joined == Payload(old(documentNumber), old(dateOfBirth), old(dateOfExpiry))
      ensures Valid() && documentNumber == "" && dateOfBirth == SentinelDate && dateOfExpiry == SentinelDate
    {
      var doc := Upper(documentNumber) + Fill(DocumentNumberWidth - |documentNumber|);
      assert doc == Padded(documentNumber);
      var birth, expiry := MrzDate(dateOfBirth), MrzDate(dateOfExpiry);
      var docDigit := ComputeCheckDigit(doc);
      var birthDigit := ComputeCheckDigit(birth);
      var expiryDigit := ComputeCheckDigit(expiry);
      joined := (doc + [docDigit.value]) + "\n";
      joined := joined + (birth + [birthDigit.value]) + "\n";
      joined := joined + (expiry + [expiryDigit.value]);
      documentNumber, dateOfBirth, dateOfExpiry := "", SentinelDate, SentinelDate;
    }
  }
}
