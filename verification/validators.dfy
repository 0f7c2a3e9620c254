/** Business validators of the request schemas: Brazilian CNPJ and CPF check digits, NCM codes,
    ISO 4217 currency codes, dates, positive numbers, percentages and reference numbers.
    Each Python `ValueError` becomes an `Err` carrying which check failed. */
module Validators {
  import opened Wrappers
  import opened Text

  datatype ValidationError =
    | CnpjLength | CnpjAllEqual | CnpjDigit1 | CnpjDigit2
    | CpfLength | CpfAllEqual | CpfDigit1 | CpfDigit2
    | NcmLength | NcmNotNumeric
    | CurrencyUnknown
    | DateInPast | DateRangeInverted
    | NotPositive(field: string) | PercentageOutOfRange(field: string)
    | ReferenceEmpty | ReferenceTooShort | ReferenceTooLong | ReferenceBadCharacters

  // ---------------------------------------------------------------------------------------------
  // Mod-11 check digits

  /** `sum(int(d[i]) * w[i] for i in range(len(w)))`. */
  function WeightedSum(d: string, w: seq<nat>): (s: nat)
    requires |w| <= |d| && AllDigits(d)
  {
    if w == [] then 0 else DigitValue(d[0]) * w[0] + WeightedSum(d[1..], w[1..])
  }

  /** `11 - sum % 11`, replaced by 0 when it is 10 or 11. */
  function CheckDigit(sum: nat): (d: nat)
    ensures d < 10
  {
    var digit := 11 - sum % 11;
    if digit >= 10 then 0 else digit
  }

  const CnpjWeights1: seq<nat> := [5, 4, 3, 2, 9, 8, 7, 6, 5, 4, 3, 2]
  const CnpjWeights2: seq<nat> := [6, 5, 4, 3, 2, 9, 8, 7, 6, 5, 4, 3, 2]

  /** The CPF weights `10 - i` for `i < 9` and `11 - i` for `i < 10`. */
  function CountdownWeights(n: nat): (w: seq<nat>)
    ensures |w| == n && forall i :: 0 <= i < n ==> w[i] == n + 1 - i
  {
    seq(n, i requires 0 <= i < n => n + 1 - i)
  }

  // The reference formulation of the mod-11 scheme, independent of the weight tables: the digit
  // at distance k from the right end of the summed prefix is weighted by f(k) (2, 3, 4, ... for
  // CPF; 2..9 repeating for CNPJ), and the check digit is (10 * sum mod 11) mod 10.

  function RefSum(d: string, f: nat -> nat): nat
    requires AllDigits(d)
  {
    if d == [] then 0 else DigitValue(d[0]) * f(|d| - 1) + RefSum(d[1..], f)
  }

  function CnpjWeight(k: nat): nat { 2 + k % 8 }
  function CpfWeight(k: nat): nat { 2 + k }

  function RefCheckDigit(sum: nat): nat { (10 * sum) % 11 % 10 }

  /** A weight table read left to right is a reference weight function read from the right. */
  lemma {:induction false} WeightedSumIsRefSum(d: string, w: seq<nat>, f: nat -> nat)
    requires |w| <= |d| && AllDigits(d)
    requires forall i :: 0 <= i < |w| ==> w[i] == f(|w| - 1 - i)
    ensures WeightedSum(d, w) == RefSum(d[..|w|], f)
    decreases |w|
  {
    if w != [] {
      WeightedSumIsRefSum(d[1..], w[1..], f);
      assert d[..|w|][1..] == d[1..][..|w| - 1];
    }
  }

  /** The source's `11 - sum % 11, 0 when >= 10` is the reference `(10 * sum mod 11) mod 10`. */
  lemma CheckDigitIsRef(sum: nat)
    ensures CheckDigit(sum) == RefCheckDigit(sum)
  {
    var q, r := sum / 11, sum % 11;
    assert 10 * sum == 10 * r + 11 * (10 * q);
    ModElevenShift(10 * r, 10 * q);
    assert (10 * sum) % 11 == (10 * r) % 11;
  }

  lemma {:induction false} ModElevenShift(a: nat, k: nat)
    ensures (a + 11 * k) % 11 == a % 11
  {
    if k > 0 {
      ModElevenShift(a, k - 1);
      assert a + 11 * k == (a + 11 * (k - 1)) + 11;
    }
  }

  lemma CnpjTablesAreCyclic()
    ensures forall i :: 0 <= i < 12 ==> CnpjWeights1[i] == CnpjWeight(11 - i)
    ensures forall i :: 0 <= i < 13 ==> CnpjWeights2[i] == CnpjWeight(12 - i)
  {
  }

  /** A valid CNPJ, stated with the reference scheme: 14 digits, not all equal, and the two check
      digits over the first 12 and the first 13 digits. */
  predicate IsCnpj(d: string) {
    |d| == 14 && AllDigits(d) && !AllSame(d)
    && DigitValue(d[12]) == RefCheckDigit(RefSum(d[..12], CnpjWeight))
    && DigitValue(d[13]) == RefCheckDigit(RefSum(d[..13], CnpjWeight))
  }

  /** A valid CPF: 11 digits, not all equal, check digits over the first 9 and the first 10. */
  predicate IsCpf(d: string) {
    |d| == 11 && AllDigits(d) && !AllSame(d)
    && DigitValue(d[9]) == RefCheckDigit(RefSum(d[..9], CpfWeight))
    && DigitValue(d[10]) == RefCheckDigit(RefSum(d[..10], CpfWeight))
  }

  /** `validate_cnpj`: strip non-digits, check the length, reject all-equal digits, then check both
      digits; on success return the stripped digits. */
  function ValidateCnpj(cnpj: string): (r: Result<string, ValidationError>)
    ensures r.Ok? <==> IsCnpj(OnlyDigits(cnpj))
    ensures r.Ok? ==> r.value == OnlyDigits(cnpj)
    ensures r == Err(CnpjLength) <==> |OnlyDigits(cnpj)| != 14
    ensures r == Err(CnpjAllEqual) <==> |OnlyDigits(cnpj)| == 14 && AllSame(OnlyDigits(cnpj))
  {
    var clean := OnlyDigits(cnpj);
    if |clean| != 14 then Err(CnpjLength)
    else if AllSame(clean) then Err(CnpjAllEqual)
    else
      var sum1 := WeightedSum(clean, CnpjWeights1);
      var sum2 := WeightedSum(clean, CnpjWeights2);
      CnpjTablesAreCyclic();
      WeightedSumIsRefSum(clean, CnpjWeights1, CnpjWeight);
      WeightedSumIsRefSum(clean, CnpjWeights2, CnpjWeight);
      CheckDigitIsRef(sum1);
      CheckDigitIsRef(sum2);
      if DigitValue(clean[12]) != CheckDigit(sum1) then Err(CnpjDigit1)
      else if DigitValue(clean[13]) != CheckDigit(sum2) then Err(CnpjDigit2)
      else Ok(clean)
  }

  /** `validate_cpf`: the same scheme with 11 digits and weights 10..2, then 11..2. */
  function ValidateCpf(cpf: string): (r: Result<string, ValidationError>)
    ensures r.Ok? <==> IsCpf(OnlyDigits(cpf))
    ensures r.Ok? ==> r.value == OnlyDigits(cpf)
    ensures r == Err(CpfLength) <==> |OnlyDigits(cpf)| != 11
    ensures r == Err(CpfAllEqual) <==> |OnlyDigits(cpf)| == 11 && AllSame(OnlyDigits(cpf))
  {
    var clean := OnlyDigits(cpf);
    if |clean| != 11 then Err(CpfLength)
    else if AllSame(clean) then Err(CpfAllEqual)
    else
      var sum1 := WeightedSum(clean, CountdownWeights(9));
      var sum2 := WeightedSum(clean, CountdownWeights(10));
      WeightedSumIsRefSum(clean, CountdownWeights(9), CpfWeight);
      WeightedSumIsRefSum(clean, CountdownWeights(10), CpfWeight);
      CheckDigitIsRef(sum1);
      CheckDigitIsRef(sum2);
      if DigitValue(clean[9]) != CheckDigit(sum1) then Err(CpfDigit1)
      else if DigitValue(clean[10]) != CheckDigit(sum2) then Err(CpfDigit2)
      else Ok(clean)
  }

  /** Validating the returned digits again returns them again. */
  lemma CnpjIdempotent(cnpj: string)
    requires ValidateCnpj(cnpj).Ok?
    ensures ValidateCnpj(ValidateCnpj(cnpj).value) == ValidateCnpj(cnpj)
  {
  }

  lemma CpfIdempotent(cpf: string)
    requires ValidateCpf(cpf).Ok?
    ensures ValidateCpf(ValidateCpf(cpf).value) == ValidateCpf(cpf)
  {
  }

  /** Inserting punctuation (any non-digit) anywhere does not change the verdict or the result. */
  lemma CnpjIgnoresPunctuation(cnpj: string, k: nat, c: char)
    requires k <= |cnpj| && !IsDigit(c)
    ensures ValidateCnpj(cnpj[..k] + [c] + cnpj[k..]) == ValidateCnpj(cnpj)
  {
    OnlyDigitsInsert(cnpj, k, c);
  }

  lemma CpfIgnoresPunctuation(cpf: string, k: nat, c: char)
    requires k <= |cpf| && !IsDigit(c)
    ensures ValidateCpf(cpf[..k] + [c] + cpf[k..]) == ValidateCpf(cpf)
  {
    OnlyDigitsInsert(cpf, k, c);
  }

  // ---------------------------------------------------------------------------------------------
  // NCM and currency codes

  /** `validate_ncm`: exactly 8 digits after stripping. The "only numbers" check after stripping
      can never fire. */
  function ValidateNcm(ncmCode: string): (r: Result<string, ValidationError>)
    ensures r.Ok? <==> |OnlyDigits(ncmCode)| == 8
    ensures r.Ok? ==> r.value == OnlyDigits(ncmCode)
    ensures r != Err(NcmNotNumeric)
  {
    var clean := OnlyDigits(ncmCode);
    if |clean| != 8 then Err(NcmLength)
    else if !AllDigits(clean) then Err(NcmNotNumeric)
    else Ok(clean)
  }

  const ValidCurrencies: set<string> :=
    {"USD", "BRL", "EUR", "GBP", "JPY", "CNY", "CAD", "AUD",
     "CHF", "MXN", "ARS", "CLP", "COP", "PEN", "UYU", "PYG"}

  /** `validate_currency_code`: upper-case the code and accept it iff it is one of the 16 listed. */
  function ValidateCurrencyCode(currency: string): (r: Result<string, ValidationError>)
    ensures r.Ok? <==> Upper(currency) in ValidCurrencies
    ensures r.Ok? ==> r.value == Upper(currency) && |r.value| == 3
    ensures r.Err? ==> r.error == CurrencyUnknown
  {
    var upper := Upper(currency);
    if upper !in ValidCurrencies then Err(CurrencyUnknown) else Ok(upper)
  }

  /** Case does not matter: a code and its upper-case form get the same answer. */
  lemma CurrencyCaseInsensitive(currency: string)
    ensures ValidateCurrencyCode(Upper(currency)) == ValidateCurrencyCode(currency)
  {
    UpperIdempotent(currency);
  }

  lemma LowerCaseCurrencyAccepted()
    ensures ValidateCurrencyCode("brl") == Ok("BRL")
    ensures ValidateCurrencyCode("usd") == Ok("USD")
  {
    assert Upper("brl") == "BRL";
    assert Upper("usd") == "USD";
  }

  // ---------------------------------------------------------------------------------------------
  // Dates and numbers

  /** A calendar date as a day number; only the order of dates matters here. */
  type Date = int

  /** `validate_date_not_past`, with today's date as a parameter. */
  function ValidateDateNotPast(dateValue: Date, today: Date): (r: Result<Date, ValidationError>)
    ensures r.Ok? <==> dateValue >= today
    ensures r.Ok? ==> r.value == dateValue
    ensures r.Err? ==> r.error == DateInPast
  {
    if dateValue < today then Err(DateInPast) else Ok(dateValue)
  }

  /** `validate_date_range`: accepted iff the end is not before the start; equal dates pass. */
  function ValidateDateRange(startDate: Date, endDate: Date): (r: Result<(Date, Date), ValidationError>)
    ensures r.Ok? <==> startDate <= endDate
    ensures r.Ok? ==> r.value == (startDate, endDate)
    ensures r.Err? ==> r.error == DateRangeInverted
  {
    if endDate < startDate then Err(DateRangeInverted) else Ok((startDate, endDate))
  }

  /** A Python `float`: a finite value, NaN, or an infinity of either sign. */
  datatype Float = Finite(v: real) | NaN | Inf(negative: bool)

  /** Python's `x <= c` for a finite bound `c`: false whenever `x` is NaN. */
  predicate AtMost(x: Float, c: real) {
    match x
    case Finite(v) => v <= c
    case NaN => false
    case Inf(negative) => negative
  }

  /** Python's `x < c` for a finite bound `c`: false whenever `x` is NaN. */
  predicate Below(x: Float, c: real) {
    match x
    case Finite(v) => v < c
    case NaN => false
    case Inf(negative) => negative
  }

  /** Python's `x > c` for a finite bound `c`: false whenever `x` is NaN. */
  predicate Above(x: Float, c: real) {
    match x
    case Finite(v) => v > c
    case NaN => false
    case Inf(negative) => !negative
  }

  /** `validate_positive_number`: rejects a value that compares `<= 0`. Zero and negative values
      are refused; NaN, which compares false with everything, and `+inf` pass unchanged. */
  function ValidatePositiveNumber(value: Float, fieldName: string): (r: Result<Float, ValidationError>)
    ensures r.Ok? <==> (value.Finite? && value.v > 0.0) || value.NaN? || value == Inf(false)
    ensures r.Ok? ==> r.value == value
    ensures r.Err? ==> r.error == NotPositive(fieldName)
  {
    if AtMost(value, 0.0) then Err(NotPositive(fieldName)) else Ok(value)
  }

  /** `validate_percentage`: rejects a value that compares `< 0` or `> 100`. Both bounds are
      inclusive, both infinities are refused, and NaN passes unchanged. */
  function ValidatePercentage(value: Float, fieldName: string): (r: Result<Float, ValidationError>)
    ensures r.Ok? <==> (value.Finite? && 0.0 <= value.v <= 100.0) || value.NaN?
    ensures r.Ok? ==> r.value == value
    ensures r.Err? ==> r.error == PercentageOutOfRange(fieldName)
  {
    if Below(value, 0.0) || Above(value, 100.0) then Err(PercentageOutOfRange(fieldName)) else Ok(value)
  }

  /** A percentage strictly above zero is also a positive number, and a finite positive number of
      at most 100 is a percentage; NaN slips through both checks. */
  lemma PercentageAndPositive(value: Float, fieldName: string)
    ensures (ValidatePercentage(value, fieldName).Ok? && !(value.Finite? && value.v == 0.0)) ==>
              ValidatePositiveNumber(value, fieldName).Ok?
    ensures (value.Finite? && ValidatePositiveNumber(value, fieldName).Ok? && value.v <= 100.0) ==>
              ValidatePercentage(value, fieldName).Ok?
    ensures ValidatePositiveNumber(NaN, fieldName).Ok? && ValidatePercentage(NaN, fieldName).Ok?
  {
  }

  /** Validating an accepted value again accepts it unchanged. */
  lemma NumericValidatorsIdempotent(value: Float, fieldName: string)
    ensures ValidatePositiveNumber(value, fieldName).Ok? ==>
              ValidatePositiveNumber(ValidatePositiveNumber(value, fieldName).value, fieldName) == Ok(value)
    ensures ValidatePercentage(value, fieldName).Ok? ==>
              ValidatePercentage(ValidatePercentage(value, fieldName).value, fieldName) == Ok(value)
  {
  }

  // ---------------------------------------------------------------------------------------------
  // Reference numbers

  /** A character of the class `[a-zA-Z0-9_-]`. */
  predicate IsReferenceChar(c: char) {
    'a' <= c <= 'z' || 'A' <= c <= 'Z' || '0' <= c <= '9' || c == '_' || c == '-'
  }

  predicate AllReferenceChars(s: string) {
    forall i :: 0 <= i < |s| ==> IsReferenceChar(s[i])
  }

  /** What Python's `re.match(r'^[a-zA-Z0-9_-]+$', s)` accepts: without MULTILINE, `$` matches at
      the very end and also just before a final newline. */
  predicate PythonReferenceMatch(s: string) {
    (|s| > 0 && AllReferenceChars(s))
    || (|s| > 1 && s[|s| - 1] == '\n' && AllReferenceChars(s[..|s| - 1]))
  }

  /** `validate_reference_number` as written, with the `$` anchor. */
  function ValidateReferenceNumberAsWritten(refNumber: string): (r: Result<string, ValidationError>)
    ensures r.Ok? <==> 3 <= |refNumber| <= 50 && PythonReferenceMatch(refNumber)
    ensures r.Ok? ==> r.value == refNumber
  {
    if refNumber == [] then Err(ReferenceEmpty)
    else if |refNumber| < 3 then Err(ReferenceTooShort)
    else if |refNumber| > 50 then Err(ReferenceTooLong)
    else if !PythonReferenceMatch(refNumber) then Err(ReferenceBadCharacters)
    else Ok(refNumber)
  }

  /** The anchor lets a trailing newline through: "ab\n" is accepted, newline included. */
  lemma ReferenceNewlineAccepted()
    ensures ValidateReferenceNumberAsWritten("ab\n") == Ok("ab\n")
    ensures !AllReferenceChars("ab\n")
  {
    assert "ab\n"[..2] == "ab";
    assert !IsReferenceChar("ab\n"[2]);
  }

  /** `validate_reference_number` as intended (the pattern anchored at the true end of the string):
      the input is returned unchanged iff it has 3 to 50 characters, all letters, digits, `_`, `-`. */
  function ValidateReferenceNumber(refNumber: string): (r: Result<string, ValidationError>)
    ensures r.Ok? <==> 3 <= |refNumber| <= 50 && AllReferenceChars(refNumber)
    ensures r.Ok? ==> r.value == refNumber
    ensures r == Err(ReferenceEmpty) <==> refNumber == []
    ensures r == Err(ReferenceTooShort) <==> 0 < |refNumber| < 3
    ensures r == Err(ReferenceTooLong) <==> |refNumber| > 50
  {
    if refNumber == [] then Err(ReferenceEmpty)
    else if |refNumber| < 3 then Err(ReferenceTooShort)
    else if |refNumber| > 50 then Err(ReferenceTooLong)
    else if !AllReferenceChars(refNumber) then Err(ReferenceBadCharacters)
    else Ok(refNumber)
  }

  /** The two differ only on strings that end in a newline. */
  lemma ReferenceVersionsAgree(refNumber: string)
    requires refNumber == [] || refNumber[|refNumber| - 1] != '\n'
    ensures ValidateReferenceNumberAsWritten(refNumber) == ValidateReferenceNumber(refNumber)
  {
  }
}
