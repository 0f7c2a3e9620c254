/** The company-registration form's CNPJ input mask: strip every non-digit, then apply four
    single (non-global) regular-expression replacements in turn, which grow the mask
    `NN.NNN.NNN/NNNN-NN` as the user types. */
module CnpjMask {
  import opened Wrappers
  import opened Text
  import Validators

  /** The first `k` in `[i, n)` with `p(k)`: where a non-global regex replacement takes effect,
      scanning start positions from the left. */
  function FirstIndex(n: nat, p: nat -> bool, i: nat): (r: Option<nat>)
    ensures r.Some? ==> i <= r.value < n && p(r.value) && forall j :: i <= j < r.value ==> !p(j)
    ensures r.None? ==> forall j :: i <= j < n ==> !p(j)
    decreases n - i
  {
    if i >= n then None
    else if p(i) then Some(i)
    else FirstIndex(n, p, i + 1)
  }

  predicate DigitsIn(s: string, lo: nat, hi: nat)
    requires lo <= hi <= |s|
  {
    forall k :: lo <= k < hi ==> IsDigit(s[k])
  }

  /** `s` with `c` inserted at position `k`: what each replacement below amounts to. */
  function Insert(s: string, k: nat, c: char): (r: string)
    requires k <= |s|
    ensures |r| == |s| + 1 && r[k] == c
    ensures forall j :: 0 <= j < k ==> r[j] == s[j]
    ensures forall j :: k < j < |r| ==> r[j] == s[j - 1]
  {
    s[..k] + [c] + s[k..]
  }

  /** `/^(\d{2})(\d)/` replaced by `$1.$2`. */
  function Step1(s: string): string {
    if |s| >= 3 && DigitsIn(s, 0, 3) then Insert(s, 2, '.') else s
  }

  /** `/^(\d{2})\.(\d{3})(\d)/` replaced by `$1.$2.$3`. */
  function Step2(s: string): string {
    if |s| >= 7 && DigitsIn(s, 0, 2) && s[2] == '.' && DigitsIn(s, 3, 7) then Insert(s, 6, '.') else s
  }

  /** `\.(\d{3})(\d)` matches at `i`. */
  predicate DotThenFourDigits(s: string, i: nat) {
    i + 5 <= |s| && s[i] == '.' && DigitsIn(s, i + 1, i + 5)
  }

  /** `/\.(\d{3})(\d)/` replaced by `.$1/$2` at its leftmost match. */
  function Step3(s: string): string {
    match FirstIndex(|s|, (i: nat) => DotThenFourDigits(s, i), 0)
    case None => s
    case Some(i) => Insert(s, i + 4, '/')
  }

  /** `(\d{4})(\d)` matches at `i`. */
  predicate FiveDigits(s: string, i: nat) {
    i + 5 <= |s| && DigitsIn(s, i, i + 5)
  }

  /** `/(\d{4})(\d)/` replaced by `$1-$2` at its leftmost match. */
  function Step4(s: string): string {
    match FirstIndex(|s|, (i: nat) => FiveDigits(s, i), 0)
    case None => s
    case Some(i) => Insert(s, i + 4, '-')
  }

  /** `formatCNPJ`. */
  function FormatCnpj(value: string): string {
    Step4(Step3(Step2(Step1(OnlyDigits(value)))))
  }

  /** The mask as a function of the digit count: a separator appears only once the digit after
      it has been typed, giving `NN`, `NN.N`, `NN.NNN.N`, `NN.NNN.NNN/N`, `NN.NNN.NNN/NNNN-N...`. */
  function Mask(d: string): (r: string)
    requires AllDigits(d)
  {
    var n := |d|;
    if n < 3 then d
    else
      var m1 := Insert(d, 2, '.');
      if n < 6 then m1
      else
        var m2 := Insert(m1, 6, '.');
        if n < 9 then m2
        else
          var m3 := Insert(m2, 10, '/');
          if n < 13 then m3 else Insert(m3, 15, '-')
  }

  lemma FirstIndexNone(n: nat, p: nat -> bool)
    requires forall j: nat :: j < n ==> !p(j)
    ensures FirstIndex(n, p, 0) == None
  {
  }

  lemma FirstIndexIs(n: nat, p: nat -> bool, k: nat)
    requires k < n && p(k) && forall j: nat :: j < k ==> !p(j)
    ensures FirstIndex(n, p, 0) == Some(k)
  {
  }

  /** A window holding a non-digit is not a run of five digits. */
  lemma Broken(s: string, j: nat, k: nat)
    requires j <= k < j + 5 && k < |s| && !IsDigit(s[k])
    ensures !FiveDigits(s, j)
  {
  }

  /** The four replacements compute the mask. */
  lemma {:induction false} FormatIsMask(value: string)
    ensures FormatCnpj(value) == Mask(OnlyDigits(value))
  {
    var d := OnlyDigits(value);
    var n := |d|;
    if n < 3 {
      assert Step2(Step1(d)) == d;
      FirstIndexNone(n, (i: nat) => DotThenFourDigits(d, i));
      FirstIndexNone(n, (i: nat) => FiveDigits(d, i));
    } else {
      var m1 := Insert(d, 2, '.');
      assert Step1(d) == m1;
      if n < 6 {
        assert Step2(m1) == m1;
        FirstIndexNone(|m1|, (i: nat) => DotThenFourDigits(m1, i));
        forall j: nat | j < |m1| ensures !FiveDigits(m1, j) {
          if j + 5 <= |m1| {
            Broken(m1, j, 2);
          }
        }
        FirstIndexNone(|m1|, (i: nat) => FiveDigits(m1, i));
      } else {
        var m2 := Insert(m1, 6, '.');
        assert Step2(m1) == m2;
        if n < 9 {
          NoDotFourDigitsIn(m2, d);
          NoFiveDigitsIn(m2, d);
        } else {
          DotFourDigitsAtSix(m2, d);
          var m3 := Insert(m2, 10, '/');
          if n < 13 {
            NoFiveDigitsInSlashed(m3, d);
          } else {
            FiveDigitsAtEleven(m3, d);
          }
        }
      }
    }
  }

  /** `NN.NNN.N` to `NN.NNN.NNN`: no dot is followed by four digits. */
  lemma NoDotFourDigitsIn(m2: string, d: string)
    requires AllDigits(d) && 6 <= |d| < 9 && m2 == Insert(Insert(d, 2, '.'), 6, '.')
    ensures Step3(m2) == m2
  {
    forall j: nat | j < |m2| ensures !DotThenFourDigits(m2, j) {
      if j + 5 <= |m2| && m2[j] == '.' {
        assert j == 2 && !IsDigit(m2[6]);
      }
    }
    FirstIndexNone(|m2|, (i: nat) => DotThenFourDigits(m2, i));
  }

  lemma NoFiveDigitsIn(m2: string, d: string)
    requires AllDigits(d) && 6 <= |d| < 9 && m2 == Insert(Insert(d, 2, '.'), 6, '.')
    ensures Step4(m2) == m2
  {
    forall j: nat | j < |m2| ensures !FiveDigits(m2, j) {
      if j + 5 <= |m2| {
        Broken(m2, j, if j <= 2 then 2 else 6);
      }
    }
    FirstIndexNone(|m2|, (i: nat) => FiveDigits(m2, i));
  }

  /** In `NN.NNN.NNNN...` the leftmost dot followed by four digits is the second one. */
  lemma DotFourDigitsAtSix(m2: string, d: string)
    requires AllDigits(d) && 9 <= |d| && m2 == Insert(Insert(d, 2, '.'), 6, '.')
    ensures Step3(m2) == Insert(m2, 10, '/')
  {
    forall j: nat | j < 6 ensures !DotThenFourDigits(m2, j) {
      if j == 2 {
        assert !IsDigit(m2[6]);
      }
    }
    FirstIndexIs(|m2|, (i: nat) => DotThenFourDigits(m2, i), 6);
  }

  /** `NN.NNN.NNN/N` to `NN.NNN.NNN/NNNN`: no five digits in a row. */
  lemma NoFiveDigitsInSlashed(m3: string, d: string)
    requires AllDigits(d) && 9 <= |d| < 13 && m3 == Insert(Insert(Insert(d, 2, '.'), 6, '.'), 10, '/')
    ensures Step4(m3) == m3
  {
    forall j: nat | j < |m3| ensures !FiveDigits(m3, j) {
      if j + 5 <= |m3| {
        Broken(m3, j, if j <= 2 then 2 else if j <= 6 then 6 else 10);
      }
    }
    FirstIndexNone(|m3|, (i: nat) => FiveDigits(m3, i));
  }

  /** In `NN.NNN.NNN/NNNNN...` the leftmost five digits start right after the slash. */
  lemma FiveDigitsAtEleven(m3: string, d: string)
    requires AllDigits(d) && 13 <= |d| && m3 == Insert(Insert(Insert(d, 2, '.'), 6, '.'), 10, '/')
    ensures Step4(m3) == Insert(m3, 15, '-')
  {
    forall j: nat | j < 11 ensures !FiveDigits(m3, j) {
      Broken(m3, j, if j <= 2 then 2 else if j <= 6 then 6 else 10);
    }
    FirstIndexIs(|m3|, (i: nat) => FiveDigits(m3, i), 11);
  }

  /** The digits of the output are the digits of the input, in order. */
  lemma FormatKeepsDigits(value: string)
    ensures OnlyDigits(FormatCnpj(value)) == OnlyDigits(value)
  {
    FormatIsMask(value);
    var d := OnlyDigits(value);
    if |d| >= 3 {
      var m1 := Insert(d, 2, '.');
      OnlyDigitsInsert(d, 2, '.');
      if |d| >= 6 {
        var m2 := Insert(m1, 6, '.');
        OnlyDigitsInsert(m1, 6, '.');
        if |d| >= 9 {
          var m3 := Insert(m2, 10, '/');
          OnlyDigitsInsert(m2, 10, '/');
          if |d| >= 13 {
            OnlyDigitsInsert(m3, 15, '-');
          }
        }
      }
    }
  }

  predicate IsSeparator(c: char) {
    c == '.' || c == '/' || c == '-'
  }

  predicate DigitsOrSeparators(s: string) {
    forall k :: 0 <= k < |s| ==> IsDigit(s[k]) || IsSeparator(s[k])
  }

  lemma InsertSeparator(s: string, k: nat, c: char)
    requires k <= |s| && DigitsOrSeparators(s) && IsSeparator(c)
    ensures DigitsOrSeparators(Insert(s, k, c))
  {
    var r := Insert(s, k, c);
    forall j | 0 <= j < |r| ensures IsDigit(r[j]) || IsSeparator(r[j]) {
      if j > k {
        assert r[j] == s[j - 1];
      }
    }
  }

  /** Only `.`, `/` and `-` are ever inserted. */
  lemma FormatInsertsOnlySeparators(value: string)
    ensures DigitsOrSeparators(FormatCnpj(value))
  {
    FormatIsMask(value);
    var d := OnlyDigits(value);
    if |d| >= 3 {
      var m1 := Insert(d, 2, '.');
      InsertSeparator(d, 2, '.');
      if |d| >= 6 {
        var m2 := Insert(m1, 6, '.');
        InsertSeparator(m1, 6, '.');
        if |d| >= 9 {
          var m3 := Insert(m2, 10, '/');
          InsertSeparator(m2, 10, '/');
          if |d| >= 13 {
            InsertSeparator(m3, 15, '-');
          }
        }
      }
    }
  }

  /** A complete CNPJ gets the full mask `NN.NNN.NNN/NNNN-NN`: separators at positions 2, 6, 10
      and 15, digits everywhere else. */
  lemma FullMask(value: string)
    requires |OnlyDigits(value)| == 14
    ensures var r := FormatCnpj(value);
            |r| == 18 && r[2] == '.' && r[6] == '.' && r[10] == '/' && r[15] == '-'
            && forall k :: 0 <= k < 18 && k != 2 && k != 6 && k != 10 && k != 15 ==> IsDigit(r[k])
  {
    FormatIsMask(value);
    var d := OnlyDigits(value);
    var m1 := Insert(d, 2, '.');
    assert forall k :: 0 <= k < 15 && k != 2 ==> IsDigit(m1[k]);
    var m2 := Insert(m1, 6, '.');
    assert forall k :: 0 <= k < 16 && k != 2 && k != 6 ==> IsDigit(m2[k]);
    var m3 := Insert(m2, 10, '/');
    assert forall k :: 0 <= k < 17 && k != 2 && k != 6 && k != 10 ==> IsDigit(m3[k]);
    var m4 := Insert(m3, 15, '-');
    assert FormatCnpj(value) == m4;
  }

  /** Formatting an already formatted value changes nothing. */
  lemma FormatIdempotent(value: string)
    ensures FormatCnpj(FormatCnpj(value)) == FormatCnpj(value)
  {
    FormatKeepsDigits(value);
    FormatIsMask(FormatCnpj(value));
    FormatIsMask(value);
  }

  /** The backend accepts the masked value exactly when it accepts the raw one and returns the
      same digits; for valid digits it returns them. */
  lemma MaskRoundTrip(value: string)
    ensures Validators.ValidateCnpj(FormatCnpj(value)) == Validators.ValidateCnpj(value)
    ensures Validators.IsCnpj(OnlyDigits(value)) ==>
              Validators.ValidateCnpj(FormatCnpj(value)) == Ok(OnlyDigits(value))
  {
    FormatKeepsDigits(value);
  }
}
