/** A passenger record and its three document checks: the Brazilian CPF
    (national taxpayer number) with its two mod-11 check digits, the RG
    (identity card) length check, and the birth-date check against today. */
module Passengers {
  import opened Text
  import opened Calendar

  /** `Regex.Replace(s, "[^0-9]", "")`: the ASCII digits of `s`, in order. */
  function DigitsOnly(s: string): (r: string)
    ensures AllDigits(r) && |r| <= |s|
    decreases |s|
  {
    if s == [] then []
    else (if IsAsciiDigit(s[0]) then [s[0]] else []) + DigitsOnly(s[1..])
  }

  predicate IsAsciiAlphanumeric(c: char) { IsAsciiDigit(c) || IsAsciiLetter(c) }

  /** `Regex.Replace(s, "[^0-9A-Za-z]", "")`. */
  function AlphanumericOnly(s: string): (r: string)
    ensures |r| <= |s|
    ensures forall k :: 0 <= k < |r| ==> IsAsciiAlphanumeric(r[k])
    decreases |s|
  {
    if s == [] then []
    else (if IsAsciiAlphanumeric(s[0]) then [s[0]] else []) + AlphanumericOnly(s[1..])
  }

  /** Σ_{i<n} digit(d[i]) · (top − i), the weighted sum behind a check digit. */
  function WeightedSum(d: string, n: nat, top: int): int
    requires n <= |d| && AllDigits(d)
  {
    if n == 0 then 0 else WeightedSum(d, n - 1, top) + DigitValue(d[n - 1]) * (top - (n - 1))
  }

  /** The CPF check digit for a weighted sum: 0 when the remainder mod 11
      is below 2, otherwise 11 minus the remainder. */
  function CheckDigit(sum: int): (v: int)
    ensures 0 <= v <= 9
    ensures (v + sum) % 11 == 0 || (v == 0 && sum % 11 == 1)
  {
    var remainder := sum % 11;
    if remainder < 2 then 0 else 11 - remainder
  }

  predicate AllSame(d: string)
  {
    forall k :: 0 <= k < |d| ==> d[k] == d[0]
  }

  /** What `ValidateCPF` accepts: eleven digits after the punctuation is
      dropped, not all the same digit, and both check digits right. */
  predicate CpfValid(cpf: string)
  {
    var d := DigitsOnly(cpf);
    && |d| == 11
    && !AllSame(d)
    && DigitValue(d[9]) == CheckDigit(WeightedSum(d, 9, 10))
    && DigitValue(d[10]) == CheckDigit(WeightedSum(d, 10, 11))
  }

  /** The two check digits that complete a nine-digit CPF base. */
  function WithCheckDigits(base: string): (cpf: string)
    requires |base| == 9 && AllDigits(base)
    ensures |cpf| == 11 && AllDigits(cpf) && cpf[..9] == base
  {
    var first := base + [DigitChar(CheckDigit(WeightedSum(base, 9, 10)))];
    first + [DigitChar(CheckDigit(WeightedSum(first, 10, 11)))]
  }

  datatype Passenger = Passenger(name: string, rg: string, cpf: string, birthDate: DateTime)
  {
    /** The CPF check, written as the source writes it: one loop looking
        for a digit that differs from the first, two loops summing the
        weighted digits. */
    method ValidateCPF() returns (valid: bool)
      ensures valid == CpfValid(cpf)
    {
      var d := DigitsOnly(cpf);
      if |d| != 11 {
        return false;
      }
      var allEqual := true;
      for i := 1 to |d|
        invariant forall k :: 1 <= k < i ==> d[k] == d[0]
      {
        if d[i] != d[0] {
          allEqual := false;
          break;
        }
      }
      if allEqual {
        return false;
      }
      assert !AllSame(d);
      var sum := 0;
      for i := 0 to 9
        invariant sum == WeightedSum(d, i, 10)
      {
        sum := sum + DigitValue(d[i]) * (10 - i);
      }
      var remainder := sum % 11;
      var digit1 := if remainder < 2 then 0 else 11 - remainder;
      if DigitValue(d[9]) != digit1 {
        return false;
      }
      sum := 0;
      for i := 0 to 10
        invariant sum == WeightedSum(d, i, 11)
      {
        sum := sum + DigitValue(d[i]) * (11 - i);
      }
      remainder := sum % 11;
      var digit2 := if remainder < 2 then 0 else 11 - remainder;
      return DigitValue(d[10]) == digit2;
    }

    /** At least eight ASCII letters and digits once everything else is
        dropped; see `RgIgnoresPunctuation` and `RgOfAlphanumerics`. */
    predicate ValidateRG(): (valid: bool)
      ensures valid ==> |rg| >= 8
    {
      |AlphanumericOnly(rg)| >= 8
    }

    /** `BirthDate <= Today && BirthDate.AddYears(2) <= Today`.  `Null`
        is the exception `AddYears` throws past the year 9999, reached only
        when the birth date is not after today. */
    function ValidateBirthDate(today: Date): (r: Option<bool>)
      requires ValidDateTime(birthDate) && ValidDate(today)
      ensures r == Null <==> AtOrBefore(birthDate, Midnight(today)) && birthDate.date.year > 9997
      ensures r == Some(true) ==> AtOrBefore(birthDate, Midnight(today))
    {
      if !AtOrBefore(birthDate, Midnight(today)) then Some(false)
      else match AddYears(birthDate, 2)
        case Null => Null
        case Some(later) => Some(AtOrBefore(later, Midnight(today)))
    }
  }

  /** The weighted sum over the first n digits reads nothing past them. */
  lemma {:induction false} WeightedSumPrefix(d: string, e: string, n: nat, top: int)
    requires n <= |d| && n <= |e| && AllDigits(d) && AllDigits(e) && d[..n] == e[..n]
    ensures WeightedSum(d, n, top) == WeightedSum(e, n, top)
  {
    if n > 0 {
      assert d[..n - 1] == d[..n][..n - 1] && e[..n - 1] == e[..n][..n - 1];
      assert d[n - 1] == d[..n][n - 1] && e[n - 1] == e[..n][n - 1];
      WeightedSumPrefix(d, e, n - 1, top);
    }
  }

  /** Dropping non-digits a second time changes nothing. */
  lemma {:induction false} DigitsOnlyIdempotent(s: string)
    ensures DigitsOnly(DigitsOnly(s)) == DigitsOnly(s)
  {
    DigitsOnlyOfDigits(DigitsOnly(s));
  }

  /** A string of digits has nothing to drop. */
  lemma {:induction false} DigitsOnlyOfDigits(s: string)
    requires AllDigits(s)
    ensures DigitsOnly(s) == s
    decreases |s|
  {
    if s != [] { DigitsOnlyOfDigits(s[1..]); }
  }

  /** Dropping the digits of one string after another's is the same as
      dropping them from the concatenation. */
  lemma {:induction false} DigitsOnlyAppend(a: string, b: string)
    ensures DigitsOnly(a + b) == DigitsOnly(a) + DigitsOnly(b)
    decreases |a|
  {
    if a != [] {
      var head := if IsAsciiDigit(a[0]) then [a[0]] else [];
      assert (a + b)[0] == a[0] && (a + b)[1..] == a[1..] + b;
      assert DigitsOnly(a + b) == head + DigitsOnly(a[1..] + b);
      DigitsOnlyAppend(a[1..], b);
      assert DigitsOnly(a) == head + DigitsOnly(a[1..]);
    } else {
      assert a + b == b;
    }
  }

  /** Punctuation never matters: a formatted CPF is valid exactly when its
      bare digits are. */
  lemma CpfIgnoresPunctuation(cpf: string)
    ensures CpfValid(cpf) == CpfValid(DigitsOnly(cpf))
  {
    DigitsOnlyIdempotent(cpf);
  }

  /** A CPF that does not have exactly eleven digits is rejected. */
  lemma CpfNeedsElevenDigits(cpf: string)
    requires |DigitsOnly(cpf)| != 11
    ensures !CpfValid(cpf)
  {
  }

  /** Σ_{i<n} (top − i): the sum of the weights alone. */
  function SumOfWeights(n: nat, top: int): int
  {
    if n == 0 then 0 else SumOfWeights(n - 1, top) + (top - (n - 1))
  }

  lemma {:induction false} WeightedSumOfRepeated(d: string, n: nat, top: int)
    requires 0 < |d| && n <= |d| && AllDigits(d) && AllSame(d)
    ensures WeightedSum(d, n, top) == DigitValue(d[0]) * SumOfWeights(n, top)
  {
    if n > 0 {
      WeightedSumOfRepeated(d, n - 1, top);
      assert DigitValue(d[n - 1]) * (top - (n - 1)) == DigitValue(d[0]) * (top - (n - 1));
    }
  }

  /** Repeated digits such as 111.111.111-11 are rejected, although they
      satisfy both check digits. */
  lemma CpfRejectsRepeatedDigits(x: char)
    requires IsAsciiDigit(x)
    ensures var cpf := seq(11, _ => x);
      !CpfValid(cpf) && DigitValue(cpf[9]) == CheckDigit(WeightedSum(cpf, 9, 10))
      && DigitValue(cpf[10]) == CheckDigit(WeightedSum(cpf, 10, 11))
  {
    var cpf := seq(11, _ => x);
    var v := DigitValue(x);
    DigitsOnlyOfDigits(cpf);
    WeightedSumOfRepeated(cpf, 9, 10);
    WeightedSumOfRepeated(cpf, 10, 11);
    assert SumOfWeights(9, 10) == 54;
    assert SumOfWeights(10, 11) == 65;
    assert CheckDigit(v * 54) == v && CheckDigit(v * 65) == v by {
      match v
      case 0 => case 1 => case 2 => case 3 => case 4 =>
      case 5 => case 6 => case 7 => case 8 => case 9 =>
    }
  }

  /** A CPF is valid exactly when it is not a repeated digit and its last
      two digits are the check digits of its first nine. */
  lemma {:induction false} CpfValidIffCheckDigits(cpf: string)
    ensures CpfValid(cpf) <==>
      var d := DigitsOnly(cpf);
      |d| == 11 && !AllSame(d) && d == WithCheckDigits(d[..9])
  {
    var d := DigitsOnly(cpf);
    if |d| == 11 {
      var base := d[..9];
      var w := WithCheckDigits(base);
      var first := base + [DigitChar(CheckDigit(WeightedSum(base, 9, 10)))];
      WeightedSumPrefix(d, base, 9, 10);
      assert first == w[..10];
      if d == w {
        WeightedSumPrefix(d, first, 10, 11);
      }
      if CpfValid(cpf) {
        WeightedSumPrefix(d, first, 10, 11);
        assert d[..10] == first;
        assert d == w by {
          assert d == d[..10] + [d[10]];
          assert w == w[..10] + [w[10]];
        }
      }
    }
  }

  /** Completing any nine-digit base that is not one repeated digit gives
      a valid CPF. */
  lemma CompletedCpfIsValid(base: string)
    requires |base| == 9 && AllDigits(base) && !AllSame(base)
    ensures CpfValid(WithCheckDigits(base))
  {
    var w := WithCheckDigits(base);
    assert !AllSame(w) by {
      var k :| 0 <= k < 9 && base[k] != base[0];
      assert w[k] == base[k] && w[0] == base[0];
    }
    DigitsOnlyOfDigits(w);
    CpfValidIffCheckDigits(w);
  }

  /** Dropping a separator between a run of digits and the rest. */
  lemma DropSeparator(a: string, c: char, b: string)
    requires AllDigits(a) && !IsAsciiDigit(c)
    ensures DigitsOnly(a + ([c] + b)) == a + DigitsOnly(b)
  {
    var t := [c] + b;
    assert DigitsOnly(t) == DigitsOnly(b) by {
      assert t[0] == c && t[1..] == b;
    }
    assert DigitsOnly(a) == a by {
      DigitsOnlyOfDigits(a);
    }
    DigitsOnlyAppend(a, t);
  }

  /** 529.982.247-25, the test suite's valid CPF: its two check digits. */
  lemma SampleCheckDigits(d: string)
    requires d == "52998224725"
    ensures AllDigits(d)
    ensures DigitValue(d[9]) == CheckDigit(WeightedSum(d, 9, 10))
    ensures DigitValue(d[10]) == CheckDigit(WeightedSum(d, 10, 11))
  {
    assert AllDigits(d);
    assert WeightedSum(d, 1, 10) == 50;
    assert WeightedSum(d, 2, 10) == 68;
    assert WeightedSum(d, 3, 10) == 140;
    assert WeightedSum(d, 4, 10) == 203;
    assert WeightedSum(d, 5, 10) == 251;
    assert WeightedSum(d, 6, 10) == 261;
    assert WeightedSum(d, 7, 10) == 269;
    assert WeightedSum(d, 8, 10) == 281;
    assert WeightedSum(d, 9, 10) == 295;
    assert WeightedSum(d, 1, 11) == 55;
    assert WeightedSum(d, 2, 11) == 75;
    assert WeightedSum(d, 3, 11) == 156;
    assert WeightedSum(d, 4, 11) == 228;
    assert WeightedSum(d, 5, 11) == 284;
    assert WeightedSum(d, 6, 11) == 296;
    assert WeightedSum(d, 7, 11) == 306;
    assert WeightedSum(d, 8, 11) == 322;
    assert WeightedSum(d, 9, 11) == 343;
    assert WeightedSum(d, 10, 11) == 347;
  }

  /** 529.982.247-25 without its punctuation is a valid CPF. */
  lemma SampleCpfIsValid(cpf: string)
    requires cpf == "52998224725"
    ensures CpfValid(cpf)
  {
    SampleCheckDigits(cpf);
    DigitsOnlyOfDigits(cpf);
    assert !AllSame(cpf) by { assert cpf[1] != cpf[0]; }
  }

  /** The same CPF written with its punctuation is valid too. */
  lemma SampleFormattedCpfIsValid(cpf: string)
    requires cpf == "529.982.247-25"
    ensures CpfValid(cpf)
  {
    var t2 := "247" + (['-'] + "25");
    var t4 := "982" + (['.'] + t2);
    assert DigitsOnly(cpf) == "52998224725" by {
      assert cpf == "529" + (['.'] + t4);
      DropSeparator("247", '-', "25");
      DropSeparator("982", '.', t2);
      DropSeparator("529", '.', t4);
    }
    CpfIgnoresPunctuation(cpf);
    SampleCpfIsValid(DigitsOnly(cpf));
  }

  /** RG validity also ignores punctuation. */
  lemma {:induction false} AlphanumericOnlyIdempotent(s: string)
    ensures AlphanumericOnly(AlphanumericOnly(s)) == AlphanumericOnly(s)
    decreases |s|
  {
    if s != [] {
      AlphanumericOnlyIdempotent(s[1..]);
      var head := if IsAsciiAlphanumeric(s[0]) then [s[0]] else [];
      AlphanumericOnlyAppend(head, AlphanumericOnly(s[1..]));
    }
  }

  lemma {:induction false} AlphanumericOnlyAppend(a: string, b: string)
    ensures AlphanumericOnly(a + b) == AlphanumericOnly(a) + AlphanumericOnly(b)
    decreases |a|
  {
    if a != [] {
      var head := if IsAsciiAlphanumeric(a[0]) then [a[0]] else [];
      assert (a + b)[0] == a[0] && (a + b)[1..] == a[1..] + b;
      assert AlphanumericOnly(a + b) == head + AlphanumericOnly(a[1..] + b);
      AlphanumericOnlyAppend(a[1..], b);
      assert AlphanumericOnly(a) == head + AlphanumericOnly(a[1..]);
    } else {
      assert a + b == b;
    }
  }

  /** The test suite's RG samples: "12.345.678-9" passes, "123456" does not. */
  lemma SampleRgs(p: Passenger, valid: string, invalid: string)
    requires valid == "12.345.678-9" && invalid == "123456"
    ensures p.(rg := valid).ValidateRG()
    ensures !p.(rg := invalid).ValidateRG()
  {
    var t2 := "678" + (['-'] + "9");
    var t4 := "345" + (['.'] + t2);
    assert valid == "12" + (['.'] + t4);
    KeepAlphanumeric("678", '-', "9");
    KeepAlphanumeric("345", '.', t2);
    KeepAlphanumeric("12", '.', t4);
  }

  /** Removing a character other than an ASCII letter or digit, wherever
      it stands, never changes the RG check. */
  lemma RgIgnoresPunctuation(p: Passenger, a: string, c: char, b: string)
    requires !IsAsciiAlphanumeric(c)
    ensures p.(rg := a + [c] + b).ValidateRG() == p.(rg := a + b).ValidateRG()
  {
    assert a + [c] + b == a + ([c] + b);
    assert AlphanumericOnly([c] + b) == AlphanumericOnly(b) by {
      assert ([c] + b)[0] == c && ([c] + b)[1..] == b;
    }
    AlphanumericOnlyAppend(a, [c] + b);
    AlphanumericOnlyAppend(a, b);
  }

  /** An RG of ASCII letters and digits alone passes exactly when it has
      at least eight of them. */
  lemma RgOfAlphanumerics(p: Passenger, rg: string)
    requires forall k :: 0 <= k < |rg| ==> IsAsciiAlphanumeric(rg[k])
    ensures p.(rg := rg).ValidateRG() <==> |rg| >= 8
  {
    AlphanumericOnlyOfAlphanumeric(rg);
  }

  lemma {:induction false} AlphanumericOnlyOfAlphanumeric(s: string)
    requires forall k :: 0 <= k < |s| ==> IsAsciiAlphanumeric(s[k])
    ensures AlphanumericOnly(s) == s
    decreases |s|
  {
    if s != [] { AlphanumericOnlyOfAlphanumeric(s[1..]); }
  }

  /** Dropping a separator between a run of letters and digits and the rest. */
  lemma KeepAlphanumeric(a: string, c: char, b: string)
    requires forall k :: 0 <= k < |a| ==> IsAsciiAlphanumeric(a[k])
    requires !IsAsciiAlphanumeric(c)
    ensures AlphanumericOnly(a + ([c] + b)) == a + AlphanumericOnly(b)
  {
    var t := [c] + b;
    assert AlphanumericOnly(t) == AlphanumericOnly(b) by {
      assert t[0] == c && t[1..] == b;
    }
    assert AlphanumericOnly(a) == a by {
      AlphanumericOnlyOfAlphanumeric(a);
    }
    AlphanumericOnlyAppend(a, t);
  }

  /** The first comparison is implied by the second: the birth date is
      valid exactly when its second anniversary is not after today. */
  lemma BirthDateNeedsTwoYears(p: Passenger, today: Date)
    requires ValidDateTime(p.birthDate) && ValidDate(today) && p.birthDate.date.year <= 9997
    ensures p.ValidateBirthDate(today) == Some(AtOrBefore(AddYears(p.birthDate, 2).value, Midnight(today)))
  {
    AddYearsIsLater(p.birthDate, 2);
    AtOrBeforeIsTotalOrder(p.birthDate, AddYears(p.birthDate, 2).value, Midnight(today));
  }

  /** A birth time later today, a birth date after today, or one year
      back, is rejected; 1 January 1990 is accepted from 1 January 1992 on. */
  lemma SampleBirthDates(p: Passenger, today: Date)
    requires ValidDate(today) && today.year <= 9997
    ensures ValidDateTime(p.birthDate) && p.birthDate.date == today && p.birthDate.ticks > 0
      ==> p.ValidateBirthDate(today) == Some(false)
    ensures ValidDateTime(p.birthDate) && DateBefore(today, p.birthDate.date)
      ==> p.ValidateBirthDate(today) == Some(false)
    ensures today.year >= 2 && ValidDateTime(p.birthDate) && Some(p.birthDate) == AddYears(Midnight(today), -1)
      ==> p.ValidateBirthDate(today) == Some(false)
    ensures p.birthDate == Midnight(Date(1990, 1, 1)) && today.year >= 1992
      ==> p.ValidateBirthDate(today) == Some(true)
  {
    if today.year >= 2 && ValidDateTime(p.birthDate) && Some(p.birthDate) == AddYears(Midnight(today), -1) {
      BirthDateNeedsTwoYears(p, today);
    }
  }
}
