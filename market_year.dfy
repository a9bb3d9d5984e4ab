/** The market-year classifier `market_year_flag` (setup.py:55-91): futures
    expire-month letters, their calendar months, and the crop-year label of a
    contract. A crop year runs from September (letter U) to the following
    August (letter Q). */
module MarketYear {
  import opened Results
  import opened Decimal

  /** The twelve expire-month letters, in calendar order. */
  const CODES: string := "FGHJKMNQUVXZ"

  /** The dictionary `exp_month_to_num` (setup.py:68-81). Its keys are
      one-letter strings; the map is keyed by that letter. */
  const MONTH_OF_LETTER: map<char, nat> := map[
    'F' := 1, 'G' := 2, 'H' := 3, 'J' := 4, 'K' := 5, 'M' := 6,
    'N' := 7, 'Q' := 8, 'U' := 9, 'V' := 10, 'X' := 11, 'Z' := 12]

  /** A failed dictionary lookup: Python raises KeyError with the missing key. */
  datatype ClassifyError = InvalidMonthCode(code: string)

  /** `code in exp_month_to_num`: a one-letter string whose letter is a key. */
  predicate IsMonthCode(code: string) {
    |code| == 1 && code[0] in MONTH_OF_LETTER
  }

  /** `exp_month_to_num[code]` for a key of the dictionary. */
  function MonthOf(code: string): (month: nat)
    requires IsMonthCode(code)
    ensures 1 <= month <= 12 && CODES[month - 1] == code[0]
  {
    MONTH_OF_LETTER[code[0]]
  }

  /** The contract expiring in `month` of `year` falls inside the crop year
      that starts in September of `start` and ends in August of `start + 1`.
      Months are counted from year 0 so the window is one interval. */
  predicate InCropYear(year: int, month: int, start: int) {
    start * 12 + 9 <= year * 12 + month <= start * 12 + 20
  }

  /** The first calendar year of the crop year holding (year, month), by
      arithmetic on the month count rather than by cases. */
  function CropYearOf(year: int, month: int): (start: int)
    requires 1 <= month <= 12
    ensures InCropYear(year, month, start)
    ensures forall s :: InCropYear(year, month, s) ==> s == start
  {
    (year * 12 + month - 9) / 12
  }

  /** The label `f'{start}/{str(start + 1)[-2:]}'` of the crop year starting in `start`. */
  function CropYearLabel(start: int): string {
    IntToString(start) + "/" + LastTwo(IntToString(start + 1))
  }

  /** market_year_flag(exp_year, exp_month). The dictionary lookup fails on
      an unknown letter; otherwise the two branches at setup.py:88-91 are
      exhaustive, so the Python function never falls through to None. */
  function MarketYearFlag(expYear: int, expMonth: string): (r: Result<string, ClassifyError>)
    ensures r.Err? <==> !IsMonthCode(expMonth)
    ensures r.Err? ==> r.error == InvalidMonthCode(expMonth)
    ensures r.Ok? ==> r.value == CropYearLabel(CropYearOf(expYear, MonthOf(expMonth)))
  {
    var myBeg := MONTH_OF_LETTER['U'];
    var myEnd := MONTH_OF_LETTER['Q'];
    if !IsMonthCode(expMonth) then
      Err(InvalidMonthCode(expMonth))
    else
      var cExpMonth := MonthOf(expMonth);
      if cExpMonth >= myBeg then
        assert InCropYear(expYear, cExpMonth, expYear);
        Ok(IntToString(expYear) + "/" + LastTwo(IntToString(expYear + 1)))
      else if cExpMonth <= myEnd then
        assert InCropYear(expYear, cExpMonth, expYear - 1) && expYear - 1 + 1 == expYear;
        Ok(IntToString(expYear - 1) + "/" + LastTwo(IntToString(expYear)))
      else
        assert false; Err(InvalidMonthCode(expMonth))
  }

  /** The letters map to the months 1..12 in calendar order, and only they are keys. */
  lemma MonthTable()
    ensures |CODES| == 12
    ensures forall i :: 0 <= i < 12 ==> CODES[i] in MONTH_OF_LETTER && MONTH_OF_LETTER[CODES[i]] == i + 1
    ensures forall letter :: letter in MONTH_OF_LETTER <==> letter in CODES
  {
  }

  /** No two letters share a month, so every month has exactly one letter. */
  lemma MonthTableInjective(a: string, b: string)
    requires IsMonthCode(a) && IsMonthCode(b)
    requires MonthOf(a) == MonthOf(b)
    ensures a == b
  {
  }

  /** The two branches split the twelve letters: U, V, X and Z take the first
      branch, the other eight the second, and none takes both or neither. */
  lemma BranchesPartitionCodes(code: string)
    requires IsMonthCode(code)
    ensures (MonthOf(code) >= MonthOf("U")) <==> code[0] in "UVXZ"
    ensures (MonthOf(code) >= MonthOf("U")) != (MonthOf(code) <= MonthOf("Q"))
  {
  }

  /** From September on, the label is "Y/(Y+1 mod 100, two digits)". */
  lemma LateMonthLabel(year: int, code: string)
    requires IsMonthCode(code) && MonthOf(code) >= 9
    requires year >= 9
    ensures MarketYearFlag(year, code) == Ok(IntToString(year) + "/" + TwoDigits((year + 1) % 100))
  {
    LastTwoDigits(year + 1);
  }

  /** Up to August, the label is "(Y-1)/(Y mod 100, two digits)". */
  lemma EarlyMonthLabel(year: int, code: string)
    requires IsMonthCode(code) && MonthOf(code) <= 8
    requires year >= 10
    ensures MarketYearFlag(year, code) == Ok(IntToString(year - 1) + "/" + TwoDigits(year % 100))
  {
    LastTwoDigits(year);
  }

  lemma NumeralsOf2023To2025()
    ensures IntToString(2023) == "2023" && IntToString(2024) == "2024" && IntToString(2025) == "2025"
  {
    assert NatToString(20) == [DigitChar(2), DigitChar(0)] == "20";
    assert NatToString(202) == NatToString(20) + [DigitChar(2)] == "202";
    assert NatToString(2023) == NatToString(202) + [DigitChar(3)] == "2023";
    assert NatToString(2024) == NatToString(202) + [DigitChar(4)] == "2024";
    assert NatToString(2025) == NatToString(202) + [DigitChar(5)] == "2025";
  }

  lemma SeptemberOf2024()
    ensures MarketYearFlag(2024, "U") == Ok("2024/25")
  {
    NumeralsOf2023To2025();
    assert LastTwo("2025") == "25";
    assert "2024" + "/" + "25" == "2024/25";
  }

  lemma JanuaryOf2024()
    ensures MarketYearFlag(2024, "F") == Ok("2023/24")
  {
    NumeralsOf2023To2025();
    assert LastTwo("2024") == "24";
    assert "2023" + "/" + "24" == "2023/24";
  }

  lemma SeptemberOf2023()
    ensures MarketYearFlag(2023, "U") == Ok("2023/24")
  {
    NumeralsOf2023To2025();
    assert LastTwo("2024") == "24";
    assert "2023" + "/" + "24" == "2023/24";
  }

  /** Both branches on concrete contracts: the September contracts of 2023
      and 2024 are in 2023/24 and 2024/25, the January contract of 2024 is
      in 2023/24. */
  lemma SeptemberAndJanuaryLabels()
    ensures MarketYearFlag(2023, "U") == Ok("2023/24")
    ensures MarketYearFlag(2024, "U") == Ok("2024/25")
    ensures MarketYearFlag(2024, "F") == Ok("2023/24")
  {
    SeptemberOf2023();
    SeptemberOf2024();
    JanuaryOf2024();
  }

  /** Two contracts expiring in the same crop year get the same label. */
  lemma CropYearContinuity(y1: int, c1: string, y2: int, c2: string, start: int)
    requires IsMonthCode(c1) && IsMonthCode(c2)
    requires InCropYear(y1, MonthOf(c1), start)
    requires InCropYear(y2, MonthOf(c2), start)
    ensures MarketYearFlag(y1, c1) == MarketYearFlag(y2, c2)
  {
  }

  /** Across the boundary: the August contract of Y+1 and the September
      contract of Y belong to the crop year Y/Y+1. */
  lemma AugustAndSeptemberShareLabel(year: int)
    ensures MarketYearFlag(year + 1, "Q") == MarketYearFlag(year, "U")
    ensures MarketYearFlag(year, "U") == Ok(CropYearLabel(year))
  {
    CropYearContinuity(year + 1, "Q", year, "U", year);
  }

  lemma {:induction false} CropYearLabelInjective(s1: int, s2: int)
    requires s1 >= 9 && s2 >= 9
    requires CropYearLabel(s1) == CropYearLabel(s2)
    ensures s1 == s2
  {
    var l := CropYearLabel(s1);
    LastTwoDigits(s1 + 1);
    LastTwoDigits(s2 + 1);
    assert IntToString(s1) == l[..|l| - 3];
    assert IntToString(s2) == l[..|l| - 3];
    IntToStringInjective(s1, s2);
  }

  /** Labels tell crop years apart: two contracts get the same label exactly
      when they expire in the same crop year. */
  lemma SameLabelIffSameCropYear(y1: int, c1: string, y2: int, c2: string)
    requires IsMonthCode(c1) && IsMonthCode(c2)
    requires y1 >= 10 && y2 >= 10
    ensures MarketYearFlag(y1, c1) == MarketYearFlag(y2, c2)
        <==> CropYearOf(y1, MonthOf(c1)) == CropYearOf(y2, MonthOf(c2))
  {
    var s1 := CropYearOf(y1, MonthOf(c1));
    var s2 := CropYearOf(y2, MonthOf(c2));
    if MarketYearFlag(y1, c1) == MarketYearFlag(y2, c2) {
      CropYearLabelInjective(s1, s2);
    }
  }
}
