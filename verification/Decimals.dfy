/** Numbers written in decimal: how wide they are, and that they read back.  The NUMERIC columns of the tables
    are so many digits wide (db/migrations/003_transfers.sql, db/migrations/007_settlement_batches.sql). */
module Decimals {
  import opened Tables

  const DIGITS := "0123456789"

  /** Decimal, padded with zeros to the width. */
  function Digits(n: nat, width: nat): string
    decreases n + width
  {
    if n < 10 && width <= 1 then [DIGITS[n]]
    else Digits(n / 10, if width > 0 then width - 1 else 0) + [DIGITS[n % 10]]
  }

  predicate IsDecimal(s: string) {
    s != [] && forall i :: 0 <= i < |s| ==> '0' <= s[i] <= '9'
  }

  /** What a string of digits says. */
  function ReadDecimal(s: string): int
    requires forall i :: 0 <= i < |s| ==> '0' <= s[i] <= '9'
  {
    if s == [] then 0 else 10 * ReadDecimal(s[..|s| - 1]) + (s[|s| - 1] - '0') as int
  }

  function PowerOfTen(k: nat): nat {
    if k == 0 then 1 else 10 * PowerOfTen(k - 1)
  }

  lemma {:induction false} DigitIs(n: nat)
    requires n < 10
    ensures '0' <= DIGITS[n] <= '9' && (DIGITS[n] - '0') as int == n
  {
  }

  lemma {:induction false} TensAndUnits(s: string)
    requires IsDecimal(s)
    ensures |s| == 1 ==> ReadDecimal(s) == (s[0] - '0') as int
    ensures |s| > 1 ==> IsDecimal(s[..|s| - 1])
  {
    assert |s| == 1 ==> s[..0] == [];
  }

  lemma {:induction false} OneDigitMore(s: string, n: nat)
    requires IsDecimal(s) && n < 10
    ensures IsDecimal(s + [DIGITS[n]]) && ReadDecimal(s + [DIGITS[n]]) == 10 * ReadDecimal(s) + n
  {
    DigitIs(n);
    assert (s + [DIGITS[n]])[..|s|] == s;
  }

  /** A number that is written reads back, and fills the width exactly when it is small enough. */
  lemma {:induction false} DigitsReadBack(n: nat, width: nat)
    ensures IsDecimal(Digits(n, width)) && ReadDecimal(Digits(n, width)) == n
    ensures |Digits(n, width)| >= width
    ensures width >= 1 ==> (|Digits(n, width)| == width <==> n < PowerOfTen(width))
    decreases n + width
  {
    if n < 10 && width <= 1 {
      DigitIs(n);
      TensAndUnits(Digits(n, width));
      assert PowerOfTen(1) == 10;
    } else {
      var less := if width > 0 then width - 1 else 0;
      DigitsReadBack(n / 10, less);
      OneDigitMore(Digits(n / 10, less), n % 10);
      assert PowerOfTen(1) == 10;
    }
  }

  lemma {:induction false} TwelveAndFourteen()
    ensures PowerOfTen(12) == NUMERIC_LIMIT && PowerOfTen(14) == BATCH_TOTAL_LIMIT
  {
    assert PowerOfTen(2) == 10 * PowerOfTen(1) == 100;
    assert PowerOfTen(4) == 10 * PowerOfTen(3) == 100 * PowerOfTen(2);
    assert PowerOfTen(6) == 10 * PowerOfTen(5) == 100 * PowerOfTen(4);
    assert PowerOfTen(8) == 10 * PowerOfTen(7) == 100 * PowerOfTen(6);
    assert PowerOfTen(10) == 10 * PowerOfTen(9) == 100 * PowerOfTen(8);
    assert PowerOfTen(12) == 10 * PowerOfTen(11) == 100 * PowerOfTen(10);
    assert PowerOfTen(14) == 10 * PowerOfTen(13) == 100 * PowerOfTen(12);
  }

  /** An amount is valid exactly when it is positive and NUMERIC(12,2) holds it: its cents take no more than
      twelve digits. */
  lemma {:induction false} ValidAmountsHaveTwelveDigits(cents: int)
    ensures ValidAmount(cents) <==> cents > 0 && |Digits(cents, 12)| == 12
  {
    if cents > 0 {
      DigitsReadBack(cents, 12);
      TwelveAndFourteen();
    }
  }

  /** A batch fits exactly when its count is an INT and NUMERIC(14,2) holds its total. */
  lemma {:induction false} BatchTotalsHaveFourteenDigits(recordCount: nat, totalAmount: nat)
    ensures FitsBatch(recordCount, totalAmount) <==>
      recordCount <= 2_147_483_647 && |Digits(totalAmount, 14)| == 14
  {
    DigitsReadBack(totalAmount, 14);
    TwelveAndFourteen();
  }
}
