/** How days and settlement files are named (internal/settlement/engine.go:187, 192, 327). */
module Stamps {
  import opened Tables
  import opened Calendar
  import opened Decimals

  function YearDigits(year: int): string {
    if year < 0 then "-" + Digits(-year, 4) else Digits(year, 4)
  }

  function TwoDigits(n: nat): string {
    Digits(n, 2)
  }

  /** Format("2006-01-02"). */
  function Stamp(day: Date): string
    requires IsDate(day)
  {
    YearDigits(day.year) + "-" + TwoDigits(day.month) + "-" + TwoDigits(day.day)
  }

  /** The date a stamp shows: a year, perhaps signed, and two digits each for month and day. */
  predicate Shows(stamp: string, d: Date) {
    var n := |stamp|;
    && n > 6 && stamp[n - 6] == '-' && stamp[n - 3] == '-'
    && IsDecimal(stamp[n - 5..n - 3]) && ReadDecimal(stamp[n - 5..n - 3]) == d.month
    && IsDecimal(stamp[n - 2..]) && ReadDecimal(stamp[n - 2..]) == d.day
    && ShowsYear(stamp[..n - 6], d.year)
  }

  predicate ShowsYear(s: string, year: int)
    requires s != []
  {
    if s[0] == '-' then IsDecimal(s[1..]) && ReadDecimal(s[1..]) == -year
    else IsDecimal(s) && ReadDecimal(s) == year
  }

  lemma {:induction false} YearIsShown(year: int)
    ensures var s := YearDigits(year);
      && s != [] && ShowsYear(s, year)
      && (0 <= year <= 9999 ==> |s| == 4 && IsDecimal(s) && ReadDecimal(s) == year)
  {
    if year < 0 {
      DigitsReadBack(-year, 4);
      assert ("-" + Digits(-year, 4))[1..] == Digits(-year, 4);
    } else {
      DigitsReadBack(year, 4);
      assert PowerOfTen(1) == 10 && PowerOfTen(2) == 100 && PowerOfTen(3) == 1000 && PowerOfTen(4) == 10000;
    }
  }

  lemma {:induction false} TwoDigitsReadBack(n: nat)
    requires n < 100
    ensures |TwoDigits(n)| == 2 && IsDecimal(TwoDigits(n)) && ReadDecimal(TwoDigits(n)) == n
  {
    DigitsReadBack(n, 2);
    assert PowerOfTen(1) == 10 && PowerOfTen(2) == 100;
  }

  /** The groups of a stamp, put together. */
  lemma {:induction false} GroupsShow(y: string, m: string, k: string, d: Date)
    requires y != [] && ShowsYear(y, d.year)
    requires |m| == 2 && IsDecimal(m) && ReadDecimal(m) == d.month
    requires |k| == 2 && IsDecimal(k) && ReadDecimal(k) == d.day
    ensures var s := y + "-" + m + "-" + k;
      |s| == |y| + 6 && s[..|y|] == y && Shows(s, d)
  {
    var s := y + "-" + m + "-" + k;
    assert s[..|y|] == y && s[|y| + 1..|y| + 3] == m && s[|y| + 4..] == k;
  }

  lemma {:induction false} StampShows(d: Date)
    requires IsDate(d)
    ensures Shows(Stamp(d), d)
    ensures 0 <= d.year <= 9999 ==> |Stamp(d)| == 10
  {
    YearIsShown(d.year);
    TwoDigitsReadBack(d.month);
    TwoDigitsReadBack(d.day);
    GroupsShow(YearDigits(d.year), TwoDigits(d.month), TwoDigits(d.day), d);
  }

  /** A stamp of a year from 0 to 9999 is YYYY-MM-DD. */
  lemma {:induction false} StampReadsBack(d: Date)
    requires IsDate(d) && 0 <= d.year <= 9999
    ensures var s := Stamp(d);
      && |s| == 10 && s[4] == '-' && s[7] == '-'
      && IsDecimal(s[..4]) && ReadDecimal(s[..4]) == d.year
      && IsDecimal(s[5..7]) && ReadDecimal(s[5..7]) == d.month
      && IsDecimal(s[8..]) && ReadDecimal(s[8..]) == d.day
  {
    StampShows(d);
    YearComesFirst(d);
  }

  lemma {:induction false} YearComesFirst(d: Date)
    requires IsDate(d) && 0 <= d.year <= 9999
    ensures |Stamp(d)| >= 4 && IsDecimal(Stamp(d)[..4])
  {
    YearIsShown(d.year);
    assert Stamp(d)[..4] == YearDigits(d.year);
  }

  /** What shows two dates shows one. */
  lemma {:induction false} ShowsOne(s: string, d: Date, e: Date)
    requires Shows(s, d) && Shows(s, e)
    ensures d == e
  {
  }

  /** Different days have different stamps. */
  lemma {:induction false} StampsIdentify(d: Date, e: Date)
    requires IsDate(d) && IsDate(e) && Stamp(d) == Stamp(e)
    ensures d == e
  {
    StampShows(d);
    StampShows(e);
    ShowsOne(Stamp(d), d, e);
  }

  /** The file of a correspondent for a day: only eight characters of the correspondent enter. */
  function FileName(c: CorrespondentId, stamp: string): string
    requires |c| >= 8
  {
    "settlement_" + c[..8] + "_" + stamp + ".json"
  }

  lemma {:induction false} NamesShowEightCharacters(c: CorrespondentId, e: CorrespondentId, stamp: string)
    requires |c| >= 8 && |e| >= 8
    ensures FileName(c, stamp) == FileName(e, stamp) <==> c[..8] == e[..8]
  {
    assert |"settlement_"| == 11;
    assert FileName(c, stamp)[11..19] == c[..8];
    assert FileName(e, stamp)[11..19] == e[..8];
  }

  /** Two files have the same name exactly when they are of the same day and their correspondents agree in
      eight characters. */
  lemma {:induction false} NamesShowDayAndEight(c: CorrespondentId, d: Date, e: CorrespondentId, f: Date)
    requires |c| >= 8 && |e| >= 8 && IsDate(d) && IsDate(f)
    ensures FileName(c, Stamp(d)) == FileName(e, Stamp(f)) <==> c[..8] == e[..8] && d == f
  {
    NameReadsBack(c, Stamp(d));
    NameReadsBack(e, Stamp(f));
    if FileName(c, Stamp(d)) == FileName(e, Stamp(f)) {
      StampsIdentify(d, f);
      NamesShowEightCharacters(c, e, Stamp(d));
    }
  }

  /** The name is that of a file with the stamp. */
  predicate HasStamp(name: string, stamp: string) {
    |name| >= 25 && name[20..|name| - 5] == stamp
  }

  /** What a name shows, and of which stamp it is. */
  lemma {:induction false} NameReadsBack(c: CorrespondentId, stamp: string)
    requires |c| >= 8
    ensures var name := FileName(c, stamp);
      && |name| == |stamp| + 25
      && name[..11] == "settlement_" && name[11..19] == c[..8] && name[19] == '_'
      && name[20..|name| - 5] == stamp && name[|name| - 5..] == ".json"
    ensures forall other :: HasStamp(FileName(c, stamp), other) <==> other == stamp
  {
    var name, front := FileName(c, stamp), "settlement_" + c[..8] + "_";
    assert |"settlement_"| == 11 && |".json"| == 5;
    assert name == front + stamp + ".json" && |front| == 20;
    assert name[..11] == "settlement_" && name[11..19] == c[..8];
    assert name[20..|name| - 5] == stamp && name[|name| - 5..] == ".json";
  }
}
