/**
 * `IndexServer.getChineseNumber`: every ASCII digit of a text is written
 * as its Chinese numeral (〇一二三四五六七八九) and every other character
 * is dropped.  The page uses it to print the Gregorian year and day.
 */
module IndexServer {
  import opened Wrappers

  /** The ten numerals, indexed by the digit they stand for. */
  const Numerals: string := "〇一二三四五六七八九"

  predicate IsDigit(c: char) {
    '0' <= c <= '9'
  }

  /** The text one character of the input adds: a numeral for a digit, nothing otherwise. */
  function DigitName(c: char): (r: string)
    ensures IsDigit(c) <==> |r| == 1
    ensures !IsDigit(c) <==> r == []
  {
    match c
    case '0' => "〇"
    case '1' => "一"
    case '2' => "二"
    case '3' => "三"
    case '4' => "四"
    case '5' => "五"
    case '6' => "六"
    case '7' => "七"
    case '8' => "八"
    case '9' => "九"
    case _ => ""
  }

  /** The digit a numeral stands for: the inverse of `DigitName`. */
  function NumeralValue(n: char): (r: Option<char>)
    ensures r.Some? <==> n in Numerals
    ensures r.Some? ==> IsDigit(r.value) && DigitName(r.value) == [n]
  {
    if n == '〇' then Some('0')
    else if n == '一' then Some('1')
    else if n == '二' then Some('2')
    else if n == '三' then Some('3')
    else if n == '四' then Some('4')
    else if n == '五' then Some('5')
    else if n == '六' then Some('6')
    else if n == '七' then Some('7')
    else if n == '八' then Some('8')
    else if n == '九' then Some('9')
    else None
  }

  /** The digits of `s`, in order. */
  function Digits(s: string): (r: string)
    ensures |r| <= |s|
    ensures forall i :: 0 <= i < |r| ==> IsDigit(r[i])
  {
    if |s| == 0 then ""
    else Digits(s[..|s| - 1]) + (if IsDigit(s[|s| - 1]) then [s[|s| - 1]] else "")
  }

  /** What `getChineseNumber(s)` returns: the numerals of the digits of `s`, left to right. */
  function ChineseNumber(s: string): (r: string)
    ensures |r| <= |s|
  {
    if |s| == 0 then ""
    else ChineseNumber(s[..|s| - 1]) + DigitName(s[|s| - 1])
  }

  /** Reads a string of numerals back as digits, dropping anything else. */
  function ArabicNumber(t: string): (r: string)
    ensures |r| <= |t|
  {
    if |t| == 0 then ""
    else
      var n := NumeralValue(t[|t| - 1]);
      ArabicNumber(t[..|t| - 1]) + (if n.Some? then [n.value] else "")
  }

  /** The loop of `getChineseNumber`: one `when` per character, appending its numeral. */
  method GetChineseNumber(text: string) returns (chineseNumber: string)
    ensures chineseNumber == ChineseNumber(text)
  {
    chineseNumber := "";
    var i := 0;
    while i < |text|
      invariant 0 <= i <= |text|
      invariant chineseNumber == ChineseNumber(text[..i])
    {
      var baseChar := text[i];
      assert text[..i + 1][..i] == text[..i];
      if baseChar == '0' {
        chineseNumber := chineseNumber + "〇";
      } else if baseChar == '1' {
        chineseNumber := chineseNumber + "一";
      } else if baseChar == '2' {
        chineseNumber := chineseNumber + "二";
      } else if baseChar == '3' {
        chineseNumber := chineseNumber + "三";
      } else if baseChar == '4' {
        chineseNumber := chineseNumber + "四";
      } else if baseChar == '5' {
        chineseNumber := chineseNumber + "五";
      } else if baseChar == '6' {
        chineseNumber := chineseNumber + "六";
      } else if baseChar == '7' {
        chineseNumber := chineseNumber + "七";
      } else if baseChar == '8' {
        chineseNumber := chineseNumber + "八";
      } else if baseChar == '9' {
        chineseNumber := chineseNumber + "九";
      }
      i := i + 1;
    }
    assert text[..i] == text;
  }

  /** Converting two texts one after the other gives the conversion of their concatenation. */
  lemma {:induction false} ChineseNumberAppend(a: string, b: string)
    ensures ChineseNumber(a + b) == ChineseNumber(a) + ChineseNumber(b)
    decreases |b|
  {
    if |b| == 0 {
      assert a + b == a;
    } else {
      var b' := b[..|b| - 1];
      var d := DigitName(b[|b| - 1]);
      assert (a + b)[..|a + b| - 1] == a + b';
      assert ChineseNumber(a + b) == ChineseNumber(a + b') + d;
      assert ChineseNumber(b) == ChineseNumber(b') + d;
      ChineseNumberAppend(a, b');
      assert ChineseNumber(a) + ChineseNumber(b') + d == ChineseNumber(a) + (ChineseNumber(b') + d);
    }
  }

  lemma {:induction false} ArabicNumberAppend(a: string, b: string)
    ensures ArabicNumber(a + b) == ArabicNumber(a) + ArabicNumber(b)
    decreases |b|
  {
    if |b| == 0 {
      assert a + b == a;
    } else {
      var b' := b[..|b| - 1];
      assert (a + b)[..|a + b| - 1] == a + b';
      ArabicNumberAppend(a, b');
    }
  }

  /** Reading the numerals back gives exactly the digits of the input. */
  lemma {:induction false} ReadBack(s: string)
    ensures ArabicNumber(ChineseNumber(s)) == Digits(s)
    decreases |s|
  {
    if |s| > 0 {
      var p := s[..|s| - 1];
      var c := s[|s| - 1];
      ReadBack(p);
      ArabicNumberAppend(ChineseNumber(p), DigitName(c));
      NumeralReadsBack(c);
    }
  }

  /** The numeral of one character reads back as that character, if it was a digit. */
  lemma NumeralReadsBack(c: char)
    ensures ArabicNumber(DigitName(c)) == if IsDigit(c) then [c] else ""
  {
    if IsDigit(c) {
      var n := DigitName(c)[0];
      assert DigitName(c) == [n];
      assert [n][..0] == [];
      assert NumeralValue(n) == Some(c);
    }
  }

  /** Each digit's numeral is its entry in the table 〇一二…九. */
  lemma DigitNameInTable(c: char)
    requires IsDigit(c)
    ensures DigitName(c) == [Numerals[c as int - '0' as int]]
  {
  }

  /** One numeral per digit of the input. */
  lemma {:induction false} NumeralCount(s: string)
    ensures |ChineseNumber(s)| == |Digits(s)|
    decreases |s|
  {
    if |s| > 0 {
      NumeralCount(s[..|s| - 1]);
    }
  }

  /** The result holds numerals only. */
  lemma {:induction false} OnlyNumerals(s: string)
    ensures forall i :: 0 <= i < |ChineseNumber(s)| ==> ChineseNumber(s)[i] in Numerals
    decreases |s|
  {
    if |s| > 0 {
      OnlyNumerals(s[..|s| - 1]);
    }
  }

  /** A text of digits only is read back unchanged. */
  lemma {:induction false} DigitsOfDigitText(s: string)
    requires forall i :: 0 <= i < |s| ==> IsDigit(s[i])
    ensures Digits(s) == s
    decreases |s|
  {
    if |s| > 0 {
      DigitsOfDigitText(s[..|s| - 1]);
      assert s[..|s| - 1] + [s[|s| - 1]] == s;
    }
  }

  /** Characters other than digits leave no trace: only the digits decide the result. */
  lemma {:induction false} OnlyDigitsMatter(s: string)
    ensures ChineseNumber(Digits(s)) == ChineseNumber(s)
    decreases |s|
  {
    if |s| > 0 {
      var p := s[..|s| - 1];
      var c := s[|s| - 1];
      OnlyDigitsMatter(p);
      var tail: string := if IsDigit(c) then [c] else "";
      ChineseNumberAppend(Digits(p), tail);
      if IsDigit(c) {
        assert ([] + tail)[..0] == [];
        assert ChineseNumber(tail) == DigitName(c);
      }
    }
  }

  /** Two texts give the same numeral string exactly when they hold the same digits. */
  lemma SameNumeralsIffSameDigits(a: string, b: string)
    ensures ChineseNumber(a) == ChineseNumber(b) <==> Digits(a) == Digits(b)
  {
    ReadBack(a);
    ReadBack(b);
    OnlyDigitsMatter(a);
    OnlyDigitsMatter(b);
  }

  /** A digit-only text round-trips: numerals, then digits, gives the text back. */
  lemma DigitTextRoundTrip(s: string)
    requires forall i :: 0 <= i < |s| ==> IsDigit(s[i])
    ensures ArabicNumber(ChineseNumber(s)) == s
    ensures |ChineseNumber(s)| == |s|
  {
    ReadBack(s);
    DigitsOfDigitText(s);
    NumeralCount(s);
  }

  /** The page's year line: `2019` is written 二〇一九. */
  lemma Year2019()
    ensures ChineseNumber("2019") == "二〇一九"
  {
    assert "2019"[..3] == "201";
    assert "201"[..2] == "20";
    assert "20"[..1] == "2";
    assert "2"[..0] == "";
  }
}
