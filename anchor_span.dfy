/**
 * The Chinese years between the two anchors of the conversion, 1900/11/11
 * (1901-01-01) and 1999/11/25 (2000-01-01), counted out from the packed
 * month table: the day numbers of both anchors, which show that the anchors
 * describe the same correspondence.
 */
module AnchorSpan {
  import opened CalendarTables
  import opened LunarMonths
  import opened LunarYears

  /** The length of table year `i` from its two bytes. */
  lemma LengthFromBytes(i: int, k0: int, k1: int, b0: nat, b1: nat)
    requires 0 <= i <= 200 && k0 == 2 * i && k1 == k0 + 1 && MonthByte(k0) == b0 && MonthByte(k1) == b1
    ensures TableYearLength(i) == 360 - BitCount(b0, 8) - BitCount(b1, 4)
                                  + (if b1 / 16 == 0 || b1 / 16 > 12 then 0 else if LongLeap(i) then 30 else 29)
  {
  }

  /**
   * One table year: the next year starts the table's length of this one
   * later. The lengths of the 99 years between the anchors are worked out
   * one per lemma below and added up five years at a time.
   */
  lemma YearStartFromTable(y: int, i: int, n: int)
    requires InTable(y) && i == YearIndex(y) && TableYearLength(i) == n
    ensures LunarYearStart(y + 1) == LunarYearStart(y) + n
  {
    YearStartStep(y);
    YearLengthFromTable(y);
  }

  lemma Length1900()
    ensures TableYearLength(0) == 359
  {
    LengthFromBytes(0, 0, 1, 0x00, 0x04);
    ByteDigits(0x00, 0, 0, 0, 0, 0, 0, 0, 0);
    NibbleDigits(0x04, 0, 0, 0, 1, 0);
  }

  lemma Length1901()
    ensures TableYearLength(1) == 354
  {
    LengthFromBytes(1, 2, 3, 0xad, 0x08);
    ByteDigits(0xad, 1, 0, 1, 1, 0, 1, 0, 1);
    NibbleDigits(0x08, 0, 0, 0, 0, 1);
  }

  lemma Length1902()
    ensures TableYearLength(2) == 355
  {
    LengthFromBytes(2, 4, 5, 0x5a, 0x01);
    ByteDigits(0x5a, 0, 1, 0, 1, 1, 0, 1, 0);
    NibbleDigits(0x01, 0, 1, 0, 0, 0);
  }

  lemma Length1903()
    ensures TableYearLength(3) == 383
  {
    LengthFromBytes(3, 6, 7, 0xd5, 0x54);
    ByteDigits(0xd5, 1, 0, 1, 0, 1, 0, 1, 1);
    NibbleDigits(0x54, 5, 0, 0, 1, 0);
  }

  lemma Length1904()
    ensures TableYearLength(4) == 354
  {
    LengthFromBytes(4, 8, 9, 0xb4, 0x09);
    ByteDigits(0xb4, 0, 0, 1, 0, 1, 1, 0, 1);
    NibbleDigits(0x09, 0, 1, 0, 0, 1);
  }

  lemma Length1905()
    ensures TableYearLength(5) == 355
  {
    LengthFromBytes(5, 10, 11, 0x64, 0x05);
    ByteDigits(0x64, 0, 0, 1, 0, 0, 1, 1, 0);
    NibbleDigits(0x05, 0, 1, 0, 1, 0);
  }

  lemma Length1906()
    ensures TableYearLength(6) == 384
  {
    LengthFromBytes(6, 12, 13, 0x59, 0x45);
    ByteDigits(0x59, 1, 0, 0, 1, 1, 0, 1, 0);
    NibbleDigits(0x45, 4, 1, 0, 1, 0);
  }

  lemma Length1907()
    ensures TableYearLength(7) == 354
  {
    LengthFromBytes(7, 14, 15, 0x95, 0x0a);
    ByteDigits(0x95, 1, 0, 1, 0, 1, 0, 0, 1);
    NibbleDigits(0x0a, 0, 0, 1, 0, 1);
  }

  lemma Length1908()
    ensures TableYearLength(8) == 355
  {
    LengthFromBytes(8, 16, 17, 0xa6, 0x04);
    ByteDigits(0xa6, 0, 1, 1, 0, 0, 1, 0, 1);
    NibbleDigits(0x04, 0, 0, 0, 1, 0);
  }

  lemma Length1909()
    ensures TableYearLength(9) == 384
  {
    LengthFromBytes(9, 18, 19, 0x55, 0x24);
    ByteDigits(0x55, 1, 0, 1, 0, 1, 0, 1, 0);
    NibbleDigits(0x24, 2, 0, 0, 1, 0);
  }

  lemma Length1910()
    ensures TableYearLength(10) == 354
  {
    LengthFromBytes(10, 20, 21, 0xad, 0x08);
    ByteDigits(0xad, 1, 0, 1, 1, 0, 1, 0, 1);
    NibbleDigits(0x08, 0, 0, 0, 0, 1);
  }

  lemma Length1911()
    ensures TableYearLength(11) == 384
  {
    LengthFromBytes(11, 22, 23, 0x5a, 0x62);
    ByteDigits(0x5a, 0, 1, 0, 1, 1, 0, 1, 0);
    NibbleDigits(0x62, 6, 0, 1, 0, 0);
  }

  lemma Length1912()
    ensures TableYearLength(12) == 354
  {
    LengthFromBytes(12, 24, 25, 0xda, 0x04);
    ByteDigits(0xda, 0, 1, 0, 1, 1, 0, 1, 1);
    NibbleDigits(0x04, 0, 0, 0, 1, 0);
  }

  lemma Length1913()
    ensures TableYearLength(13) == 354
  {
    LengthFromBytes(13, 26, 27, 0xb4, 0x05);
    ByteDigits(0xb4, 0, 0, 1, 0, 1, 1, 0, 1);
    NibbleDigits(0x05, 0, 1, 0, 1, 0);
  }

  lemma Length1914()
    ensures TableYearLength(14) == 384
  {
    LengthFromBytes(14, 28, 29, 0xb4, 0x55);
    ByteDigits(0xb4, 0, 0, 1, 0, 1, 1, 0, 1);
    NibbleDigits(0x55, 5, 1, 0, 1, 0);
  }

  lemma Length1915()
    ensures TableYearLength(15) == 354
  {
    LengthFromBytes(15, 30, 31, 0x52, 0x0d);
    ByteDigits(0x52, 0, 1, 0, 0, 1, 0, 1, 0);
    NibbleDigits(0x0d, 0, 1, 0, 1, 1);
  }

  lemma Length1916()
    ensures TableYearLength(16) == 355
  {
    LengthFromBytes(16, 32, 33, 0x94, 0x0a);
    ByteDigits(0x94, 0, 0, 1, 0, 1, 0, 0, 1);
    NibbleDigits(0x0a, 0, 0, 1, 0, 1);
  }

  lemma Length1917()
    ensures TableYearLength(17) == 384
  {
    LengthFromBytes(17, 34, 35, 0x4a, 0x2a);
    ByteDigits(0x4a, 0, 1, 0, 1, 0, 0, 1, 0);
    NibbleDigits(0x2a, 2, 0, 1, 0, 1);
  }

  lemma Length1918()
    ensures TableYearLength(18) == 355
  {
    LengthFromBytes(18, 36, 37, 0x56, 0x02);
    ByteDigits(0x56, 0, 1, 1, 0, 1, 0, 1, 0);
    NibbleDigits(0x02, 0, 0, 1, 0, 0);
  }

  lemma Length1919()
    ensures TableYearLength(19) == 384
  {
    LengthFromBytes(19, 38, 39, 0x6d, 0x71);
    ByteDigits(0x6d, 1, 0, 1, 1, 0, 1, 1, 0);
    NibbleDigits(0x71, 7, 1, 0, 0, 0);
  }

  lemma Length1920()
    ensures TableYearLength(20) == 354
  {
    LengthFromBytes(20, 40, 41, 0x6d, 0x01);
    ByteDigits(0x6d, 1, 0, 1, 1, 0, 1, 1, 0);
    NibbleDigits(0x01, 0, 1, 0, 0, 0);
  }

  lemma Length1921()
    ensures TableYearLength(21) == 354
  {
    LengthFromBytes(21, 42, 43, 0xda, 0x02);
    ByteDigits(0xda, 0, 1, 0, 1, 1, 0, 1, 1);
    NibbleDigits(0x02, 0, 0, 1, 0, 0);
  }

  lemma Length1922()
    ensures TableYearLength(22) == 384
  {
    LengthFromBytes(22, 44, 45, 0xd2, 0x52);
    ByteDigits(0xd2, 0, 1, 0, 0, 1, 0, 1, 1);
    NibbleDigits(0x52, 5, 0, 1, 0, 0);
  }

  lemma Length1923()
    ensures TableYearLength(23) == 354
  {
    LengthFromBytes(23, 46, 47, 0xa9, 0x05);
    ByteDigits(0xa9, 1, 0, 0, 1, 0, 1, 0, 1);
    NibbleDigits(0x05, 0, 1, 0, 1, 0);
  }

  lemma Length1924()
    ensures TableYearLength(24) == 354
  {
    LengthFromBytes(24, 48, 49, 0x49, 0x0d);
    ByteDigits(0x49, 1, 0, 0, 1, 0, 0, 1, 0);
    NibbleDigits(0x0d, 0, 1, 0, 1, 1);
  }

  lemma Length1925()
    ensures TableYearLength(25) == 385
  {
    LengthFromBytes(25, 50, 51, 0x2a, 0x45);
    ByteDigits(0x2a, 0, 1, 0, 1, 0, 1, 0, 0);
    NibbleDigits(0x45, 4, 1, 0, 1, 0);
  }

  lemma Length1926()
    ensures TableYearLength(26) == 354
  {
    LengthFromBytes(26, 52, 53, 0x2b, 0x09);
    ByteDigits(0x2b, 1, 1, 0, 1, 0, 1, 0, 0);
    NibbleDigits(0x09, 0, 1, 0, 0, 1);
  }

  lemma Length1927()
    ensures TableYearLength(27) == 355
  {
    LengthFromBytes(27, 54, 55, 0x56, 0x01);
    ByteDigits(0x56, 0, 1, 1, 0, 1, 0, 1, 0);
    NibbleDigits(0x01, 0, 1, 0, 0, 0);
  }

  lemma Length1928()
    ensures TableYearLength(28) == 384
  {
    LengthFromBytes(28, 56, 57, 0xb5, 0x20);
    ByteDigits(0xb5, 1, 0, 1, 0, 1, 1, 0, 1);
    NibbleDigits(0x20, 2, 0, 0, 0, 0);
  }

  lemma Length1929()
    ensures TableYearLength(29) == 354
  {
    LengthFromBytes(29, 58, 59, 0x6d, 0x01);
    ByteDigits(0x6d, 1, 0, 1, 1, 0, 1, 1, 0);
    NibbleDigits(0x01, 0, 1, 0, 0, 0);
  }

  lemma Length1930()
    ensures TableYearLength(30) == 383
  {
    LengthFromBytes(30, 60, 61, 0x59, 0x69);
    ByteDigits(0x59, 1, 0, 0, 1, 1, 0, 1, 0);
    NibbleDigits(0x69, 6, 1, 0, 0, 1);
  }

  lemma Length1931()
    ensures TableYearLength(31) == 354
  {
    LengthFromBytes(31, 62, 63, 0xd4, 0x0a);
    ByteDigits(0xd4, 0, 0, 1, 0, 1, 0, 1, 1);
    NibbleDigits(0x0a, 0, 0, 1, 0, 1);
  }

  lemma Length1932()
    ensures TableYearLength(32) == 355
  {
    LengthFromBytes(32, 64, 65, 0xa8, 0x05);
    ByteDigits(0xa8, 0, 0, 0, 1, 0, 1, 0, 1);
    NibbleDigits(0x05, 0, 1, 0, 1, 0);
  }

  lemma Length1933()
    ensures TableYearLength(33) == 384
  {
    LengthFromBytes(33, 66, 67, 0xa9, 0x56);
    ByteDigits(0xa9, 1, 0, 0, 1, 0, 1, 0, 1);
    NibbleDigits(0x56, 5, 0, 1, 1, 0);
  }

  lemma Length1934()
    ensures TableYearLength(34) == 355
  {
    LengthFromBytes(34, 68, 69, 0xa5, 0x04);
    ByteDigits(0xa5, 1, 0, 1, 0, 0, 1, 0, 1);
    NibbleDigits(0x04, 0, 0, 0, 1, 0);
  }

  lemma Length1935()
    ensures TableYearLength(35) == 354
  {
    LengthFromBytes(35, 70, 71, 0x2b, 0x09);
    ByteDigits(0x2b, 1, 1, 0, 1, 0, 1, 0, 0);
    NibbleDigits(0x09, 0, 1, 0, 0, 1);
  }

  lemma Length1936()
    ensures TableYearLength(36) == 384
  {
    LengthFromBytes(36, 72, 73, 0x9e, 0x38);
    ByteDigits(0x9e, 0, 1, 1, 1, 1, 0, 0, 1);
    NibbleDigits(0x38, 3, 0, 0, 0, 1);
  }

  lemma Length1937()
    ensures TableYearLength(37) == 354
  {
    LengthFromBytes(37, 74, 75, 0xb6, 0x08);
    ByteDigits(0xb6, 0, 1, 1, 0, 1, 1, 0, 1);
    NibbleDigits(0x08, 0, 0, 0, 0, 1);
  }

  lemma Length1938()
    ensures TableYearLength(38) == 384
  {
    LengthFromBytes(38, 76, 77, 0xec, 0x74);
    ByteDigits(0xec, 0, 0, 1, 1, 0, 1, 1, 1);
    NibbleDigits(0x74, 7, 0, 0, 1, 0);
  }

  lemma Length1939()
    ensures TableYearLength(39) == 354
  {
    LengthFromBytes(39, 78, 79, 0x6c, 0x05);
    ByteDigits(0x6c, 0, 0, 1, 1, 0, 1, 1, 0);
    NibbleDigits(0x05, 0, 1, 0, 1, 0);
  }

  lemma Length1940()
    ensures TableYearLength(40) == 354
  {
    LengthFromBytes(40, 80, 81, 0xd4, 0x0a);
    ByteDigits(0xd4, 0, 0, 1, 0, 1, 0, 1, 1);
    NibbleDigits(0x0a, 0, 0, 1, 0, 1);
  }

  lemma Length1941()
    ensures TableYearLength(41) == 384
  {
    LengthFromBytes(41, 82, 83, 0xe4, 0x6a);
    ByteDigits(0xe4, 0, 0, 1, 0, 0, 1, 1, 1);
    NibbleDigits(0x6a, 6, 0, 1, 0, 1);
  }

  lemma Length1942()
    ensures TableYearLength(42) == 355
  {
    LengthFromBytes(42, 84, 85, 0x52, 0x05);
    ByteDigits(0x52, 0, 1, 0, 0, 1, 0, 1, 0);
    NibbleDigits(0x05, 0, 1, 0, 1, 0);
  }

  lemma Length1943()
    ensures TableYearLength(43) == 354
  {
    LengthFromBytes(43, 86, 87, 0x95, 0x0a);
    ByteDigits(0x95, 1, 0, 1, 0, 1, 0, 0, 1);
    NibbleDigits(0x0a, 0, 0, 1, 0, 1);
  }

  lemma Length1944()
    ensures TableYearLength(44) == 385
  {
    LengthFromBytes(44, 88, 89, 0x5a, 0x42);
    ByteDigits(0x5a, 0, 1, 0, 1, 1, 0, 1, 0);
    NibbleDigits(0x42, 4, 0, 1, 0, 0);
  }

  lemma Length1945()
    ensures TableYearLength(45) == 354
  {
    LengthFromBytes(45, 90, 91, 0x5b, 0x04);
    ByteDigits(0x5b, 1, 1, 0, 1, 1, 0, 1, 0);
    NibbleDigits(0x04, 0, 0, 0, 1, 0);
  }

  lemma Length1946()
    ensures TableYearLength(46) == 354
  {
    LengthFromBytes(46, 92, 93, 0xb6, 0x04);
    ByteDigits(0xb6, 0, 1, 1, 0, 1, 1, 0, 1);
    NibbleDigits(0x04, 0, 0, 0, 1, 0);
  }

  lemma Length1947()
    ensures TableYearLength(47) == 384
  {
    LengthFromBytes(47, 94, 95, 0xb4, 0x22);
    ByteDigits(0xb4, 0, 0, 1, 0, 1, 1, 0, 1);
    NibbleDigits(0x22, 2, 0, 1, 0, 0);
  }

  lemma Length1948()
    ensures TableYearLength(48) == 354
  {
    LengthFromBytes(48, 96, 97, 0x6a, 0x05);
    ByteDigits(0x6a, 0, 1, 0, 1, 0, 1, 1, 0);
    NibbleDigits(0x05, 0, 1, 0, 1, 0);
  }

  lemma Length1949()
    ensures TableYearLength(49) == 384
  {
    LengthFromBytes(49, 98, 99, 0x52, 0x75);
    ByteDigits(0x52, 0, 1, 0, 0, 1, 0, 1, 0);
    NibbleDigits(0x75, 7, 1, 0, 1, 0);
  }

  lemma Length1950()
    ensures TableYearLength(50) == 354
  {
    LengthFromBytes(50, 100, 101, 0xc9, 0x0a);
    ByteDigits(0xc9, 1, 0, 0, 1, 0, 0, 1, 1);
    NibbleDigits(0x0a, 0, 0, 1, 0, 1);
  }

  lemma Length1951()
    ensures TableYearLength(51) == 355
  {
    LengthFromBytes(51, 102, 103, 0x52, 0x05);
    ByteDigits(0x52, 0, 1, 0, 0, 1, 0, 1, 0);
    NibbleDigits(0x05, 0, 1, 0, 1, 0);
  }

  lemma Length1952()
    ensures TableYearLength(52) == 384
  {
    LengthFromBytes(52, 104, 105, 0x35, 0x55);
    ByteDigits(0x35, 1, 0, 1, 0, 1, 1, 0, 0);
    NibbleDigits(0x55, 5, 1, 0, 1, 0);
  }

  lemma Length1953()
    ensures TableYearLength(53) == 354
  {
    LengthFromBytes(53, 106, 107, 0x4d, 0x0a);
    ByteDigits(0x4d, 1, 0, 1, 1, 0, 0, 1, 0);
    NibbleDigits(0x0a, 0, 0, 1, 0, 1);
  }

  lemma Length1954()
    ensures TableYearLength(54) == 355
  {
    LengthFromBytes(54, 108, 109, 0x5a, 0x02);
    ByteDigits(0x5a, 0, 1, 0, 1, 1, 0, 1, 0);
    NibbleDigits(0x02, 0, 0, 1, 0, 0);
  }

  lemma Length1955()
    ensures TableYearLength(55) == 384
  {
    LengthFromBytes(55, 110, 111, 0x5d, 0x31);
    ByteDigits(0x5d, 1, 0, 1, 1, 1, 0, 1, 0);
    NibbleDigits(0x31, 3, 1, 0, 0, 0);
  }

  lemma Length1956()
    ensures TableYearLength(56) == 354
  {
    LengthFromBytes(56, 112, 113, 0xb5, 0x02);
    ByteDigits(0xb5, 1, 0, 1, 0, 1, 1, 0, 1);
    NibbleDigits(0x02, 0, 0, 1, 0, 0);
  }

  lemma Length1957()
    ensures TableYearLength(57) == 383
  {
    LengthFromBytes(57, 114, 115, 0x6a, 0x8a);
    ByteDigits(0x6a, 0, 1, 0, 1, 0, 1, 1, 0);
    NibbleDigits(0x8a, 8, 0, 1, 0, 1);
  }

  lemma Length1958()
    ensures TableYearLength(58) == 355
  {
    LengthFromBytes(58, 116, 117, 0x68, 0x05);
    ByteDigits(0x68, 0, 0, 0, 1, 0, 1, 1, 0);
    NibbleDigits(0x05, 0, 1, 0, 1, 0);
  }

  lemma Length1959()
    ensures TableYearLength(59) == 354
  {
    LengthFromBytes(59, 118, 119, 0xa9, 0x0a);
    ByteDigits(0xa9, 1, 0, 0, 1, 0, 1, 0, 1);
    NibbleDigits(0x0a, 0, 0, 1, 0, 1);
  }

  lemma Length1960()
    ensures TableYearLength(60) == 384
  {
    LengthFromBytes(60, 120, 121, 0x8a, 0x6a);
    ByteDigits(0x8a, 0, 1, 0, 1, 0, 0, 0, 1);
    NibbleDigits(0x6a, 6, 0, 1, 0, 1);
  }

  lemma Length1961()
    ensures TableYearLength(61) == 355
  {
    LengthFromBytes(61, 122, 123, 0x2a, 0x05);
    ByteDigits(0x2a, 0, 1, 0, 1, 0, 1, 0, 0);
    NibbleDigits(0x05, 0, 1, 0, 1, 0);
  }

  lemma Length1962()
    ensures TableYearLength(62) == 354
  {
    LengthFromBytes(62, 124, 125, 0x2d, 0x09);
    ByteDigits(0x2d, 1, 0, 1, 1, 0, 1, 0, 0);
    NibbleDigits(0x09, 0, 1, 0, 0, 1);
  }

  lemma Length1963()
    ensures TableYearLength(63) == 384
  {
    LengthFromBytes(63, 126, 127, 0xaa, 0x48);
    ByteDigits(0xaa, 0, 1, 0, 1, 0, 1, 0, 1);
    NibbleDigits(0x48, 4, 0, 0, 0, 1);
  }

  lemma Length1964()
    ensures TableYearLength(64) == 355
  {
    LengthFromBytes(64, 128, 129, 0x5a, 0x01);
    ByteDigits(0x5a, 0, 1, 0, 1, 1, 0, 1, 0);
    NibbleDigits(0x01, 0, 1, 0, 0, 0);
  }

  lemma Length1965()
    ensures TableYearLength(65) == 353
  {
    LengthFromBytes(65, 130, 131, 0xb5, 0x09);
    ByteDigits(0xb5, 1, 0, 1, 0, 1, 1, 0, 1);
    NibbleDigits(0x09, 0, 1, 0, 0, 1);
  }

  lemma Length1966()
    ensures TableYearLength(66) == 384
  {
    LengthFromBytes(66, 132, 133, 0xb0, 0x39);
    ByteDigits(0xb0, 0, 0, 0, 0, 1, 1, 0, 1);
    NibbleDigits(0x39, 3, 1, 0, 0, 1);
  }

  lemma Length1967()
    ensures TableYearLength(67) == 355
  {
    LengthFromBytes(67, 134, 135, 0x64, 0x05);
    ByteDigits(0x64, 0, 0, 1, 0, 0, 1, 1, 0);
    NibbleDigits(0x05, 0, 1, 0, 1, 0);
  }

  lemma Length1968()
    ensures TableYearLength(68) == 384
  {
    LengthFromBytes(68, 136, 137, 0x25, 0x75);
    ByteDigits(0x25, 1, 0, 1, 0, 0, 1, 0, 0);
    NibbleDigits(0x75, 7, 1, 0, 1, 0);
  }

  lemma Length1969()
    ensures TableYearLength(69) == 354
  {
    LengthFromBytes(69, 138, 139, 0x95, 0x0a);
    ByteDigits(0x95, 1, 0, 1, 0, 1, 0, 0, 1);
    NibbleDigits(0x0a, 0, 0, 1, 0, 1);
  }

  lemma Length1970()
    ensures TableYearLength(70) == 355
  {
    LengthFromBytes(70, 140, 141, 0x96, 0x04);
    ByteDigits(0x96, 0, 1, 1, 0, 1, 0, 0, 1);
    NibbleDigits(0x04, 0, 0, 0, 1, 0);
  }

  lemma Length1971()
    ensures TableYearLength(71) == 384
  {
    LengthFromBytes(71, 142, 143, 0x4d, 0x54);
    ByteDigits(0x4d, 1, 0, 1, 1, 0, 0, 1, 0);
    NibbleDigits(0x54, 5, 0, 0, 1, 0);
  }

  lemma Length1972()
    ensures TableYearLength(72) == 354
  {
    LengthFromBytes(72, 144, 145, 0xad, 0x04);
    ByteDigits(0xad, 1, 0, 1, 1, 0, 1, 0, 1);
    NibbleDigits(0x04, 0, 0, 0, 1, 0);
  }

  lemma Length1973()
    ensures TableYearLength(73) == 354
  {
    LengthFromBytes(73, 146, 147, 0xda, 0x04);
    ByteDigits(0xda, 0, 1, 0, 1, 1, 0, 1, 1);
    NibbleDigits(0x04, 0, 0, 0, 1, 0);
  }

  lemma Length1974()
    ensures TableYearLength(74) == 384
  {
    LengthFromBytes(74, 148, 149, 0xd4, 0x44);
    ByteDigits(0xd4, 0, 0, 1, 0, 1, 0, 1, 1);
    NibbleDigits(0x44, 4, 0, 0, 1, 0);
  }

  lemma Length1975()
    ensures TableYearLength(75) == 354
  {
    LengthFromBytes(75, 150, 151, 0xb4, 0x05);
    ByteDigits(0xb4, 0, 0, 1, 0, 1, 1, 0, 1);
    NibbleDigits(0x05, 0, 1, 0, 1, 0);
  }

  lemma Length1976()
    ensures TableYearLength(76) == 384
  {
    LengthFromBytes(76, 152, 153, 0x54, 0x85);
    ByteDigits(0x54, 0, 0, 1, 0, 1, 0, 1, 0);
    NibbleDigits(0x85, 8, 1, 0, 1, 0);
  }

  lemma Length1977()
    ensures TableYearLength(77) == 354
  {
    LengthFromBytes(77, 154, 155, 0x52, 0x0d);
    ByteDigits(0x52, 0, 1, 0, 0, 1, 0, 1, 0);
    NibbleDigits(0x0d, 0, 1, 0, 1, 1);
  }

  lemma Length1978()
    ensures TableYearLength(78) == 355
  {
    LengthFromBytes(78, 156, 157, 0x92, 0x0a);
    ByteDigits(0x92, 0, 1, 0, 0, 1, 0, 0, 1);
    NibbleDigits(0x0a, 0, 0, 1, 0, 1);
  }

  lemma Length1979()
    ensures TableYearLength(79) == 384
  {
    LengthFromBytes(79, 158, 159, 0x56, 0x6a);
    ByteDigits(0x56, 0, 1, 1, 0, 1, 0, 1, 0);
    NibbleDigits(0x6a, 6, 0, 1, 0, 1);
  }

  lemma Length1980()
    ensures TableYearLength(80) == 355
  {
    LengthFromBytes(80, 160, 161, 0x56, 0x02);
    ByteDigits(0x56, 0, 1, 1, 0, 1, 0, 1, 0);
    NibbleDigits(0x02, 0, 0, 1, 0, 0);
  }

  lemma Length1981()
    ensures TableYearLength(81) == 354
  {
    LengthFromBytes(81, 162, 163, 0x6d, 0x02);
    ByteDigits(0x6d, 1, 0, 1, 1, 0, 1, 1, 0);
    NibbleDigits(0x02, 0, 0, 1, 0, 0);
  }

  lemma Length1982()
    ensures TableYearLength(82) == 384
  {
    LengthFromBytes(82, 164, 165, 0x6a, 0x41);
    ByteDigits(0x6a, 0, 1, 0, 1, 0, 1, 1, 0);
    NibbleDigits(0x41, 4, 1, 0, 0, 0);
  }

  lemma Length1983()
    ensures TableYearLength(83) == 354
  {
    LengthFromBytes(83, 166, 167, 0xda, 0x02);
    ByteDigits(0xda, 0, 1, 0, 1, 1, 0, 1, 1);
    NibbleDigits(0x02, 0, 0, 1, 0, 0);
  }

  lemma Length1984()
    ensures TableYearLength(84) == 384
  {
    LengthFromBytes(84, 168, 169, 0xb2, 0xa1);
    ByteDigits(0xb2, 0, 1, 0, 0, 1, 1, 0, 1);
    NibbleDigits(0xa1, 10, 1, 0, 0, 0);
  }

  lemma Length1985()
    ensures TableYearLength(85) == 354
  {
    LengthFromBytes(85, 170, 171, 0xa9, 0x05);
    ByteDigits(0xa9, 1, 0, 0, 1, 0, 1, 0, 1);
    NibbleDigits(0x05, 0, 1, 0, 1, 0);
  }

  lemma Length1986()
    ensures TableYearLength(86) == 354
  {
    LengthFromBytes(86, 172, 173, 0x49, 0x0d);
    ByteDigits(0x49, 1, 0, 0, 1, 0, 0, 1, 0);
    NibbleDigits(0x0d, 0, 1, 0, 1, 1);
  }

  lemma Length1987()
    ensures TableYearLength(87) == 384
  {
    LengthFromBytes(87, 174, 175, 0x0a, 0x6d);
    ByteDigits(0x0a, 0, 1, 0, 1, 0, 0, 0, 0);
    NibbleDigits(0x6d, 6, 1, 0, 1, 1);
  }

  lemma Length1988()
    ensures TableYearLength(88) == 355
  {
    LengthFromBytes(88, 176, 177, 0x2a, 0x09);
    ByteDigits(0x2a, 0, 1, 0, 1, 0, 1, 0, 0);
    NibbleDigits(0x09, 0, 1, 0, 0, 1);
  }

  lemma Length1989()
    ensures TableYearLength(89) == 355
  {
    LengthFromBytes(89, 178, 179, 0x56, 0x01);
    ByteDigits(0x56, 0, 1, 1, 0, 1, 0, 1, 0);
    NibbleDigits(0x01, 0, 1, 0, 0, 0);
  }

  lemma Length1990()
    ensures TableYearLength(90) == 384
  {
    LengthFromBytes(90, 180, 181, 0xad, 0x50);
    ByteDigits(0xad, 1, 0, 1, 1, 0, 1, 0, 1);
    NibbleDigits(0x50, 5, 0, 0, 0, 0);
  }

  lemma Length1991()
    ensures TableYearLength(91) == 354
  {
    LengthFromBytes(91, 182, 183, 0x6d, 0x01);
    ByteDigits(0x6d, 1, 0, 1, 1, 0, 1, 1, 0);
    NibbleDigits(0x01, 0, 1, 0, 0, 0);
  }

  lemma Length1992()
    ensures TableYearLength(92) == 354
  {
    LengthFromBytes(92, 184, 185, 0xd9, 0x02);
    ByteDigits(0xd9, 1, 0, 0, 1, 1, 0, 1, 1);
    NibbleDigits(0x02, 0, 0, 1, 0, 0);
  }

  lemma Length1993()
    ensures TableYearLength(93) == 383
  {
    LengthFromBytes(93, 186, 187, 0xd1, 0x3a);
    ByteDigits(0xd1, 1, 0, 0, 0, 1, 0, 1, 1);
    NibbleDigits(0x3a, 3, 0, 1, 0, 1);
  }

  lemma Length1994()
    ensures TableYearLength(94) == 355
  {
    LengthFromBytes(94, 188, 189, 0xa8, 0x05);
    ByteDigits(0xa8, 0, 0, 0, 1, 0, 1, 0, 1);
    NibbleDigits(0x05, 0, 1, 0, 1, 0);
  }

  lemma Length1995()
    ensures TableYearLength(95) == 384
  {
    LengthFromBytes(95, 190, 191, 0x29, 0x85);
    ByteDigits(0x29, 1, 0, 0, 1, 0, 1, 0, 0);
    NibbleDigits(0x85, 8, 1, 0, 1, 0);
  }

  lemma Length1996()
    ensures TableYearLength(96) == 354
  {
    LengthFromBytes(96, 192, 193, 0xa5, 0x0c);
    ByteDigits(0xa5, 1, 0, 1, 0, 0, 1, 0, 1);
    NibbleDigits(0x0c, 0, 0, 0, 1, 1);
  }

  lemma Length1997()
    ensures TableYearLength(97) == 355
  {
    LengthFromBytes(97, 194, 195, 0x2a, 0x09);
    ByteDigits(0x2a, 0, 1, 0, 1, 0, 1, 0, 0);
    NibbleDigits(0x09, 0, 1, 0, 0, 1);
  }

  lemma Length1998()
    ensures TableYearLength(98) == 384
  {
    LengthFromBytes(98, 196, 197, 0x96, 0x54);
    ByteDigits(0x96, 0, 1, 1, 0, 1, 0, 0, 1);
    NibbleDigits(0x54, 5, 0, 0, 1, 0);
  }

  lemma Years1900To1902()
    ensures LunarYearStart(1903) == LunarYearStart(1900) + 1068
  {
    Length1900();
    YearStartFromTable(1900, 0, 359);
    Length1901();
    YearStartFromTable(1901, 1, 354);
    Length1902();
    YearStartFromTable(1902, 2, 355);
  }

  lemma Years1903To1905()
    ensures LunarYearStart(1906) == LunarYearStart(1903) + 1092
  {
    Length1903();
    YearStartFromTable(1903, 3, 383);
    Length1904();
    YearStartFromTable(1904, 4, 354);
    Length1905();
    YearStartFromTable(1905, 5, 355);
  }

  lemma Years1906To1908()
    ensures LunarYearStart(1909) == LunarYearStart(1906) + 1093
  {
    Length1906();
    YearStartFromTable(1906, 6, 384);
    Length1907();
    YearStartFromTable(1907, 7, 354);
    Length1908();
    YearStartFromTable(1908, 8, 355);
  }

  lemma Years1909To1911()
    ensures LunarYearStart(1912) == LunarYearStart(1909) + 1122
  {
    Length1909();
    YearStartFromTable(1909, 9, 384);
    Length1910();
    YearStartFromTable(1910, 10, 354);
    Length1911();
    YearStartFromTable(1911, 11, 384);
  }

  lemma Years1912To1914()
    ensures LunarYearStart(1915) == LunarYearStart(1912) + 1092
  {
    Length1912();
    YearStartFromTable(1912, 12, 354);
    Length1913();
    YearStartFromTable(1913, 13, 354);
    Length1914();
    YearStartFromTable(1914, 14, 384);
  }

  lemma Years1915To1917()
    ensures LunarYearStart(1918) == LunarYearStart(1915) + 1093
  {
    Length1915();
    YearStartFromTable(1915, 15, 354);
    Length1916();
    YearStartFromTable(1916, 16, 355);
    Length1917();
    YearStartFromTable(1917, 17, 384);
  }

  lemma Years1918To1920()
    ensures LunarYearStart(1921) == LunarYearStart(1918) + 1093
  {
    Length1918();
    YearStartFromTable(1918, 18, 355);
    Length1919();
    YearStartFromTable(1919, 19, 384);
    Length1920();
    YearStartFromTable(1920, 20, 354);
  }

  lemma Years1921To1923()
    ensures LunarYearStart(1924) == LunarYearStart(1921) + 1092
  {
    Length1921();
    YearStartFromTable(1921, 21, 354);
    Length1922();
    YearStartFromTable(1922, 22, 384);
    Length1923();
    YearStartFromTable(1923, 23, 354);
  }

  lemma Years1924To1926()
    ensures LunarYearStart(1927) == LunarYearStart(1924) + 1093
  {
    Length1924();
    YearStartFromTable(1924, 24, 354);
    Length1925();
    YearStartFromTable(1925, 25, 385);
    Length1926();
    YearStartFromTable(1926, 26, 354);
  }

  lemma Years1927To1929()
    ensures LunarYearStart(1930) == LunarYearStart(1927) + 1093
  {
    Length1927();
    YearStartFromTable(1927, 27, 355);
    Length1928();
    YearStartFromTable(1928, 28, 384);
    Length1929();
    YearStartFromTable(1929, 29, 354);
  }

  lemma Years1930To1932()
    ensures LunarYearStart(1933) == LunarYearStart(1930) + 1092
  {
    Length1930();
    YearStartFromTable(1930, 30, 383);
    Length1931();
    YearStartFromTable(1931, 31, 354);
    Length1932();
    YearStartFromTable(1932, 32, 355);
  }

  lemma Years1933To1935()
    ensures LunarYearStart(1936) == LunarYearStart(1933) + 1093
  {
    Length1933();
    YearStartFromTable(1933, 33, 384);
    Length1934();
    YearStartFromTable(1934, 34, 355);
    Length1935();
    YearStartFromTable(1935, 35, 354);
  }

  lemma Years1936To1938()
    ensures LunarYearStart(1939) == LunarYearStart(1936) + 1122
  {
    Length1936();
    YearStartFromTable(1936, 36, 384);
    Length1937();
    YearStartFromTable(1937, 37, 354);
    Length1938();
    YearStartFromTable(1938, 38, 384);
  }

  lemma Years1939To1941()
    ensures LunarYearStart(1942) == LunarYearStart(1939) + 1092
  {
    Length1939();
    YearStartFromTable(1939, 39, 354);
    Length1940();
    YearStartFromTable(1940, 40, 354);
    Length1941();
    YearStartFromTable(1941, 41, 384);
  }

  lemma Years1942To1944()
    ensures LunarYearStart(1945) == LunarYearStart(1942) + 1094
  {
    Length1942();
    YearStartFromTable(1942, 42, 355);
    Length1943();
    YearStartFromTable(1943, 43, 354);
    Length1944();
    YearStartFromTable(1944, 44, 385);
  }

  lemma Years1945To1947()
    ensures LunarYearStart(1948) == LunarYearStart(1945) + 1092
  {
    Length1945();
    YearStartFromTable(1945, 45, 354);
    Length1946();
    YearStartFromTable(1946, 46, 354);
    Length1947();
    YearStartFromTable(1947, 47, 384);
  }

  lemma Years1948To1950()
    ensures LunarYearStart(1951) == LunarYearStart(1948) + 1092
  {
    Length1948();
    YearStartFromTable(1948, 48, 354);
    Length1949();
    YearStartFromTable(1949, 49, 384);
    Length1950();
    YearStartFromTable(1950, 50, 354);
  }

  lemma Years1951To1953()
    ensures LunarYearStart(1954) == LunarYearStart(1951) + 1093
  {
    Length1951();
    YearStartFromTable(1951, 51, 355);
    Length1952();
    YearStartFromTable(1952, 52, 384);
    Length1953();
    YearStartFromTable(1953, 53, 354);
  }

  lemma Years1954To1956()
    ensures LunarYearStart(1957) == LunarYearStart(1954) + 1093
  {
    Length1954();
    YearStartFromTable(1954, 54, 355);
    Length1955();
    YearStartFromTable(1955, 55, 384);
    Length1956();
    YearStartFromTable(1956, 56, 354);
  }

  lemma Years1957To1959()
    ensures LunarYearStart(1960) == LunarYearStart(1957) + 1092
  {
    Length1957();
    YearStartFromTable(1957, 57, 383);
    Length1958();
    YearStartFromTable(1958, 58, 355);
    Length1959();
    YearStartFromTable(1959, 59, 354);
  }

  lemma Years1960To1962()
    ensures LunarYearStart(1963) == LunarYearStart(1960) + 1093
  {
    Length1960();
    YearStartFromTable(1960, 60, 384);
    Length1961();
    YearStartFromTable(1961, 61, 355);
    Length1962();
    YearStartFromTable(1962, 62, 354);
  }

  lemma Years1963To1965()
    ensures LunarYearStart(1966) == LunarYearStart(1963) + 1092
  {
    Length1963();
    YearStartFromTable(1963, 63, 384);
    Length1964();
    YearStartFromTable(1964, 64, 355);
    Length1965();
    YearStartFromTable(1965, 65, 353);
  }

  lemma Years1966To1968()
    ensures LunarYearStart(1969) == LunarYearStart(1966) + 1123
  {
    Length1966();
    YearStartFromTable(1966, 66, 384);
    Length1967();
    YearStartFromTable(1967, 67, 355);
    Length1968();
    YearStartFromTable(1968, 68, 384);
  }

  lemma Years1969To1971()
    ensures LunarYearStart(1972) == LunarYearStart(1969) + 1093
  {
    Length1969();
    YearStartFromTable(1969, 69, 354);
    Length1970();
    YearStartFromTable(1970, 70, 355);
    Length1971();
    YearStartFromTable(1971, 71, 384);
  }

  lemma Years1972To1974()
    ensures LunarYearStart(1975) == LunarYearStart(1972) + 1092
  {
    Length1972();
    YearStartFromTable(1972, 72, 354);
    Length1973();
    YearStartFromTable(1973, 73, 354);
    Length1974();
    YearStartFromTable(1974, 74, 384);
  }

  lemma Years1975To1977()
    ensures LunarYearStart(1978) == LunarYearStart(1975) + 1092
  {
    Length1975();
    YearStartFromTable(1975, 75, 354);
    Length1976();
    YearStartFromTable(1976, 76, 384);
    Length1977();
    YearStartFromTable(1977, 77, 354);
  }

  lemma Years1978To1980()
    ensures LunarYearStart(1981) == LunarYearStart(1978) + 1094
  {
    Length1978();
    YearStartFromTable(1978, 78, 355);
    Length1979();
    YearStartFromTable(1979, 79, 384);
    Length1980();
    YearStartFromTable(1980, 80, 355);
  }

  lemma Years1981To1983()
    ensures LunarYearStart(1984) == LunarYearStart(1981) + 1092
  {
    Length1981();
    YearStartFromTable(1981, 81, 354);
    Length1982();
    YearStartFromTable(1982, 82, 384);
    Length1983();
    YearStartFromTable(1983, 83, 354);
  }

  lemma Years1984To1986()
    ensures LunarYearStart(1987) == LunarYearStart(1984) + 1092
  {
    Length1984();
    YearStartFromTable(1984, 84, 384);
    Length1985();
    YearStartFromTable(1985, 85, 354);
    Length1986();
    YearStartFromTable(1986, 86, 354);
  }

  lemma Years1987To1989()
    ensures LunarYearStart(1990) == LunarYearStart(1987) + 1094
  {
    Length1987();
    YearStartFromTable(1987, 87, 384);
    Length1988();
    YearStartFromTable(1988, 88, 355);
    Length1989();
    YearStartFromTable(1989, 89, 355);
  }

  lemma Years1990To1992()
    ensures LunarYearStart(1993) == LunarYearStart(1990) + 1092
  {
    Length1990();
    YearStartFromTable(1990, 90, 384);
    Length1991();
    YearStartFromTable(1991, 91, 354);
    Length1992();
    YearStartFromTable(1992, 92, 354);
  }

  lemma Years1993To1995()
    ensures LunarYearStart(1996) == LunarYearStart(1993) + 1122
  {
    Length1993();
    YearStartFromTable(1993, 93, 383);
    Length1994();
    YearStartFromTable(1994, 94, 355);
    Length1995();
    YearStartFromTable(1995, 95, 384);
  }

  lemma Years1996To1998()
    ensures LunarYearStart(1999) == LunarYearStart(1996) + 1093
  {
    Length1996();
    YearStartFromTable(1996, 96, 354);
    Length1997();
    YearStartFromTable(1997, 97, 355);
    Length1998();
    YearStartFromTable(1998, 98, 384);
  }

  /** The 99 table years 1900 to 1998 hold 36150 days. */
  lemma StartOf1999()
    ensures LunarYearStart(1999) == 36150
  {
    Years1900To1902();
    Years1903To1905();
    Years1906To1908();
    Years1909To1911();
    Years1912To1914();
    Years1915To1917();
    Years1918To1920();
    Years1921To1923();
    Years1924To1926();
    Years1927To1929();
    Years1930To1932();
    Years1933To1935();
    Years1936To1938();
    Years1939To1941();
    Years1942To1944();
    Years1945To1947();
    Years1948To1950();
    Years1951To1953();
    Years1954To1956();
    Years1957To1959();
    Years1960To1962();
    Years1963To1965();
    Years1966To1968();
    Years1969To1971();
    Years1972To1974();
    Years1975To1977();
    Years1978To1980();
    Years1981To1983();
    Years1984To1986();
    Years1987To1989();
    Years1990To1992();
    Years1993To1995();
    Years1996To1998();
  }

  /** A year without a leap month has no leap month among its first ten. */
  lemma NoLeapInFirstTen(y: int)
    requires InTable(y) && LeapMonth(y) == 0
    ensures LeapDays(y, 22) == 0
  {
    LeapDaysAre(y, 10, 22);
  }

  /** The ten regular months of year `y` before month 11, from its two table bytes. */
  lemma FirstTenFromBytes(y: int, i: int, b0: nat, b1: nat, c0: int, c1: int)
    requires InTable(y) && i == YearIndex(y)
    requires MonthByte(2 * i) == b0 && MonthByte(2 * i + 1) == b1
    requires BitCount(b0, 8) == c0 && BitCount(b1, 2) == c1
    ensures RegularDays(y, 22) == 300 - c0 - c1
  {
    RegularDaysAre(y, 10, 22);
  }

  lemma RegularBefore1900Month11()
    ensures RegularDays(1900, 22) == 300
  {
    FirstTenFromBytes(1900, 0, 0, 4, 0, 0);
  }

  lemma NoLeap1900()
    ensures LeapMonth(1900) == 0
  {
    LeapMonthAfterDecodes(0, 2);
    assert MonthByte(1) == 4;
  }

  /** Months 1 to 10 of 1900 hold 300 days. */
  lemma DaysBefore1900Month11()
    ensures DaysBefore(1900, 22) == 300
  {
    DaysBeforeSplit(1900, 10, 22);
    RegularBefore1900Month11();
    NoLeap1900();
    NoLeapInFirstTen(1900);
  }

  lemma Bytes1999()
    ensures MonthByte(198) == 0xb6 && MonthByte(199) == 8
  {
    assert MonthByte(198) == 0xb6;
  }

  lemma Bits1999()
    ensures BitCount(0xb6, 8) == 5 && BitCount(8, 2) == 0
  {
    ByteDigits(0xb6, 0, 1, 1, 0, 1, 1, 0, 1);
  }

  lemma RegularBefore1999Month11()
    ensures RegularDays(1999, 22) == 295
  {
    Bytes1999();
    Bits1999();
    FirstTenFromBytes(1999, 99, 0xb6, 8, 5, 0);
  }

  lemma NoLeap1999()
    ensures LeapMonth(1999) == 0
  {
    LeapMonthAfterDecodes(99, 2);
    assert MonthByte(199) == 8;
  }

  /** Months 1 to 10 of 1999 hold 295 days. */
  lemma DaysBefore1999Month11()
    ensures DaysBefore(1999, 22) == 295
  {
    DaysBeforeSplit(1999, 10, 22);
    RegularBefore1999Month11();
    NoLeap1999();
    NoLeapInFirstTen(1999);
  }

  /** The anchors' day numbers: 1900/11/11 is day 310 and 1999/11/25 is day 36469. */
  lemma AnchorDays()
    ensures LunarDay(1900, 11, 11) == 310
    ensures LunarDay(1999, 11, 25) == 36469
  {
    DaysBefore1900Month11();
    DaysBefore1999Month11();
    StartOf1999();
    MonthAtSlotIs(11);
  }
}
