/**
 * The constant tables of the Chinese calendar: the packed lunar month table
 * for the Chinese years 1900 to 2100, the solar term tables for the Gregorian
 * years 1901 to 2100, the Gregorian month lengths and the Chinese names the
 * calendar renders.
 */
module CalendarTables {

  /** First Gregorian day of the calendar: 1901-01-01. */
  const BaseYear := 1901
  const BaseMonth := 1
  const BaseDate := 1
  /** Index of the Chinese year BaseChineseYear in the lunar month table. */
  const BaseIndex := 0
  /** 1901-01-01 is day 11 of month 11 of the Chinese year 1900. */
  const BaseChineseYear := 1900
  const BaseChineseMonth := 11
  const BaseChineseDate := 11

  /**
   * The years next to `y`. Recursions over years step through these
   * functions, which keeps the verifier from running such a recursion down
   * to its base case whenever `y` is a known constant.
   */
  function PreviousYear(y: int): int
  {
    y - 1
  }

  function NextYear(y: int): int
  {
    y + 1
  }

  /** A table entry: one unsigned byte. */
  type Byte = b: int | 0 <= b < 256

  /**
   * The packed lunar month table `chineseMonths`: two bytes per Chinese year
   * from 1900 (bytes 0 and 1) to 2100 (bytes 400 and 401). In the first byte
   * of a year, bit m - 1 is set when month m (1 to 8) has 29 days; in the
   * second, bit m - 9 is set when month m (9 to 12) has 29 days, and the high
   * nibble is the number of the month that is followed by a leap month, 0
   * when the year has none.
   */
  function ChineseMonths(k: int): Byte
    requires 0 <= k < 402
  {
    if k < 208 then
      if k < 96 then
        if k < 48 then
          if k < 16 then
            MonthBlock0(k)
          else
            if k < 32 then
              MonthBlock1(k)
            else
              MonthBlock2(k)
        else
          if k < 64 then
            MonthBlock3(k)
          else
            if k < 80 then
              MonthBlock4(k)
            else
              MonthBlock5(k)
      else
        if k < 144 then
          if k < 112 then
            MonthBlock6(k)
          else
            if k < 128 then
              MonthBlock7(k)
            else
              MonthBlock8(k)
        else
          if k < 176 then
            if k < 160 then
              MonthBlock9(k)
            else
              MonthBlock10(k)
          else
            if k < 192 then
              MonthBlock11(k)
            else
              MonthBlock12(k)
    else
      if k < 304 then
        if k < 256 then
          if k < 224 then
            MonthBlock13(k)
          else
            if k < 240 then
              MonthBlock14(k)
            else
              MonthBlock15(k)
        else
          if k < 272 then
            MonthBlock16(k)
          else
            if k < 288 then
              MonthBlock17(k)
            else
              MonthBlock18(k)
      else
        if k < 352 then
          if k < 320 then
            MonthBlock19(k)
          else
            if k < 336 then
              MonthBlock20(k)
            else
              MonthBlock21(k)
        else
          if k < 384 then
            if k < 368 then
              MonthBlock22(k)
            else
              MonthBlock23(k)
          else
            if k < 400 then
              MonthBlock24(k)
            else
              MonthBlock25(k)
  }

  /** Bytes 0 to 15 of the table, Chinese years 1900 to 1907. */
  function MonthBlock0(k: int): Byte
  {
    match k
    case 0 => 0x00
    case 1 => 0x04
    case 2 => 0xad
    case 3 => 0x08
    case 4 => 0x5a
    case 5 => 0x01
    case 6 => 0xd5
    case 7 => 0x54
    case 8 => 0xb4
    case 9 => 0x09
    case 10 => 0x64
    case 11 => 0x05
    case 12 => 0x59
    case 13 => 0x45
    case 14 => 0x95
    case _ => 0x0a
  }

  /** Bytes 16 to 31 of the table, Chinese years 1908 to 1915. */
  function MonthBlock1(k: int): Byte
  {
    match k
    case 16 => 0xa6
    case 17 => 0x04
    case 18 => 0x55
    case 19 => 0x24
    case 20 => 0xad
    case 21 => 0x08
    case 22 => 0x5a
    case 23 => 0x62
    case 24 => 0xda
    case 25 => 0x04
    case 26 => 0xb4
    case 27 => 0x05
    case 28 => 0xb4
    case 29 => 0x55
    case 30 => 0x52
    case _ => 0x0d
  }

  /** Bytes 32 to 47 of the table, Chinese years 1916 to 1923. */
  function MonthBlock2(k: int): Byte
  {
    match k
    case 32 => 0x94
    case 33 => 0x0a
    case 34 => 0x4a
    case 35 => 0x2a
    case 36 => 0x56
    case 37 => 0x02
    case 38 => 0x6d
    case 39 => 0x71
    case 40 => 0x6d
    case 41 => 0x01
    case 42 => 0xda
    case 43 => 0x02
    case 44 => 0xd2
    case 45 => 0x52
    case 46 => 0xa9
    case _ => 0x05
  }

  /** Bytes 48 to 63 of the table, Chinese years 1924 to 1931. */
  function MonthBlock3(k: int): Byte
  {
    match k
    case 48 => 0x49
    case 49 => 0x0d
    case 50 => 0x2a
    case 51 => 0x45
    case 52 => 0x2b
    case 53 => 0x09
    case 54 => 0x56
    case 55 => 0x01
    case 56 => 0xb5
    case 57 => 0x20
    case 58 => 0x6d
    case 59 => 0x01
    case 60 => 0x59
    case 61 => 0x69
    case 62 => 0xd4
    case _ => 0x0a
  }

  /** Bytes 64 to 79 of the table, Chinese years 1932 to 1939. */
  function MonthBlock4(k: int): Byte
  {
    match k
    case 64 => 0xa8
    case 65 => 0x05
    case 66 => 0xa9
    case 67 => 0x56
    case 68 => 0xa5
    case 69 => 0x04
    case 70 => 0x2b
    case 71 => 0x09
    case 72 => 0x9e
    case 73 => 0x38
    case 74 => 0xb6
    case 75 => 0x08
    case 76 => 0xec
    case 77 => 0x74
    case 78 => 0x6c
    case _ => 0x05
  }

  /** Bytes 80 to 95 of the table, Chinese years 1940 to 1947. */
  function MonthBlock5(k: int): Byte
  {
    match k
    case 80 => 0xd4
    case 81 => 0x0a
    case 82 => 0xe4
    case 83 => 0x6a
    case 84 => 0x52
    case 85 => 0x05
    case 86 => 0x95
    case 87 => 0x0a
    case 88 => 0x5a
    case 89 => 0x42
    case 90 => 0x5b
    case 91 => 0x04
    case 92 => 0xb6
    case 93 => 0x04
    case 94 => 0xb4
    case _ => 0x22
  }

  /** Bytes 96 to 111 of the table, Chinese years 1948 to 1955. */
  function MonthBlock6(k: int): Byte
  {
    match k
    case 96 => 0x6a
    case 97 => 0x05
    case 98 => 0x52
    case 99 => 0x75
    case 100 => 0xc9
    case 101 => 0x0a
    case 102 => 0x52
    case 103 => 0x05
    case 104 => 0x35
    case 105 => 0x55
    case 106 => 0x4d
    case 107 => 0x0a
    case 108 => 0x5a
    case 109 => 0x02
    case 110 => 0x5d
    case _ => 0x31
  }

  /** Bytes 112 to 127 of the table, Chinese years 1956 to 1963. */
  function MonthBlock7(k: int): Byte
  {
    match k
    case 112 => 0xb5
    case 113 => 0x02
    case 114 => 0x6a
    case 115 => 0x8a
    case 116 => 0x68
    case 117 => 0x05
    case 118 => 0xa9
    case 119 => 0x0a
    case 120 => 0x8a
    case 121 => 0x6a
    case 122 => 0x2a
    case 123 => 0x05
    case 124 => 0x2d
    case 125 => 0x09
    case 126 => 0xaa
    case _ => 0x48
  }

  /** Bytes 128 to 143 of the table, Chinese years 1964 to 1971. */
  function MonthBlock8(k: int): Byte
  {
    match k
    case 128 => 0x5a
    case 129 => 0x01
    case 130 => 0xb5
    case 131 => 0x09
    case 132 => 0xb0
    case 133 => 0x39
    case 134 => 0x64
    case 135 => 0x05
    case 136 => 0x25
    case 137 => 0x75
    case 138 => 0x95
    case 139 => 0x0a
    case 140 => 0x96
    case 141 => 0x04
    case 142 => 0x4d
    case _ => 0x54
  }

  /** Bytes 144 to 159 of the table, Chinese years 1972 to 1979. */
  function MonthBlock9(k: int): Byte
  {
    match k
    case 144 => 0xad
    case 145 => 0x04
    case 146 => 0xda
    case 147 => 0x04
    case 148 => 0xd4
    case 149 => 0x44
    case 150 => 0xb4
    case 151 => 0x05
    case 152 => 0x54
    case 153 => 0x85
    case 154 => 0x52
    case 155 => 0x0d
    case 156 => 0x92
    case 157 => 0x0a
    case 158 => 0x56
    case _ => 0x6a
  }

  /** Bytes 160 to 175 of the table, Chinese years 1980 to 1987. */
  function MonthBlock10(k: int): Byte
  {
    match k
    case 160 => 0x56
    case 161 => 0x02
    case 162 => 0x6d
    case 163 => 0x02
    case 164 => 0x6a
    case 165 => 0x41
    case 166 => 0xda
    case 167 => 0x02
    case 168 => 0xb2
    case 169 => 0xa1
    case 170 => 0xa9
    case 171 => 0x05
    case 172 => 0x49
    case 173 => 0x0d
    case 174 => 0x0a
    case _ => 0x6d
  }

  /** Bytes 176 to 191 of the table, Chinese years 1988 to 1995. */
  function MonthBlock11(k: int): Byte
  {
    match k
    case 176 => 0x2a
    case 177 => 0x09
    case 178 => 0x56
    case 179 => 0x01
    case 180 => 0xad
    case 181 => 0x50
    case 182 => 0x6d
    case 183 => 0x01
    case 184 => 0xd9
    case 185 => 0x02
    case 186 => 0xd1
    case 187 => 0x3a
    case 188 => 0xa8
    case 189 => 0x05
    case 190 => 0x29
    case _ => 0x85
  }

  /** Bytes 192 to 207 of the table, Chinese years 1996 to 2003. */
  function MonthBlock12(k: int): Byte
  {
    match k
    case 192 => 0xa5
    case 193 => 0x0c
    case 194 => 0x2a
    case 195 => 0x09
    case 196 => 0x96
    case 197 => 0x54
    case 198 => 0xb6
    case 199 => 0x08
    case 200 => 0x6c
    case 201 => 0x09
    case 202 => 0x64
    case 203 => 0x45
    case 204 => 0xd4
    case 205 => 0x0a
    case 206 => 0xa4
    case _ => 0x05
  }

  /** Bytes 208 to 223 of the table, Chinese years 2004 to 2011. */
  function MonthBlock13(k: int): Byte
  {
    match k
    case 208 => 0x51
    case 209 => 0x25
    case 210 => 0x95
    case 211 => 0x0a
    case 212 => 0x2a
    case 213 => 0x72
    case 214 => 0x5b
    case 215 => 0x04
    case 216 => 0xb6
    case 217 => 0x04
    case 218 => 0xac
    case 219 => 0x52
    case 220 => 0x6a
    case 221 => 0x05
    case 222 => 0xd2
    case _ => 0x0a
  }

  /** Bytes 224 to 239 of the table, Chinese years 2012 to 2019. */
  function MonthBlock14(k: int): Byte
  {
    match k
    case 224 => 0xa2
    case 225 => 0x4a
    case 226 => 0x4a
    case 227 => 0x05
    case 228 => 0x55
    case 229 => 0x94
    case 230 => 0x2d
    case 231 => 0x0a
    case 232 => 0x5a
    case 233 => 0x02
    case 234 => 0x75
    case 235 => 0x61
    case 236 => 0xb5
    case 237 => 0x02
    case 238 => 0x6a
    case _ => 0x03
  }

  /** Bytes 240 to 255 of the table, Chinese years 2020 to 2027. */
  function MonthBlock15(k: int): Byte
  {
    match k
    case 240 => 0x61
    case 241 => 0x45
    case 242 => 0xa9
    case 243 => 0x0a
    case 244 => 0x4a
    case 245 => 0x05
    case 246 => 0x25
    case 247 => 0x25
    case 248 => 0x2d
    case 249 => 0x09
    case 250 => 0x9a
    case 251 => 0x68
    case 252 => 0xda
    case 253 => 0x08
    case 254 => 0xb4
    case _ => 0x09
  }

  /** Bytes 256 to 271 of the table, Chinese years 2028 to 2035. */
  function MonthBlock16(k: int): Byte
  {
    match k
    case 256 => 0xa8
    case 257 => 0x59
    case 258 => 0x54
    case 259 => 0x03
    case 260 => 0xa5
    case 261 => 0x0a
    case 262 => 0x91
    case 263 => 0x3a
    case 264 => 0x96
    case 265 => 0x04
    case 266 => 0xad
    case 267 => 0xb0
    case 268 => 0xad
    case 269 => 0x04
    case 270 => 0xda
    case _ => 0x04
  }

  /** Bytes 272 to 287 of the table, Chinese years 2036 to 2043. */
  function MonthBlock17(k: int): Byte
  {
    match k
    case 272 => 0xf4
    case 273 => 0x62
    case 274 => 0xb4
    case 275 => 0x05
    case 276 => 0x54
    case 277 => 0x0b
    case 278 => 0x44
    case 279 => 0x5d
    case 280 => 0x52
    case 281 => 0x0a
    case 282 => 0x95
    case 283 => 0x04
    case 284 => 0x55
    case 285 => 0x22
    case 286 => 0x6d
    case _ => 0x02
  }

  /** Bytes 288 to 303 of the table, Chinese years 2044 to 2051. */
  function MonthBlock18(k: int): Byte
  {
    match k
    case 288 => 0x5a
    case 289 => 0x71
    case 290 => 0xda
    case 291 => 0x02
    case 292 => 0xaa
    case 293 => 0x05
    case 294 => 0xb2
    case 295 => 0x55
    case 296 => 0x49
    case 297 => 0x0b
    case 298 => 0x4a
    case 299 => 0x0a
    case 300 => 0x2d
    case 301 => 0x39
    case 302 => 0x36
    case _ => 0x01
  }

  /** Bytes 304 to 319 of the table, Chinese years 2052 to 2059. */
  function MonthBlock19(k: int): Byte
  {
    match k
    case 304 => 0x6d
    case 305 => 0x80
    case 306 => 0x6d
    case 307 => 0x01
    case 308 => 0xd9
    case 309 => 0x02
    case 310 => 0xe9
    case 311 => 0x6a
    case 312 => 0xa8
    case 313 => 0x05
    case 314 => 0x29
    case 315 => 0x0b
    case 316 => 0x9a
    case 317 => 0x4c
    case 318 => 0xaa
    case _ => 0x08
  }

  /** Bytes 320 to 335 of the table, Chinese years 2060 to 2067. */
  function MonthBlock20(k: int): Byte
  {
    match k
    case 320 => 0xb6
    case 321 => 0x08
    case 322 => 0xb4
    case 323 => 0x38
    case 324 => 0x6c
    case 325 => 0x09
    case 326 => 0x54
    case 327 => 0x75
    case 328 => 0xd4
    case 329 => 0x0a
    case 330 => 0xa4
    case 331 => 0x05
    case 332 => 0x45
    case 333 => 0x55
    case 334 => 0x95
    case _ => 0x0a
  }

  /** Bytes 336 to 351 of the table, Chinese years 2068 to 2075. */
  function MonthBlock21(k: int): Byte
  {
    match k
    case 336 => 0x9a
    case 337 => 0x04
    case 338 => 0x55
    case 339 => 0x44
    case 340 => 0xb5
    case 341 => 0x04
    case 342 => 0x6a
    case 343 => 0x82
    case 344 => 0x6a
    case 345 => 0x05
    case 346 => 0xd2
    case 347 => 0x0a
    case 348 => 0x92
    case 349 => 0x6a
    case 350 => 0x4a
    case _ => 0x05
  }

  /** Bytes 352 to 367 of the table, Chinese years 2076 to 2083. */
  function MonthBlock22(k: int): Byte
  {
    match k
    case 352 => 0x55
    case 353 => 0x0a
    case 354 => 0x2a
    case 355 => 0x4a
    case 356 => 0x5a
    case 357 => 0x02
    case 358 => 0xb5
    case 359 => 0x02
    case 360 => 0xb2
    case 361 => 0x31
    case 362 => 0x69
    case 363 => 0x03
    case 364 => 0x31
    case 365 => 0x73
    case 366 => 0xa9
    case _ => 0x0a
  }

  /** Bytes 368 to 383 of the table, Chinese years 2084 to 2091. */
  function MonthBlock23(k: int): Byte
  {
    match k
    case 368 => 0x4a
    case 369 => 0x05
    case 370 => 0x2d
    case 371 => 0x55
    case 372 => 0x2d
    case 373 => 0x09
    case 374 => 0x5a
    case 375 => 0x01
    case 376 => 0xd5
    case 377 => 0x48
    case 378 => 0xb4
    case 379 => 0x09
    case 380 => 0x68
    case 381 => 0x89
    case 382 => 0x54
    case _ => 0x0b
  }

  /** Bytes 384 to 399 of the table, Chinese years 2092 to 2099. */
  function MonthBlock24(k: int): Byte
  {
    match k
    case 384 => 0xa4
    case 385 => 0x0a
    case 386 => 0xa5
    case 387 => 0x6a
    case 388 => 0x95
    case 389 => 0x04
    case 390 => 0xad
    case 391 => 0x08
    case 392 => 0x6a
    case 393 => 0x44
    case 394 => 0xda
    case 395 => 0x04
    case 396 => 0x74
    case 397 => 0x05
    case 398 => 0xb0
    case _ => 0x25
  }

  /** Bytes 400 to 401 of the table, Chinese years 2100 to 2100. */
  function MonthBlock25(k: int): Byte
  {
    match k
    case 400 => 0x54
    case _ => 0x03
  }

  /** Year indexes (Chinese year minus 1900) whose leap month has 30 days. */
  const BigLeapMonthYears: seq<int> :=
    [6, 14, 19, 25, 33, 36, 38, 41, 44, 52, 55, 79, 117, 136, 147, 150, 155, 158, 185, 193]

  /** Every sectional term falls on day 3 to 9 of its Gregorian month. */
  type SectionalDay = d: int | 3 <= d <= 9 witness 3
  /** Every principal term falls on day 18 to 24 of its Gregorian month. */
  type PrincipalDay = d: int | 18 <= d <= 24 witness 18

  /**
   * Day of the Gregorian month of its sectional term, one row per month, in
   * blocks of four consecutive years; SectionalTermYear holds, per month, the
   * relative years (year minus 1900) at which the next block starts.
   */
  const SectionalTermMap: seq<seq<SectionalDay>> := [
    [7, 6, 6, 6, 6, 6, 6, 6, 6, 5, 6, 6, 6, 5, 5, 6, 6, 5, 5, 5, 5, 5, 5, 5, 5, 4, 5, 5],
    [5, 4, 5, 5, 5, 4, 4, 5, 5, 4, 4, 4, 4, 4, 4, 4, 4, 3, 4, 4, 4, 3, 3, 4, 4, 3, 3, 3],
    [6, 6, 6, 7, 6, 6, 6, 6, 5, 6, 6, 6, 5, 5, 6, 6, 5, 5, 5, 6, 5, 5, 5, 5, 4, 5, 5, 5, 5],
    [5, 5, 6, 6, 5, 5, 5, 6, 5, 5, 5, 5, 4, 5, 5, 5, 4, 4, 5, 5, 4, 4, 4, 5, 4, 4, 4, 4, 5],
    [6, 6, 6, 7, 6, 6, 6, 6, 5, 6, 6, 6, 5, 5, 6, 6, 5, 5, 5, 6, 5, 5, 5, 5, 4, 5, 5, 5, 5],
    [6, 6, 7, 7, 6, 6, 6, 7, 6, 6, 6, 6, 5, 6, 6, 6, 5, 5, 6, 6, 5, 5, 5, 6, 5, 5, 5, 5, 4, 5, 5, 5, 5],
    [7, 8, 8, 8, 7, 7, 8, 8, 7, 7, 7, 8, 7, 7, 7, 7, 6, 7, 7, 7, 6, 6, 7, 7, 6, 6, 6, 7, 7],
    [8, 8, 8, 9, 8, 8, 8, 8, 7, 8, 8, 8, 7, 7, 8, 8, 7, 7, 7, 8, 7, 7, 7, 7, 6, 7, 7, 7, 6, 6, 7, 7, 7],
    [8, 8, 8, 9, 8, 8, 8, 8, 7, 8, 8, 8, 7, 7, 8, 8, 7, 7, 7, 8, 7, 7, 7, 7, 6, 7, 7, 7, 7],
    [9, 9, 9, 9, 8, 9, 9, 9, 8, 8, 9, 9, 8, 8, 8, 9, 8, 8, 8, 8, 7, 8, 8, 8, 7, 7, 8, 8, 8],
    [8, 8, 8, 8, 7, 8, 8, 8, 7, 7, 8, 8, 7, 7, 7, 8, 7, 7, 7, 7, 6, 7, 7, 7, 6, 6, 7, 7, 7],
    [7, 8, 8, 8, 7, 7, 8, 8, 7, 7, 7, 8, 7, 7, 7, 7, 6, 7, 7, 7, 6, 6, 7, 7, 6, 6, 6, 7, 7]
  ]

  const SectionalTermYear: seq<seq<int>> := [
    [13, 49, 85, 117, 149, 185, 201, 250, 250],
    [13, 45, 81, 117, 149, 185, 201, 250, 250],
    [13, 48, 84, 112, 148, 184, 200, 201, 250],
    [13, 45, 76, 108, 140, 172, 200, 201, 250],
    [13, 44, 72, 104, 132, 168, 200, 201, 250],
    [5, 33, 68, 96, 124, 152, 188, 200, 201],
    [29, 57, 85, 120, 148, 176, 200, 201, 250],
    [13, 48, 76, 104, 132, 168, 196, 200, 201],
    [25, 60, 88, 120, 148, 184, 200, 201, 250],
    [16, 44, 76, 108, 144, 172, 200, 201, 250],
    [28, 60, 92, 124, 160, 192, 200, 201, 250],
    [17, 53, 85, 124, 156, 188, 200, 201, 250]
  ]

  /** Day of the Gregorian month of its principal term, laid out as SectionalTermMap. */
  const PrincipleTermMap: seq<seq<PrincipalDay>> := [
    [21, 21, 21, 21, 21, 20, 21, 21, 21, 20, 20, 21, 21, 20, 20, 20, 20, 20, 20, 20, 20, 19, 20, 20, 20, 19, 19, 20],
    [20, 19, 19, 20, 20, 19, 19, 19, 19, 19, 19, 19, 19, 18, 19, 19, 19, 18, 18, 19, 19, 18, 18, 18, 18, 18, 18, 18],
    [21, 21, 21, 22, 21, 21, 21, 21, 20, 21, 21, 21, 20, 20, 21, 21, 20, 20, 20, 21, 20, 20, 20, 20, 19, 20, 20, 20, 20],
    [20, 21, 21, 21, 20, 20, 21, 21, 20, 20, 20, 21, 20, 20, 20, 20, 19, 20, 20, 20, 19, 19, 20, 20, 19, 19, 19, 20, 20],
    [21, 22, 22, 22, 21, 21, 22, 22, 21, 21, 21, 22, 21, 21, 21, 21, 20, 21, 21, 21, 20, 20, 21, 21, 20, 20, 20, 21, 21],
    [22, 22, 22, 22, 21, 22, 22, 22, 21, 21, 22, 22, 21, 21, 21, 22, 21, 21, 21, 21, 20, 21, 21, 21, 20, 20, 21, 21, 21],
    [23, 23, 24, 24, 23, 23, 23, 24, 23, 23, 23, 23, 22, 23, 23, 23, 22, 22, 23, 23, 22, 22, 22, 23, 22, 22, 22, 22, 23],
    [23, 24, 24, 24, 23, 23, 24, 24, 23, 23, 23, 24, 23, 23, 23, 23, 22, 23, 23, 23, 22, 22, 23, 23, 22, 22, 22, 23, 23],
    [23, 24, 24, 24, 23, 23, 24, 24, 23, 23, 23, 24, 23, 23, 23, 23, 22, 23, 23, 23, 22, 22, 23, 23, 22, 22, 22, 23, 23],
    [24, 24, 24, 24, 23, 24, 24, 24, 23, 23, 24, 24, 23, 23, 23, 24, 23, 23, 23, 23, 22, 23, 23, 23, 22, 22, 23, 23, 23],
    [23, 23, 23, 23, 22, 23, 23, 23, 22, 22, 23, 23, 22, 22, 22, 23, 22, 22, 22, 22, 21, 22, 22, 22, 21, 21, 22, 22, 22],
    [22, 22, 23, 23, 22, 22, 22, 23, 22, 22, 22, 22, 21, 22, 22, 22, 21, 21, 22, 22, 21, 21, 21, 22, 21, 21, 21, 21, 22]
  ]

  const PrincipleTermYear: seq<seq<int>> := [
    [13, 45, 81, 113, 149, 185, 201],
    [21, 57, 93, 125, 161, 193, 201],
    [21, 56, 88, 120, 152, 188, 200, 201],
    [21, 49, 81, 116, 144, 176, 200, 201],
    [17, 49, 77, 112, 140, 168, 200, 201],
    [28, 60, 88, 116, 148, 180, 200, 201],
    [25, 53, 84, 112, 144, 172, 200, 201],
    [29, 57, 89, 120, 148, 180, 200, 201],
    [17, 45, 73, 108, 140, 168, 200, 201],
    [28, 60, 92, 124, 160, 192, 200, 201],
    [16, 44, 80, 112, 148, 180, 200, 201],
    [17, 53, 88, 120, 156, 188, 200, 201]
  ]

  /** Days of the Gregorian months, January first, February of a common year. */
  const GregorianMonthDays: seq<int> := [31, 28, 31, 30, 31, 30, 31, 31, 30, 31, 30, 31]

  const ChineseWeekNames: seq<string> :=
    ["", "星期日", "星期一", "星期二", "星期三", "星期四", "星期五", "星期六"]
  const ChineseMonthNames: seq<string> :=
    ["", "正", "二", "三", "四", "五", "六", "七", "八", "九", "十", "十一", "十二"]
  const ChineseDateNames: seq<string> :=
    ["", "初一", "初二", "初三", "初四", "初五", "初六", "初七", "初八", "初九", "初十",
     "十一", "十二", "十三", "十四", "十五", "十六", "十七", "十八", "十九", "二十",
     "廿一", "廿二", "廿三", "廿四", "廿五", "廿六", "廿七", "廿八", "廿九", "三十"]
  const PrincipleTermNames: seq<string> :=
    ["大寒", "雨水", "春分", "谷雨", "夏满", "夏至", "大暑", "处暑", "秋分", "霜降", "小雪", "冬至"]
  const SectionalTermNames: seq<string> :=
    ["小寒", "立春", "惊蛰", "清明", "立夏", "芒种", "小暑", "立秋", "白露", "寒露", "立冬", "大雪"]
  const StemNames: seq<string> := ["", "甲", "乙", "丙", "丁", "戊", "己", "庚", "辛", "壬", "癸"]
  const BranchNames: seq<string> :=
    ["", "子", "丑", "寅", "卯", "辰", "巳", "午", "未", "申", "酉", "戌", "亥"]
  const AnimalNames: seq<string> :=
    ["", "鼠", "牛", "虎", "兔", "龙", "蛇", "马", "羊", "猴", "鸡", "狗", "猪"]

  /** Twelve rows per solar term table; nine block starts per sectional row. */
  lemma SolarTermTablesShape()
    ensures |SectionalTermMap| == 12 && |SectionalTermYear| == 12
    ensures |PrincipleTermMap| == 12 && |PrincipleTermYear| == 12
    ensures forall m0 :: 0 <= m0 < 12 ==> |SectionalTermYear[m0]| == 9
  {
  }

  /**
   * Byte `k` of the lunar month table, reached after `hops` idle steps. The
   * steps keep a proof about an arbitrary position from expanding every entry
   * of the table at once, while a known position costs only the steps.
   */
  function MonthByteAfter(k: int, hops: nat): Byte
    requires 0 <= k < 402
    decreases hops, k
  {
    if hops == 0 then ChineseMonths(k) else MonthByteAfter(k, hops - 1)
  }

  /** Byte `k` of the packed lunar month table, 0 <= k < 402. */
  function MonthByte(k: int): Byte
    requires 0 <= k < 402
  {
    MonthByteAfter(k, 4)
  }

  /** The steps reach the byte they are looking for. */
  lemma {:induction false} MonthByteAfterIs(k: int, hops: nat)
    requires 0 <= k < 402
    ensures MonthByteAfter(k, hops) == ChineseMonths(k)
    decreases hops, k
  {
    if hops > 0 {
      MonthByteAfterIs(k, hops - 1);
    }
  }
}
