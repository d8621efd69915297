/** The Huffman code of HPACK (appendix B of RFC 7541), without its end-of-string symbol:
    the table itself, and what the encoder and the decoding trie rely on. */
module HuffmanTable {
  import opened BitStrings

  datatype Entry = Entry(code: nat, len: nat)

  /** Code and code length of a byte, sixteen to a row. */
  function TableAt(s: nat): Entry
    requires s < 256
  {
    if s < 16 then Row0(s - 0)
    else if s < 32 then Row1(s - 16)
    else if s < 48 then Row2(s - 32)
    else if s < 64 then Row3(s - 48)
    else if s < 80 then Row4(s - 64)
    else if s < 96 then Row5(s - 80)
    else if s < 112 then Row6(s - 96)
    else if s < 128 then Row7(s - 112)
    else if s < 144 then Row8(s - 128)
    else if s < 160 then Row9(s - 144)
    else if s < 176 then Row10(s - 160)
    else if s < 192 then Row11(s - 176)
    else if s < 208 then Row12(s - 192)
    else if s < 224 then Row13(s - 208)
    else if s < 240 then Row14(s - 224)
    else Row15(s - 240)
  }

  function Row0(i: nat): Entry {
    if i == 0 then Entry(0x1ff8, 13) else if i == 1 then Entry(0x7fffd8, 23)
    else if i == 2 then Entry(0xfffffe2, 28) else if i == 3 then Entry(0xfffffe3, 28)
    else if i == 4 then Entry(0xfffffe4, 28) else if i == 5 then Entry(0xfffffe5, 28)
    else if i == 6 then Entry(0xfffffe6, 28) else if i == 7 then Entry(0xfffffe7, 28)
    else if i == 8 then Entry(0xfffffe8, 28) else if i == 9 then Entry(0xffffea, 24)
    else if i == 10 then Entry(0x3ffffffc, 30) else if i == 11 then Entry(0xfffffe9, 28)
    else if i == 12 then Entry(0xfffffea, 28) else if i == 13 then Entry(0x3ffffffd, 30)
    else if i == 14 then Entry(0xfffffeb, 28) else Entry(0xfffffec, 28)
  }

  function Row1(i: nat): Entry {
    if i == 0 then Entry(0xfffffed, 28) else if i == 1 then Entry(0xfffffee, 28)
    else if i == 2 then Entry(0xfffffef, 28) else if i == 3 then Entry(0xffffff0, 28)
    else if i == 4 then Entry(0xffffff1, 28) else if i == 5 then Entry(0xffffff2, 28)
    else if i == 6 then Entry(0x3ffffffe, 30) else if i == 7 then Entry(0xffffff3, 28)
    else if i == 8 then Entry(0xffffff4, 28) else if i == 9 then Entry(0xffffff5, 28)
    else if i == 10 then Entry(0xffffff6, 28) else if i == 11 then Entry(0xffffff7, 28)
    else if i == 12 then Entry(0xffffff8, 28) else if i == 13 then Entry(0xffffff9, 28)
    else if i == 14 then Entry(0xffffffa, 28) else Entry(0xffffffb, 28)
  }

  function Row2(i: nat): Entry {
    if i == 0 then Entry(0x14, 6) else if i == 1 then Entry(0x3f8, 10)
    else if i == 2 then Entry(0x3f9, 10) else if i == 3 then Entry(0xffa, 12)
    else if i == 4 then Entry(0x1ff9, 13) else if i == 5 then Entry(0x15, 6)
    else if i == 6 then Entry(0xf8, 8) else if i == 7 then Entry(0x7fa, 11)
    else if i == 8 then Entry(0x3fa, 10) else if i == 9 then Entry(0x3fb, 10)
    else if i == 10 then Entry(0xf9, 8) else if i == 11 then Entry(0x7fb, 11)
    else if i == 12 then Entry(0xfa, 8) else if i == 13 then Entry(0x16, 6)
    else if i == 14 then Entry(0x17, 6) else Entry(0x18, 6)
  }

  function Row3(i: nat): Entry {
    if i == 0 then Entry(0x0, 5) else if i == 1 then Entry(0x1, 5)
    else if i == 2 then Entry(0x2, 5) else if i == 3 then Entry(0x19, 6)
    else if i == 4 then Entry(0x1a, 6) else if i == 5 then Entry(0x1b, 6)
    else if i == 6 then Entry(0x1c, 6) else if i == 7 then Entry(0x1d, 6)
    else if i == 8 then Entry(0x1e, 6) else if i == 9 then Entry(0x1f, 6)
    else if i == 10 then Entry(0x5c, 7) else if i == 11 then Entry(0xfb, 8)
    else if i == 12 then Entry(0x7ffc, 15) else if i == 13 then Entry(0x20, 6)
    else if i == 14 then Entry(0xffb, 12) else Entry(0x3fc, 10)
  }

  function Row4(i: nat): Entry {
    if i == 0 then Entry(0x1ffa, 13) else if i == 1 then Entry(0x21, 6)
    else if i == 2 then Entry(0x5d, 7) else if i == 3 then Entry(0x5e, 7)
    else if i == 4 then Entry(0x5f, 7) else if i == 5 then Entry(0x60, 7)
    else if i == 6 then Entry(0x61, 7) else if i == 7 then Entry(0x62, 7)
    else if i == 8 then Entry(0x63, 7) else if i == 9 then Entry(0x64, 7)
    else if i == 10 then Entry(0x65, 7) else if i == 11 then Entry(0x66, 7)
    else if i == 12 then Entry(0x67, 7) else if i == 13 then Entry(0x68, 7)
    else if i == 14 then Entry(0x69, 7) else Entry(0x6a, 7)
  }

  function Row5(i: nat): Entry {
    if i == 0 then Entry(0x6b, 7) else if i == 1 then Entry(0x6c, 7)
    else if i == 2 then Entry(0x6d, 7) else if i == 3 then Entry(0x6e, 7)
    else if i == 4 then Entry(0x6f, 7) else if i == 5 then Entry(0x70, 7)
    else if i == 6 then Entry(0x71, 7) else if i == 7 then Entry(0x72, 7)
    else if i == 8 then Entry(0xfc, 8) else if i == 9 then Entry(0x73, 7)
    else if i == 10 then Entry(0xfd, 8) else if i == 11 then Entry(0x1ffb, 13)
    else if i == 12 then Entry(0x7fff0, 19) else if i == 13 then Entry(0x1ffc, 13)
    else if i == 14 then Entry(0x3ffc, 14) else Entry(0x22, 6)
  }

  function Row6(i: nat): Entry {
    if i == 0 then Entry(0x7ffd, 15) else if i == 1 then Entry(0x3, 5)
    else if i == 2 then Entry(0x23, 6) else if i == 3 then Entry(0x4, 5)
    else if i == 4 then Entry(0x24, 6) else if i == 5 then Entry(0x5, 5)
    else if i == 6 then Entry(0x25, 6) else if i == 7 then Entry(0x26, 6)
    else if i == 8 then Entry(0x27, 6) else if i == 9 then Entry(0x6, 5)
    else if i == 10 then Entry(0x74, 7) else if i == 11 then Entry(0x75, 7)
    else if i == 12 then Entry(0x28, 6) else if i == 13 then Entry(0x29, 6)
    else if i == 14 then Entry(0x2a, 6) else Entry(0x7, 5)
  }

  function Row7(i: nat): Entry {
    if i == 0 then Entry(0x2b, 6) else if i == 1 then Entry(0x76, 7)
    else if i == 2 then Entry(0x2c, 6) else if i == 3 then Entry(0x8, 5)
    else if i == 4 then Entry(0x9, 5) else if i == 5 then Entry(0x2d, 6)
    else if i == 6 then Entry(0x77, 7) else if i == 7 then Entry(0x78, 7)
    else if i == 8 then Entry(0x79, 7) else if i == 9 then Entry(0x7a, 7)
    else if i == 10 then Entry(0x7b, 7) else if i == 11 then Entry(0x7ffe, 15)
    else if i == 12 then Entry(0x7fc, 11) else if i == 13 then Entry(0x3ffd, 14)
    else if i == 14 then Entry(0x1ffd, 13) else Entry(0xffffffc, 28)
  }

  function Row8(i: nat): Entry {
    if i == 0 then Entry(0xfffe6, 20) else if i == 1 then Entry(0x3fffd2, 22)
    else if i == 2 then Entry(0xfffe7, 20) else if i == 3 then Entry(0xfffe8, 20)
    else if i == 4 then Entry(0x3fffd3, 22) else if i == 5 then Entry(0x3fffd4, 22)
    else if i == 6 then Entry(0x3fffd5, 22) else if i == 7 then Entry(0x7fffd9, 23)
    else if i == 8 then Entry(0x3fffd6, 22) else if i == 9 then Entry(0x7fffda, 23)
    else if i == 10 then Entry(0x7fffdb, 23) else if i == 11 then Entry(0x7fffdc, 23)
    else if i == 12 then Entry(0x7fffdd, 23) else if i == 13 then Entry(0x7fffde, 23)
    else if i == 14 then Entry(0xffffeb, 24) else Entry(0x7fffdf, 23)
  }

  function Row9(i: nat): Entry {
    if i == 0 then Entry(0xffffec, 24) else if i == 1 then Entry(0xffffed, 24)
    else if i == 2 then Entry(0x3fffd7, 22) else if i == 3 then Entry(0x7fffe0, 23)
    else if i == 4 then Entry(0xffffee, 24) else if i == 5 then Entry(0x7fffe1, 23)
    else if i == 6 then Entry(0x7fffe2, 23) else if i == 7 then Entry(0x7fffe3, 23)
    else if i == 8 then Entry(0x7fffe4, 23) else if i == 9 then Entry(0x1fffdc, 21)
    else if i == 10 then Entry(0x3fffd8, 22) else if i == 11 then Entry(0x7fffe5, 23)
    else if i == 12 then Entry(0x3fffd9, 22) else if i == 13 then Entry(0x7fffe6, 23)
    else if i == 14 then Entry(0x7fffe7, 23) else Entry(0xffffef, 24)
  }

  function Row10(i: nat): Entry {
    if i == 0 then Entry(0x3fffda, 22) else if i == 1 then Entry(0x1fffdd, 21)
    else if i == 2 then Entry(0xfffe9, 20) else if i == 3 then Entry(0x3fffdb, 22)
    else if i == 4 then Entry(0x3fffdc, 22) else if i == 5 then Entry(0x7fffe8, 23)
    else if i == 6 then Entry(0x7fffe9, 23) else if i == 7 then Entry(0x1fffde, 21)
    else if i == 8 then Entry(0x7fffea, 23) else if i == 9 then Entry(0x3fffdd, 22)
    else if i == 10 then Entry(0x3fffde, 22) else if i == 11 then Entry(0xfffff0, 24)
    else if i == 12 then Entry(0x1fffdf, 21) else if i == 13 then Entry(0x3fffdf, 22)
    else if i == 14 then Entry(0x7fffeb, 23) else Entry(0x7fffec, 23)
  }

  function Row11(i: nat): Entry {
    if i == 0 then Entry(0x1fffe0, 21) else if i == 1 then Entry(0x1fffe1, 21)
    else if i == 2 then Entry(0x3fffe0, 22) else if i == 3 then Entry(0x1fffe2, 21)
    else if i == 4 then Entry(0x7fffed, 23) else if i == 5 then Entry(0x3fffe1, 22)
    else if i == 6 then Entry(0x7fffee, 23) else if i == 7 then Entry(0x7fffef, 23)
    else if i == 8 then Entry(0xfffea, 20) else if i == 9 then Entry(0x3fffe2, 22)
    else if i == 10 then Entry(0x3fffe3, 22) else if i == 11 then Entry(0x3fffe4, 22)
    else if i == 12 then Entry(0x7ffff0, 23) else if i == 13 then Entry(0x3fffe5, 22)
    else if i == 14 then Entry(0x3fffe6, 22) else Entry(0x7ffff1, 23)
  }

  function Row12(i: nat): Entry {
    if i == 0 then Entry(0x3ffffe0, 26) else if i == 1 then Entry(0x3ffffe1, 26)
    else if i == 2 then Entry(0xfffeb, 20) else if i == 3 then Entry(0x7fff1, 19)
    else if i == 4 then Entry(0x3fffe7, 22) else if i == 5 then Entry(0x7ffff2, 23)
    else if i == 6 then Entry(0x3fffe8, 22) else if i == 7 then Entry(0x1ffffec, 25)
    else if i == 8 then Entry(0x3ffffe2, 26) else if i == 9 then Entry(0x3ffffe3, 26)
    else if i == 10 then Entry(0x3ffffe4, 26) else if i == 11 then Entry(0x7ffffde, 27)
    else if i == 12 then Entry(0x7ffffdf, 27) else if i == 13 then Entry(0x3ffffe5, 26)
    else if i == 14 then Entry(0xfffff1, 24) else Entry(0x1ffffed, 25)
  }

  function Row13(i: nat): Entry {
    if i == 0 then Entry(0x7fff2, 19) else if i == 1 then Entry(0x1fffe3, 21)
    else if i == 2 then Entry(0x3ffffe6, 26) else if i == 3 then Entry(0x7ffffe0, 27)
    else if i == 4 then Entry(0x7ffffe1, 27) else if i == 5 then Entry(0x3ffffe7, 26)
    else if i == 6 then Entry(0x7ffffe2, 27) else if i == 7 then Entry(0xfffff2, 24)
    else if i == 8 then Entry(0x1fffe4, 21) else if i == 9 then Entry(0x1fffe5, 21)
    else if i == 10 then Entry(0x3ffffe8, 26) else if i == 11 then Entry(0x3ffffe9, 26)
    else if i == 12 then Entry(0xffffffd, 28) else if i == 13 then Entry(0x7ffffe3, 27)
    else if i == 14 then Entry(0x7ffffe4, 27) else Entry(0x7ffffe5, 27)
  }

  function Row14(i: nat): Entry {
    if i == 0 then Entry(0xfffec, 20) else if i == 1 then Entry(0xfffff3, 24)
    else if i == 2 then Entry(0xfffed, 20) else if i == 3 then Entry(0x1fffe6, 21)
    else if i == 4 then Entry(0x3fffe9, 22) else if i == 5 then Entry(0x1fffe7, 21)
    else if i == 6 then Entry(0x1fffe8, 21) else if i == 7 then Entry(0x7ffff3, 23)
    else if i == 8 then Entry(0x3fffea, 22) else if i == 9 then Entry(0x3fffeb, 22)
    else if i == 10 then Entry(0x1ffffee, 25) else if i == 11 then Entry(0x1ffffef, 25)
    else if i == 12 then Entry(0xfffff4, 24) else if i == 13 then Entry(0xfffff5, 24)
    else if i == 14 then Entry(0x3ffffea, 26) else Entry(0x7ffff4, 23)
  }

  function Row15(i: nat): Entry {
    if i == 0 then Entry(0x3ffffeb, 26) else if i == 1 then Entry(0x7ffffe6, 27)
    else if i == 2 then Entry(0x3ffffec, 26) else if i == 3 then Entry(0x3ffffed, 26)
    else if i == 4 then Entry(0x7ffffe7, 27) else if i == 5 then Entry(0x7ffffe8, 27)
    else if i == 6 then Entry(0x7ffffe9, 27) else if i == 7 then Entry(0x7ffffea, 27)
    else if i == 8 then Entry(0x7ffffeb, 27) else if i == 9 then Entry(0xffffffe, 28)
    else if i == 10 then Entry(0x7ffffec, 27) else if i == 11 then Entry(0x7ffffed, 27)
    else if i == 12 then Entry(0x7ffffee, 27) else if i == 13 then Entry(0x7ffffef, 27)
    else if i == 14 then Entry(0x7fffff0, 27) else Entry(0x3ffffee, 26)
  }

  function Code(s: nat): nat
    requires s < 256
  {
    TableAt(s).code
  }

  function Len(s: nat): nat
    requires s < 256
  {
    TableAt(s).len
  }

  // The code is canonical: the codes of one length are consecutive, in symbol order, and the
  // first code of a length follows the last one of the length before.

  /** The first code of a length. */
  function First(len: nat): nat {
    if len == 5 then 0x0
    else if len == 6 then 0x14
    else if len == 7 then 0x5c
    else if len == 8 then 0xf8
    else if len == 9 then 0x1fc
    else if len == 10 then 0x3f8
    else if len == 11 then 0x7fa
    else if len == 12 then 0xffa
    else if len == 13 then 0x1ff8
    else if len == 14 then 0x3ffc
    else if len == 15 then 0x7ffc
    else if len == 16 then 0xfffe
    else if len == 17 then 0x1fffc
    else if len == 18 then 0x3fff8
    else if len == 19 then 0x7fff0
    else if len == 20 then 0xfffe6
    else if len == 21 then 0x1fffdc
    else if len == 22 then 0x3fffd2
    else if len == 23 then 0x7fffd8
    else if len == 24 then 0xffffea
    else if len == 25 then 0x1ffffec
    else if len == 26 then 0x3ffffe0
    else if len == 27 then 0x7ffffde
    else if len == 28 then 0xfffffe2
    else if len == 29 then 0x1ffffffe
    else 0x3ffffffc
  }

  /** The number of shorter codes. */
  function Shorter(len: nat): nat {
    if len == 5 then 0
    else if len == 6 then 10
    else if len == 7 then 36
    else if len == 8 then 68
    else if len == 9 then 74
    else if len == 10 then 74
    else if len == 11 then 79
    else if len == 12 then 82
    else if len == 13 then 84
    else if len == 14 then 90
    else if len == 15 then 92
    else if len == 16 then 95
    else if len == 17 then 95
    else if len == 18 then 95
    else if len == 19 then 95
    else if len == 20 then 98
    else if len == 21 then 106
    else if len == 22 then 119
    else if len == 23 then 145
    else if len == 24 then 174
    else if len == 25 then 186
    else if len == 26 then 190
    else if len == 27 then 205
    else if len == 28 then 224
    else if len == 29 then 253
    else if len == 30 then 253
    else 256
  }

  /** One past the last code of a length. */
  function Bound(len: nat): int { First(len) + Shorter(len + 1) - Shorter(len) }

  /** The symbols by code length and value. */
  function SymbolAt(r: nat): nat {
    if r < 16 then Order0(r - 0)
    else if r < 32 then Order1(r - 16)
    else if r < 48 then Order2(r - 32)
    else if r < 64 then Order3(r - 48)
    else if r < 80 then Order4(r - 64)
    else if r < 96 then Order5(r - 80)
    else if r < 112 then Order6(r - 96)
    else if r < 128 then Order7(r - 112)
    else if r < 144 then Order8(r - 128)
    else if r < 160 then Order9(r - 144)
    else if r < 176 then Order10(r - 160)
    else if r < 192 then Order11(r - 176)
    else if r < 208 then Order12(r - 192)
    else if r < 224 then Order13(r - 208)
    else if r < 240 then Order14(r - 224)
    else Order15(r - 240)
  }

  function Order0(i: nat): nat {
    if i == 0 then 48 else if i == 1 then 49 else if i == 2 then 50 else if i == 3 then 97
    else if i == 4 then 99 else if i == 5 then 101 else if i == 6 then 105 else if i == 7 then 111
    else if i == 8 then 115 else if i == 9 then 116 else if i == 10 then 32 else if i == 11 then 37
    else if i == 12 then 45 else if i == 13 then 46 else if i == 14 then 47 else 51
  }

  function Order1(i: nat): nat {
    if i == 0 then 52 else if i == 1 then 53 else if i == 2 then 54 else if i == 3 then 55
    else if i == 4 then 56 else if i == 5 then 57 else if i == 6 then 61 else if i == 7 then 65
    else if i == 8 then 95 else if i == 9 then 98 else if i == 10 then 100 else if i == 11 then 102
    else if i == 12 then 103 else if i == 13 then 104 else if i == 14 then 108 else 109
  }

  function Order2(i: nat): nat {
    if i == 0 then 110 else if i == 1 then 112 else if i == 2 then 114 else if i == 3 then 117
    else if i == 4 then 58 else if i == 5 then 66 else if i == 6 then 67 else if i == 7 then 68
    else if i == 8 then 69 else if i == 9 then 70 else if i == 10 then 71 else if i == 11 then 72
    else if i == 12 then 73 else if i == 13 then 74 else if i == 14 then 75 else 76
  }

  function Order3(i: nat): nat {
    if i == 0 then 77 else if i == 1 then 78 else if i == 2 then 79 else if i == 3 then 80
    else if i == 4 then 81 else if i == 5 then 82 else if i == 6 then 83 else if i == 7 then 84
    else if i == 8 then 85 else if i == 9 then 86 else if i == 10 then 87 else if i == 11 then 89
    else if i == 12 then 106 else if i == 13 then 107 else if i == 14 then 113 else 118
  }

  function Order4(i: nat): nat {
    if i == 0 then 119 else if i == 1 then 120 else if i == 2 then 121 else if i == 3 then 122
    else if i == 4 then 38 else if i == 5 then 42 else if i == 6 then 44 else if i == 7 then 59
    else if i == 8 then 88 else if i == 9 then 90 else if i == 10 then 33 else if i == 11 then 34
    else if i == 12 then 40 else if i == 13 then 41 else if i == 14 then 63 else 39
  }

  function Order5(i: nat): nat {
    if i == 0 then 43 else if i == 1 then 124 else if i == 2 then 35 else if i == 3 then 62
    else if i == 4 then 0 else if i == 5 then 36 else if i == 6 then 64 else if i == 7 then 91
    else if i == 8 then 93 else if i == 9 then 126 else if i == 10 then 94 else if i == 11 then 125
    else if i == 12 then 60 else if i == 13 then 96 else if i == 14 then 123 else 92
  }

  function Order6(i: nat): nat {
    if i == 0 then 195 else if i == 1 then 208 else if i == 2 then 128 else if i == 3 then 130
    else if i == 4 then 131 else if i == 5 then 162 else if i == 6 then 184 else if i == 7 then 194
    else if i == 8 then 224 else if i == 9 then 226 else if i == 10 then 153 else if i == 11 then 161
    else if i == 12 then 167 else if i == 13 then 172 else if i == 14 then 176 else 177
  }

  function Order7(i: nat): nat {
    if i == 0 then 179 else if i == 1 then 209 else if i == 2 then 216 else if i == 3 then 217
    else if i == 4 then 227 else if i == 5 then 229 else if i == 6 then 230 else if i == 7 then 129
    else if i == 8 then 132 else if i == 9 then 133 else if i == 10 then 134 else if i == 11 then 136
    else if i == 12 then 146 else if i == 13 then 154 else if i == 14 then 156 else 160
  }

  function Order8(i: nat): nat {
    if i == 0 then 163 else if i == 1 then 164 else if i == 2 then 169 else if i == 3 then 170
    else if i == 4 then 173 else if i == 5 then 178 else if i == 6 then 181 else if i == 7 then 185
    else if i == 8 then 186 else if i == 9 then 187 else if i == 10 then 189 else if i == 11 then 190
    else if i == 12 then 196 else if i == 13 then 198 else if i == 14 then 228 else 232
  }

  function Order9(i: nat): nat {
    if i == 0 then 233 else if i == 1 then 1 else if i == 2 then 135 else if i == 3 then 137
    else if i == 4 then 138 else if i == 5 then 139 else if i == 6 then 140 else if i == 7 then 141
    else if i == 8 then 143 else if i == 9 then 147 else if i == 10 then 149 else if i == 11 then 150
    else if i == 12 then 151 else if i == 13 then 152 else if i == 14 then 155 else 157
  }

  function Order10(i: nat): nat {
    if i == 0 then 158 else if i == 1 then 165 else if i == 2 then 166 else if i == 3 then 168
    else if i == 4 then 174 else if i == 5 then 175 else if i == 6 then 180 else if i == 7 then 182
    else if i == 8 then 183 else if i == 9 then 188 else if i == 10 then 191 else if i == 11 then 197
    else if i == 12 then 231 else if i == 13 then 239 else if i == 14 then 9 else 142
  }

  function Order11(i: nat): nat {
    if i == 0 then 144 else if i == 1 then 145 else if i == 2 then 148 else if i == 3 then 159
    else if i == 4 then 171 else if i == 5 then 206 else if i == 6 then 215 else if i == 7 then 225
    else if i == 8 then 236 else if i == 9 then 237 else if i == 10 then 199 else if i == 11 then 207
    else if i == 12 then 234 else if i == 13 then 235 else if i == 14 then 192 else 193
  }

  function Order12(i: nat): nat {
    if i == 0 then 200 else if i == 1 then 201 else if i == 2 then 202 else if i == 3 then 205
    else if i == 4 then 210 else if i == 5 then 213 else if i == 6 then 218 else if i == 7 then 219
    else if i == 8 then 238 else if i == 9 then 240 else if i == 10 then 242 else if i == 11 then 243
    else if i == 12 then 255 else if i == 13 then 203 else if i == 14 then 204 else 211
  }

  function Order13(i: nat): nat {
    if i == 0 then 212 else if i == 1 then 214 else if i == 2 then 221 else if i == 3 then 222
    else if i == 4 then 223 else if i == 5 then 241 else if i == 6 then 244 else if i == 7 then 245
    else if i == 8 then 246 else if i == 9 then 247 else if i == 10 then 248 else if i == 11 then 250
    else if i == 12 then 251 else if i == 13 then 252 else if i == 14 then 253 else 254
  }

  function Order14(i: nat): nat {
    if i == 0 then 2 else if i == 1 then 3 else if i == 2 then 4 else if i == 3 then 5
    else if i == 4 then 6 else if i == 5 then 7 else if i == 6 then 8 else if i == 7 then 11
    else if i == 8 then 12 else if i == 9 then 14 else if i == 10 then 15 else if i == 11 then 16
    else if i == 12 then 17 else if i == 13 then 18 else if i == 14 then 19 else 20
  }

  function Order15(i: nat): nat {
    if i == 0 then 21 else if i == 1 then 23 else if i == 2 then 24 else if i == 3 then 25
    else if i == 4 then 26 else if i == 5 then 27 else if i == 6 then 28 else if i == 7 then 29
    else if i == 8 then 30 else if i == 9 then 31 else if i == 10 then 127 else if i == 11 then 220
    else if i == 12 then 249 else if i == 13 then 10 else if i == 14 then 13 else 22
  }

  /** The place of a symbol in that order, read off its code. */
  function Rank(s: nat): int
    requires s < 256
  {
    Shorter(Len(s)) + Code(s) - First(Len(s))
  }

  ghost predicate Canonical(s: nat)
    requires s < 256
  {
    && 5 <= Len(s) <= 30 && First(Len(s)) <= Code(s) < Bound(Len(s))
    && 0 <= Rank(s) < 256 && SymbolAt(Rank(s)) == s
  }

  lemma Row0Canonical(s: nat)
    requires 0 <= s < 16
    ensures Canonical(s)
  {
  }

  lemma Row1Canonical(s: nat)
    requires 16 <= s < 32
    ensures Canonical(s)
  {
  }

  lemma Row2Canonical(s: nat)
    requires 32 <= s < 48
    ensures Canonical(s)
  {
  }

  lemma Row3Canonical(s: nat)
    requires 48 <= s < 64
    ensures Canonical(s)
  {
  }

  lemma Row4Canonical(s: nat)
    requires 64 <= s < 80
    ensures Canonical(s)
  {
  }

  lemma Row5Canonical(s: nat)
    requires 80 <= s < 96
    ensures Canonical(s)
  {
  }

  lemma Row6Canonical(s: nat)
    requires 96 <= s < 112
    ensures Canonical(s)
  {
  }

  lemma Row7Canonical(s: nat)
    requires 112 <= s < 128
    ensures Canonical(s)
  {
  }

  lemma Row8Canonical(s: nat)
    requires 128 <= s < 144
    ensures Canonical(s)
  {
  }

  lemma Row9Canonical(s: nat)
    requires 144 <= s < 160
    ensures Canonical(s)
  {
  }

  lemma Row10Canonical(s: nat)
    requires 160 <= s < 176
    ensures Canonical(s)
  {
  }

  lemma Row11Canonical(s: nat)
    requires 176 <= s < 192
    ensures Canonical(s)
  {
  }

  lemma Row12Canonical(s: nat)
    requires 192 <= s < 208
    ensures Canonical(s)
  {
  }

  lemma Row13Canonical(s: nat)
    requires 208 <= s < 224
    ensures Canonical(s)
  {
  }

  lemma Row14Canonical(s: nat)
    requires 224 <= s < 240
    ensures Canonical(s)
  {
  }

  lemma Row15Canonical(s: nat)
    requires 240 <= s < 256
    ensures Canonical(s)
  {
  }

  /** Every entry of the table is where the canonical construction puts it. */
  lemma TableIsCanonical(s: nat)
    requires s < 256
    ensures Canonical(s)
  {
    hide *;
    if s < 16 { Row0Canonical(s); }
    else if s < 32 { Row1Canonical(s); }
    else if s < 48 { Row2Canonical(s); }
    else if s < 64 { Row3Canonical(s); }
    else if s < 80 { Row4Canonical(s); }
    else if s < 96 { Row5Canonical(s); }
    else if s < 112 { Row6Canonical(s); }
    else if s < 128 { Row7Canonical(s); }
    else if s < 144 { Row8Canonical(s); }
    else if s < 160 { Row9Canonical(s); }
    else if s < 176 { Row10Canonical(s); }
    else if s < 192 { Row11Canonical(s); }
    else if s < 208 { Row12Canonical(s); }
    else if s < 224 { Row13Canonical(s); }
    else if s < 240 { Row14Canonical(s); }
    else { Row15Canonical(s); }
  }

  /** The first code of a length continues where the previous length stopped; the all-ones
      code is left to the end-of-string symbol. */
  lemma LengthsContinue(len: nat)
    requires 5 <= len <= 30
    ensures len < 30 ==> First(len + 1) == 2 * Bound(len)
    ensures 0 <= First(len) <= Bound(len) < Pow2(len)
  {
    PowersOfTwo(len);
  }

  lemma PowersOfTwo(len: nat)
    requires 5 <= len <= 30
    ensures Pow2(len) == if len < 16 then SmallPower(len) else SmallPower(len - 15) * 0x8000
  {
    if len >= 16 { Pow2Sum(len - 15, 15); }
    assert Pow2(15) == 0x8000;
  }

  function SmallPower(n: nat): nat {
    if n == 1 then 2 else if n == 2 then 4 else if n == 3 then 8 else if n == 4 then 16 else if n == 5 then 32
    else if n == 6 then 64 else if n == 7 then 128 else if n == 8 then 256 else if n == 9 then 512
    else if n == 10 then 1024 else if n == 11 then 2048 else if n == 12 then 4096 else if n == 13 then 8192
    else if n == 14 then 16384 else 32768
  }

  // ------------------------------------------------------------ prefix-freeness

  function CodeBits(s: nat): (b: seq<bool>)
    requires s < 256
    ensures |b| == Len(s)
  {
    Bits(Code(s), Len(s))
  }

  /** No code of a length is below the continuation of a shorter one. */
  lemma {:induction false} LongerIsAbove(a: nat, b: nat, v: nat)
    requires 5 <= a <= b <= 30 && v >= First(b)
    ensures a < b ==> Shr(v, b - a) >= Bound(a)
    decreases b - a
  {
    hide First, Bound, Pow2;
    if a < b {
      LengthsContinue(b - 1);
      assert v / 2 >= Bound(b - 1);
      if a < b - 1 {
        LengthsContinue(b - 1);
        LongerIsAbove(a, b - 1, v / 2);
      }
    }
  }

  /** No code is a prefix of another. */
  lemma PrefixFree(s: nat, t: nat)
    requires s < 256 && t < 256 && CodeBits(s) <= CodeBits(t)
    ensures s == t
  {
    hide *;
    if Len(s) == Len(t) {
      SameCode(s, t);
    } else {
      ShorterCode(s, t);
    }
  }

  lemma SameCode(s: nat, t: nat)
    requires s < 256 && t < 256 && CodeBits(s) == CodeBits(t)
    ensures s == t
  {
    hide Code, Len, First, Bound, Shorter, SymbolAt, Pow2, Bits;
    TableIsCanonical(s);
    TableIsCanonical(t);
    LengthsContinue(Len(s));
    ValueOfBits(Code(s), Len(s));
    ValueOfBits(Code(t), Len(s));
  }

  lemma ShorterCode(s: nat, t: nat)
    requires s < 256 && t < 256 && Len(s) < Len(t)
    ensures !(CodeBits(s) <= CodeBits(t))
  {
    hide Code, Len, First, Bound, Shorter, SymbolAt, Shr, Pow2, Bits, Rank;
    var a, b := Len(s), Len(t);
    TableIsCanonical(s);
    TableIsCanonical(t);
    LengthsContinue(a);
    LengthsContinue(b);
    var u := Shr(Code(t), b - a);
    LongerIsAbove(a, b, Code(t));
    ShrBelow(Code(t), a, b - a);
    BitsSplit(Code(t), a, b - a);
    ValueOfBits(Code(s), a);
    ValueOfBits(u, a);
    assert CodeBits(t)[..a] == Bits(u, a) != CodeBits(s);
  }

  lemma {:induction false} ShrBelow(v: nat, a: nat, k: nat)
    requires v < Pow2(a + k)
    ensures Shr(v, k) < Pow2(a)
    decreases k
  {
    if k > 0 { ShrBelow(v / 2, a, k - 1); }
  }

  /** No code consists of ones only, so padding is never taken for a symbol. */
  lemma NotAllOnes(s: nat)
    requires s < 256
    ensures CodeBits(s) != Ones(Len(s))
  {
    hide Code, Len, First, Bound, Shorter, SymbolAt, Pow2, Bits, Ones;
    TableIsCanonical(s);
    LengthsContinue(Len(s));
    BitsOfOnes(Len(s));
    ValueOfBits(Code(s), Len(s));
    ValueOfBits(Pow2(Len(s)) - 1, Len(s));
  }
}
