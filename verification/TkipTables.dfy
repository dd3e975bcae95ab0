/** The TKIP S-box: a low and a high byte for every byte, sixteen to a row. */
module TkipTables {

  type Byte = bv8

  function Row(i: Byte): bv4 {
    (i >> 4) as bv4
  }

  function Column(i: Byte): bv4 {
    (i & 0x0F) as bv4
  }

  function Lower(i: Byte): Byte {
    match Row(i)
    case 0 => Lower0(Column(i))
    case 1 => Lower1(Column(i))
    case 2 => Lower2(Column(i))
    case 3 => Lower3(Column(i))
    case 4 => Lower4(Column(i))
    case 5 => Lower5(Column(i))
    case 6 => Lower6(Column(i))
    case 7 => Lower7(Column(i))
    case 8 => Lower8(Column(i))
    case 9 => Lower9(Column(i))
    case 10 => Lower10(Column(i))
    case 11 => Lower11(Column(i))
    case 12 => Lower12(Column(i))
    case 13 => Lower13(Column(i))
    case 14 => Lower14(Column(i))
    case 15 => Lower15(Column(i))
  }

  function Upper(i: Byte): Byte {
    match Row(i)
    case 0 => Upper0(Column(i))
    case 1 => Upper1(Column(i))
    case 2 => Upper2(Column(i))
    case 3 => Upper3(Column(i))
    case 4 => Upper4(Column(i))
    case 5 => Upper5(Column(i))
    case 6 => Upper6(Column(i))
    case 7 => Upper7(Column(i))
    case 8 => Upper8(Column(i))
    case 9 => Upper9(Column(i))
    case 10 => Upper10(Column(i))
    case 11 => Upper11(Column(i))
    case 12 => Upper12(Column(i))
    case 13 => Upper13(Column(i))
    case 14 => Upper14(Column(i))
    case 15 => Upper15(Column(i))
  }

  function Lower0(j: bv4): Byte {
    match j
    case 0 => 0xA5 case 1 => 0x84 case 2 => 0x99 case 3 => 0x8D case 4 => 0x0D case 5 => 0xBD case 6 => 0xB1 case 7 => 0x54
    case 8 => 0x50 case 9 => 0x03 case 10 => 0xA9 case 11 => 0x7D case 12 => 0x19 case 13 => 0x62 case 14 => 0xE6 case 15 => 0x9A
  }

  function Lower1(j: bv4): Byte {
    match j
    case 0 => 0x45 case 1 => 0x9D case 2 => 0x40 case 3 => 0x87 case 4 => 0x15 case 5 => 0xEB case 6 => 0xC9 case 7 => 0x0B
    case 8 => 0xEC case 9 => 0x67 case 10 => 0xFD case 11 => 0xEA case 12 => 0xBF case 13 => 0xF7 case 14 => 0x96 case 15 => 0x5B
  }

  function Lower2(j: bv4): Byte {
    match j
    case 0 => 0xC2 case 1 => 0x1C case 2 => 0xAE case 3 => 0x6A case 4 => 0x5A case 5 => 0x41 case 6 => 0x02 case 7 => 0x4F
    case 8 => 0x5C case 9 => 0xF4 case 10 => 0x34 case 11 => 0x08 case 12 => 0x93 case 13 => 0x73 case 14 => 0x53 case 15 => 0x3F
  }

  function Lower3(j: bv4): Byte {
    match j
    case 0 => 0x0C case 1 => 0x52 case 2 => 0x65 case 3 => 0x5E case 4 => 0x28 case 5 => 0xA1 case 6 => 0x0F case 7 => 0xB5
    case 8 => 0x09 case 9 => 0x36 case 10 => 0x9B case 11 => 0x3D case 12 => 0x26 case 13 => 0x69 case 14 => 0xCD case 15 => 0x9F
  }

  function Lower4(j: bv4): Byte {
    match j
    case 0 => 0x1B case 1 => 0x9E case 2 => 0x74 case 3 => 0x2E case 4 => 0x2D case 5 => 0xB2 case 6 => 0xEE case 7 => 0xFB
    case 8 => 0xF6 case 9 => 0x4D case 10 => 0x61 case 11 => 0xCE case 12 => 0x7B case 13 => 0x3E case 14 => 0x71 case 15 => 0x97
  }

  function Lower5(j: bv4): Byte {
    match j
    case 0 => 0xF5 case 1 => 0x68 case 2 => 0x00 case 3 => 0x2C case 4 => 0x60 case 5 => 0x1F case 6 => 0xC8 case 7 => 0xED
    case 8 => 0xBE case 9 => 0x46 case 10 => 0xD9 case 11 => 0x4B case 12 => 0xDE case 13 => 0xD4 case 14 => 0xE8 case 15 => 0x4A
  }

  function Lower6(j: bv4): Byte {
    match j
    case 0 => 0x6B case 1 => 0x2A case 2 => 0xE5 case 3 => 0x16 case 4 => 0xC5 case 5 => 0xD7 case 6 => 0x55 case 7 => 0x94
    case 8 => 0xCF case 9 => 0x10 case 10 => 0x06 case 11 => 0x81 case 12 => 0xF0 case 13 => 0x44 case 14 => 0xBA case 15 => 0xE3
  }

  function Lower7(j: bv4): Byte {
    match j
    case 0 => 0xF3 case 1 => 0xFE case 2 => 0xC0 case 3 => 0x8A case 4 => 0xAD case 5 => 0xBC case 6 => 0x48 case 7 => 0x04
    case 8 => 0xDF case 9 => 0xC1 case 10 => 0x75 case 11 => 0x63 case 12 => 0x30 case 13 => 0x1A case 14 => 0x0E case 15 => 0x6D
  }

  function Lower8(j: bv4): Byte {
    match j
    case 0 => 0x4C case 1 => 0x14 case 2 => 0x35 case 3 => 0x2F case 4 => 0xE1 case 5 => 0xA2 case 6 => 0xCC case 7 => 0x39
    case 8 => 0x57 case 9 => 0xF2 case 10 => 0x82 case 11 => 0x47 case 12 => 0xAC case 13 => 0xE7 case 14 => 0x2B case 15 => 0x95
  }

  function Lower9(j: bv4): Byte {
    match j
    case 0 => 0xA0 case 1 => 0x98 case 2 => 0xD1 case 3 => 0x7F case 4 => 0x66 case 5 => 0x7E case 6 => 0xAB case 7 => 0x83
    case 8 => 0xCA case 9 => 0x29 case 10 => 0xD3 case 11 => 0x3C case 12 => 0x79 case 13 => 0xE2 case 14 => 0x1D case 15 => 0x76
  }

  function Lower10(j: bv4): Byte {
    match j
    case 0 => 0x3B case 1 => 0x56 case 2 => 0x4E case 3 => 0x1E case 4 => 0xDB case 5 => 0x0A case 6 => 0x6C case 7 => 0xE4
    case 8 => 0x5D case 9 => 0x6E case 10 => 0xEF case 11 => 0xA6 case 12 => 0xA8 case 13 => 0xA4 case 14 => 0x37 case 15 => 0x8B
  }

  function Lower11(j: bv4): Byte {
    match j
    case 0 => 0x32 case 1 => 0x43 case 2 => 0x59 case 3 => 0xB7 case 4 => 0x8C case 5 => 0x64 case 6 => 0xD2 case 7 => 0xE0
    case 8 => 0xB4 case 9 => 0xFA case 10 => 0x07 case 11 => 0x25 case 12 => 0xAF case 13 => 0x8E case 14 => 0xE9 case 15 => 0x18
  }

  function Lower12(j: bv4): Byte {
    match j
    case 0 => 0xD5 case 1 => 0x88 case 2 => 0x6F case 3 => 0x72 case 4 => 0x24 case 5 => 0xF1 case 6 => 0xC7 case 7 => 0x51
    case 8 => 0x23 case 9 => 0x7C case 10 => 0x9C case 11 => 0x21 case 12 => 0xDD case 13 => 0xDC case 14 => 0x86 case 15 => 0x85
  }

  function Lower13(j: bv4): Byte {
    match j
    case 0 => 0x90 case 1 => 0x42 case 2 => 0xC4 case 3 => 0xAA case 4 => 0xD8 case 5 => 0x05 case 6 => 0x01 case 7 => 0x12
    case 8 => 0xA3 case 9 => 0x5F case 10 => 0xF9 case 11 => 0xD0 case 12 => 0x91 case 13 => 0x58 case 14 => 0x27 case 15 => 0xB9
  }

  function Lower14(j: bv4): Byte {
    match j
    case 0 => 0x38 case 1 => 0x13 case 2 => 0xB3 case 3 => 0x33 case 4 => 0xBB case 5 => 0x70 case 6 => 0x89 case 7 => 0xA7
    case 8 => 0xB6 case 9 => 0x22 case 10 => 0x92 case 11 => 0x20 case 12 => 0x49 case 13 => 0xFF case 14 => 0x78 case 15 => 0x7A
  }

  function Lower15(j: bv4): Byte {
    match j
    case 0 => 0x8F case 1 => 0xF8 case 2 => 0x80 case 3 => 0x17 case 4 => 0xDA case 5 => 0x31 case 6 => 0xC6 case 7 => 0xB8
    case 8 => 0xC3 case 9 => 0xB0 case 10 => 0x77 case 11 => 0x11 case 12 => 0xCB case 13 => 0xFC case 14 => 0xD6 case 15 => 0x3A
  }

  function Upper0(j: bv4): Byte {
    match j
    case 0 => 0xC6 case 1 => 0xF8 case 2 => 0xEE case 3 => 0xF6 case 4 => 0xFF case 5 => 0xD6 case 6 => 0xDE case 7 => 0x91
    case 8 => 0x60 case 9 => 0x02 case 10 => 0xCE case 11 => 0x56 case 12 => 0xE7 case 13 => 0xB5 case 14 => 0x4D case 15 => 0xEC
  }

  function Upper1(j: bv4): Byte {
    match j
    case 0 => 0x8F case 1 => 0x1F case 2 => 0x89 case 3 => 0xFA case 4 => 0xEF case 5 => 0xB2 case 6 => 0x8E case 7 => 0xFB
    case 8 => 0x41 case 9 => 0xB3 case 10 => 0x5F case 11 => 0x45 case 12 => 0x23 case 13 => 0x53 case 14 => 0xE4 case 15 => 0x9B
  }

  function Upper2(j: bv4): Byte {
    match j
    case 0 => 0x75 case 1 => 0xE1 case 2 => 0x3D case 3 => 0x4C case 4 => 0x6C case 5 => 0x7E case 6 => 0xF5 case 7 => 0x83
    case 8 => 0x68 case 9 => 0x51 case 10 => 0xD1 case 11 => 0xF9 case 12 => 0xE2 case 13 => 0xAB case 14 => 0x62 case 15 => 0x2A
  }

  function Upper3(j: bv4): Byte {
    match j
    case 0 => 0x08 case 1 => 0x95 case 2 => 0x46 case 3 => 0x9D case 4 => 0x30 case 5 => 0x37 case 6 => 0x0A case 7 => 0x2F
    case 8 => 0x0E case 9 => 0x24 case 10 => 0x1B case 11 => 0xDF case 12 => 0xCD case 13 => 0x4E case 14 => 0x7F case 15 => 0xEA
  }

  function Upper4(j: bv4): Byte {
    match j
    case 0 => 0x12 case 1 => 0x1D case 2 => 0x58 case 3 => 0x34 case 4 => 0x36 case 5 => 0xDC case 6 => 0xB4 case 7 => 0x5B
    case 8 => 0xA4 case 9 => 0x76 case 10 => 0xB7 case 11 => 0x7D case 12 => 0x52 case 13 => 0xDD case 14 => 0x5E case 15 => 0x13
  }

  function Upper5(j: bv4): Byte {
    match j
    case 0 => 0xA6 case 1 => 0xB9 case 2 => 0x00 case 3 => 0xC1 case 4 => 0x40 case 5 => 0xE3 case 6 => 0x79 case 7 => 0xB6
    case 8 => 0xD4 case 9 => 0x8D case 10 => 0x67 case 11 => 0x72 case 12 => 0x94 case 13 => 0x98 case 14 => 0xB0 case 15 => 0x85
  }

  function Upper6(j: bv4): Byte {
    match j
    case 0 => 0xBB case 1 => 0xC5 case 2 => 0x4F case 3 => 0xED case 4 => 0x86 case 5 => 0x9A case 6 => 0x66 case 7 => 0x11
    case 8 => 0x8A case 9 => 0xE9 case 10 => 0x04 case 11 => 0xFE case 12 => 0xA0 case 13 => 0x78 case 14 => 0x25 case 15 => 0x4B
  }

  function Upper7(j: bv4): Byte {
    match j
    case 0 => 0xA2 case 1 => 0x5D case 2 => 0x80 case 3 => 0x05 case 4 => 0x3F case 5 => 0x21 case 6 => 0x70 case 7 => 0xF1
    case 8 => 0x63 case 9 => 0x77 case 10 => 0xAF case 11 => 0x42 case 12 => 0x20 case 13 => 0xE5 case 14 => 0xFD case 15 => 0xBF
  }

  function Upper8(j: bv4): Byte {
    match j
    case 0 => 0x81 case 1 => 0x18 case 2 => 0x26 case 3 => 0xC3 case 4 => 0xBE case 5 => 0x35 case 6 => 0x88 case 7 => 0x2E
    case 8 => 0x93 case 9 => 0x55 case 10 => 0xFC case 11 => 0x7A case 12 => 0xC8 case 13 => 0xBA case 14 => 0x32 case 15 => 0xE6
  }

  function Upper9(j: bv4): Byte {
    match j
    case 0 => 0xC0 case 1 => 0x19 case 2 => 0x9E case 3 => 0xA3 case 4 => 0x44 case 5 => 0x54 case 6 => 0x3B case 7 => 0x0B
    case 8 => 0x8C case 9 => 0xC7 case 10 => 0x6B case 11 => 0x28 case 12 => 0xA7 case 13 => 0xBC case 14 => 0x16 case 15 => 0xAD
  }

  function Upper10(j: bv4): Byte {
    match j
    case 0 => 0xDB case 1 => 0x64 case 2 => 0x74 case 3 => 0x14 case 4 => 0x92 case 5 => 0x0C case 6 => 0x48 case 7 => 0xB8
    case 8 => 0x9F case 9 => 0xBD case 10 => 0x43 case 11 => 0xC4 case 12 => 0x39 case 13 => 0x31 case 14 => 0xD3 case 15 => 0xF2
  }

  function Upper11(j: bv4): Byte {
    match j
    case 0 => 0xD5 case 1 => 0x8B case 2 => 0x6E case 3 => 0xDA case 4 => 0x01 case 5 => 0xB1 case 6 => 0x9C case 7 => 0x49
    case 8 => 0xD8 case 9 => 0xAC case 10 => 0xF3 case 11 => 0xCF case 12 => 0xCA case 13 => 0xF4 case 14 => 0x47 case 15 => 0x10
  }

  function Upper12(j: bv4): Byte {
    match j
    case 0 => 0x6F case 1 => 0xF0 case 2 => 0x4A case 3 => 0x5C case 4 => 0x38 case 5 => 0x57 case 6 => 0x73 case 7 => 0x97
    case 8 => 0xCB case 9 => 0xA1 case 10 => 0xE8 case 11 => 0x3E case 12 => 0x96 case 13 => 0x61 case 14 => 0x0D case 15 => 0x0F
  }

  function Upper13(j: bv4): Byte {
    match j
    case 0 => 0xE0 case 1 => 0x7C case 2 => 0x71 case 3 => 0xCC case 4 => 0x90 case 5 => 0x06 case 6 => 0xF7 case 7 => 0x1C
    case 8 => 0xC2 case 9 => 0x6A case 10 => 0xAE case 11 => 0x69 case 12 => 0x17 case 13 => 0x99 case 14 => 0x3A case 15 => 0x27
  }

  function Upper14(j: bv4): Byte {
    match j
    case 0 => 0xD9 case 1 => 0xEB case 2 => 0x2B case 3 => 0x22 case 4 => 0xD2 case 5 => 0xA9 case 6 => 0x07 case 7 => 0x33
    case 8 => 0x2D case 9 => 0x3C case 10 => 0x15 case 11 => 0xC9 case 12 => 0x87 case 13 => 0xAA case 14 => 0x50 case 15 => 0xA5
  }

  function Upper15(j: bv4): Byte {
    match j
    case 0 => 0x03 case 1 => 0x59 case 2 => 0x09 case 3 => 0x1A case 4 => 0x65 case 5 => 0xD7 case 6 => 0x84 case 7 => 0xD0
    case 8 => 0x82 case 9 => 0x29 case 10 => 0x5A case 11 => 0x1E case 12 => 0x7B case 13 => 0xA8 case 14 => 0x6D case 15 => 0x2C
  }
}
