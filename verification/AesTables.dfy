// The substitution tables of Module/md5.c and the law they obey.
module AesTables {
  import opened Words

  // FSb, sixteen entries a row
  const FSB0: seq<Byte> := [0x63, 0x7c, 0x77, 0x7b, 0xf2, 0x6b, 0x6f, 0xc5, 0x30, 0x01, 0x67, 0x2b, 0xfe, 0xd7, 0xab, 0x76]
  const FSB1: seq<Byte> := [0xca, 0x82, 0xc9, 0x7d, 0xfa, 0x59, 0x47, 0xf0, 0xad, 0xd4, 0xa2, 0xaf, 0x9c, 0xa4, 0x72, 0xc0]
  const FSB2: seq<Byte> := [0xb7, 0xfd, 0x93, 0x26, 0x36, 0x3f, 0xf7, 0xcc, 0x34, 0xa5, 0xe5, 0xf1, 0x71, 0xd8, 0x31, 0x15]
  const FSB3: seq<Byte> := [0x04, 0xc7, 0x23, 0xc3, 0x18, 0x96, 0x05, 0x9a, 0x07, 0x12, 0x80, 0xe2, 0xeb, 0x27, 0xb2, 0x75]
  const FSB4: seq<Byte> := [0x09, 0x83, 0x2c, 0x1a, 0x1b, 0x6e, 0x5a, 0xa0, 0x52, 0x3b, 0xd6, 0xb3, 0x29, 0xe3, 0x2f, 0x84]
  const FSB5: seq<Byte> := [0x53, 0xd1, 0x00, 0xed, 0x20, 0xfc, 0xb1, 0x5b, 0x6a, 0xcb, 0xbe, 0x39, 0x4a, 0x4c, 0x58, 0xcf]
  const FSB6: seq<Byte> := [0xd0, 0xef, 0xaa, 0xfb, 0x43, 0x4d, 0x33, 0x85, 0x45, 0xf9, 0x02, 0x7f, 0x50, 0x3c, 0x9f, 0xa8]
  const FSB7: seq<Byte> := [0x51, 0xa3, 0x40, 0x8f, 0x92, 0x9d, 0x38, 0xf5, 0xbc, 0xb6, 0xda, 0x21, 0x10, 0xff, 0xf3, 0xd2]
  const FSB8: seq<Byte> := [0xcd, 0x0c, 0x13, 0xec, 0x5f, 0x97, 0x44, 0x17, 0xc4, 0xa7, 0x7e, 0x3d, 0x64, 0x5d, 0x19, 0x73]
  const FSB9: seq<Byte> := [0x60, 0x81, 0x4f, 0xdc, 0x22, 0x2a, 0x90, 0x88, 0x46, 0xee, 0xb8, 0x14, 0xde, 0x5e, 0x0b, 0xdb]
  const FSBA: seq<Byte> := [0xe0, 0x32, 0x3a, 0x0a, 0x49, 0x06, 0x24, 0x5c, 0xc2, 0xd3, 0xac, 0x62, 0x91, 0x95, 0xe4, 0x79]
  const FSBB: seq<Byte> := [0xe7, 0xc8, 0x37, 0x6d, 0x8d, 0xd5, 0x4e, 0xa9, 0x6c, 0x56, 0xf4, 0xea, 0x65, 0x7a, 0xae, 0x08]
  const FSBC: seq<Byte> := [0xba, 0x78, 0x25, 0x2e, 0x1c, 0xa6, 0xb4, 0xc6, 0xe8, 0xdd, 0x74, 0x1f, 0x4b, 0xbd, 0x8b, 0x8a]
  const FSBD: seq<Byte> := [0x70, 0x3e, 0xb5, 0x66, 0x48, 0x03, 0xf6, 0x0e, 0x61, 0x35, 0x57, 0xb9, 0x86, 0xc1, 0x1d, 0x9e]
  const FSBE: seq<Byte> := [0xe1, 0xf8, 0x98, 0x11, 0x69, 0xd9, 0x8e, 0x94, 0x9b, 0x1e, 0x87, 0xe9, 0xce, 0x55, 0x28, 0xdf]
  const FSBF: seq<Byte> := [0x8c, 0xa1, 0x89, 0x0d, 0xbf, 0xe6, 0x42, 0x68, 0x41, 0x99, 0x2d, 0x0f, 0xb0, 0x54, 0xbb, 0x16]

  // RSb
  const RSB0: seq<Byte> := [0x52, 0x09, 0x6a, 0xd5, 0x30, 0x36, 0xa5, 0x38, 0xbf, 0x40, 0xa3, 0x9e, 0x81, 0xf3, 0xd7, 0xfb]
  const RSB1: seq<Byte> := [0x7c, 0xe3, 0x39, 0x82, 0x9b, 0x2f, 0xff, 0x87, 0x34, 0x8e, 0x43, 0x44, 0xc4, 0xde, 0xe9, 0xcb]
  const RSB2: seq<Byte> := [0x54, 0x7b, 0x94, 0x32, 0xa6, 0xc2, 0x23, 0x3d, 0xee, 0x4c, 0x95, 0x0b, 0x42, 0xfa, 0xc3, 0x4e]
  const RSB3: seq<Byte> := [0x08, 0x2e, 0xa1, 0x66, 0x28, 0xd9, 0x24, 0xb2, 0x76, 0x5b, 0xa2, 0x49, 0x6d, 0x8b, 0xd1, 0x25]
  const RSB4: seq<Byte> := [0x72, 0xf8, 0xf6, 0x64, 0x86, 0x68, 0x98, 0x16, 0xd4, 0xa4, 0x5c, 0xcc, 0x5d, 0x65, 0xb6, 0x92]
  const RSB5: seq<Byte> := [0x6c, 0x70, 0x48, 0x50, 0xfd, 0xed, 0xb9, 0xda, 0x5e, 0x15, 0x46, 0x57, 0xa7, 0x8d, 0x9d, 0x84]
  const RSB6: seq<Byte> := [0x90, 0xd8, 0xab, 0x00, 0x8c, 0xbc, 0xd3, 0x0a, 0xf7, 0xe4, 0x58, 0x05, 0xb8, 0xb3, 0x45, 0x06]
  const RSB7: seq<Byte> := [0xd0, 0x2c, 0x1e, 0x8f, 0xca, 0x3f, 0x0f, 0x02, 0xc1, 0xaf, 0xbd, 0x03, 0x01, 0x13, 0x8a, 0x6b]
  const RSB8: seq<Byte> := [0x3a, 0x91, 0x11, 0x41, 0x4f, 0x67, 0xdc, 0xea, 0x97, 0xf2, 0xcf, 0xce, 0xf0, 0xb4, 0xe6, 0x73]
  const RSB9: seq<Byte> := [0x96, 0xac, 0x74, 0x22, 0xe7, 0xad, 0x35, 0x85, 0xe2, 0xf9, 0x37, 0xe8, 0x1c, 0x75, 0xdf, 0x6e]
  const RSBA: seq<Byte> := [0x47, 0xf1, 0x1a, 0x71, 0x1d, 0x29, 0xc5, 0x89, 0x6f, 0xb7, 0x62, 0x0e, 0xaa, 0x18, 0xbe, 0x1b]
  const RSBB: seq<Byte> := [0xfc, 0x56, 0x3e, 0x4b, 0xc6, 0xd2, 0x79, 0x20, 0x9a, 0xdb, 0xc0, 0xfe, 0x78, 0xcd, 0x5a, 0xf4]
  const RSBC: seq<Byte> := [0x1f, 0xdd, 0xa8, 0x33, 0x88, 0x07, 0xc7, 0x31, 0xb1, 0x12, 0x10, 0x59, 0x27, 0x80, 0xec, 0x5f]
  const RSBD: seq<Byte> := [0x60, 0x51, 0x7f, 0xa9, 0x19, 0xb5, 0x4a, 0x0d, 0x2d, 0xe5, 0x7a, 0x9f, 0x93, 0xc9, 0x9c, 0xef]
  const RSBE: seq<Byte> := [0xa0, 0xe0, 0x3b, 0x4d, 0xae, 0x2a, 0xf5, 0xb0, 0xc8, 0xeb, 0xbb, 0x3c, 0x83, 0x53, 0x99, 0x61]
  const RSBF: seq<Byte> := [0x17, 0x2b, 0x04, 0x7e, 0xba, 0x77, 0xd6, 0x26, 0xe1, 0x69, 0x14, 0x63, 0x55, 0x21, 0x0c, 0x7d]

  function ForwardRow(q: nat): (row: seq<Byte>)
    ensures |row| == 16
  {
    if q == 0 then FSB0
    else if q == 1 then FSB1
    else if q == 2 then FSB2
    else if q == 3 then FSB3
    else if q == 4 then FSB4
    else if q == 5 then FSB5
    else if q == 6 then FSB6
    else if q == 7 then FSB7
    else if q == 8 then FSB8
    else if q == 9 then FSB9
    else if q == 10 then FSBA
    else if q == 11 then FSBB
    else if q == 12 then FSBC
    else if q == 13 then FSBD
    else if q == 14 then FSBE
    else FSBF
  }

  function ReverseRow(q: nat): (row: seq<Byte>)
    ensures |row| == 16
  {
    if q == 0 then RSB0
    else if q == 1 then RSB1
    else if q == 2 then RSB2
    else if q == 3 then RSB3
    else if q == 4 then RSB4
    else if q == 5 then RSB5
    else if q == 6 then RSB6
    else if q == 7 then RSB7
    else if q == 8 then RSB8
    else if q == 9 then RSB9
    else if q == 10 then RSBA
    else if q == 11 then RSBB
    else if q == 12 then RSBC
    else if q == 13 then RSBD
    else if q == 14 then RSBE
    else RSBF
  }

  function FSb(b: Byte): Byte {
    ForwardRow(b / 16)[b % 16]
  }

  function RSb(b: Byte): Byte {
    ReverseRow(b / 16)[b % 16]
  }

  predicate Back(b: Byte) {
    RSb(FSb(b)) == b
  }

  /** A property of the eight bytes from 8 h on. */
  ghost predicate Eight(p: Byte -> bool, h: nat)
    requires h < 32
  {
    var b := 8 * h;
    p(b) && p(b + 1) && p(b + 2) && p(b + 3) && p(b + 4) && p(b + 5) && p(b + 6) && p(b + 7)
  }

  lemma InEight(p: Byte -> bool, b: Byte)
    requires Eight(p, b / 8)
    ensures p(b)
  {
    assert b == 8 * (b / 8) + b % 8;
  }

  // The two halves of each row of FSb are looked up.

  lemma Row0() ensures Eight(Back, 0) {}
  lemma Rest0() ensures Eight(Back, 1) {}
  lemma Row1() ensures Eight(Back, 2) {}
  lemma Rest1() ensures Eight(Back, 3) {}
  lemma Row2() ensures Eight(Back, 4) {}
  lemma Rest2() ensures Eight(Back, 5) {}
  lemma Row3() ensures Eight(Back, 6) {}
  lemma Rest3() ensures Eight(Back, 7) {}
  lemma Row4() ensures Eight(Back, 8) {}
  lemma Rest4() ensures Eight(Back, 9) {}
  lemma Row5() ensures Eight(Back, 10) {}
  lemma Rest5() ensures Eight(Back, 11) {}
  lemma Row6() ensures Eight(Back, 12) {}
  lemma Rest6() ensures Eight(Back, 13) {}
  lemma Row7() ensures Eight(Back, 14) {}
  lemma Rest7() ensures Eight(Back, 15) {}
  lemma Row8() ensures Eight(Back, 16) {}
  lemma Rest8() ensures Eight(Back, 17) {}
  lemma Row9() ensures Eight(Back, 18) {}
  lemma Rest9() ensures Eight(Back, 19) {}
  lemma RowA() ensures Eight(Back, 20) {}
  lemma RestA() ensures Eight(Back, 21) {}
  lemma RowB() ensures Eight(Back, 22) {}
  lemma RestB() ensures Eight(Back, 23) {}
  lemma RowC() ensures Eight(Back, 24) {}
  lemma RestC() ensures Eight(Back, 25) {}
  lemma RowD() ensures Eight(Back, 26) {}
  lemma RestD() ensures Eight(Back, 27) {}
  lemma RowE() ensures Eight(Back, 28) {}
  lemma RestE() ensures Eight(Back, 29) {}
  lemma RowF() ensures Eight(Back, 30) {}
  lemma RestF() ensures Eight(Back, 31) {}

  /** Every entry of the reverse table undoes the forward table. */
  lemma TablesInverse(b: Byte)
    ensures RSb(FSb(b)) == b
  {
    AllRows(b / 8);
    InEight(Back, b);
    assert Back(b);
  }

  lemma AllRows(h: nat)
    requires h < 32
    ensures Eight(Back, h)
  {
    match h {
      case 0 => Row0();
      case 1 => Rest0();
      case 2 => Row1();
      case 3 => Rest1();
      case 4 => Row2();
      case 5 => Rest2();
      case 6 => Row3();
      case 7 => Rest3();
      case 8 => Row4();
      case 9 => Rest4();
      case 10 => Row5();
      case 11 => Rest5();
      case 12 => Row6();
      case 13 => Rest6();
      case 14 => Row7();
      case 15 => Rest7();
      case 16 => Row8();
      case 17 => Rest8();
      case 18 => Row9();
      case 19 => Rest9();
      case 20 => RowA();
      case 21 => RestA();
      case 22 => RowB();
      case 23 => RestB();
      case 24 => RowC();
      case 25 => RestC();
      case 26 => RowD();
      case 27 => RestD();
      case 28 => RowE();
      case 29 => RestE();
      case 30 => RowF();
      case 31 => RestF();
    }
  }
}
